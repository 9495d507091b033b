/** The AXI-Lite bridge as it is built: registers, credit counters and queues, clocked. */
module AxiLiteBridge {
  import opened Streams
  import opened Arithmetic
  import Fifo
  import opened AxiLite

  class AXIL2SR {
    const depths: Depths
    var skipWrAddrEnq: bool
    var wrAddrQ: seq<Half>
    var writeFifoSelect: bool
    var wrDataQ0: seq<Half>
    var wrDataQ1: seq<Half>
    var respCounter: nat
    var readReqFifoSelect: bool
    var readReqQ0: seq<Half>
    var readReqQ1: seq<Half>
    var readSubmitSelect: bool
    var readRespCreditCnt: nat
    var rdRespQ: seq<bv64>
    var rdRespHalfSelect: bool

    constructor (depths: Depths)
      ensures this.depths == depths && State() == RESET
    {
      this.depths := depths;
      skipWrAddrEnq, wrAddrQ := false, [];
      writeFifoSelect, wrDataQ0, wrDataQ1, respCounter := false, [], [], 0;
      readReqFifoSelect, readReqQ0, readReqQ1, readSubmitSelect, readRespCreditCnt := false, [], [], false, 0;
      rdRespQ, rdRespHalfSelect := [], false;
    }

    function WriteHalf(): WriteRegs
      reads this
    {
      WriteRegs(skipWrAddrEnq, wrAddrQ, writeFifoSelect, wrDataQ0, wrDataQ1, respCounter)
    }

    function ReadHalf(): ReadRegs
      reads this
    {
      ReadRegs(readReqFifoSelect, readReqQ0, readReqQ1, readSubmitSelect, readRespCreditCnt)
    }

    function Answers(): AnswerRegs
      reads this
    {
      AnswerRegs(rdRespQ, rdRespHalfSelect)
    }

    function State(): Bridge
      reads this
    {
      Bridge(WriteHalf(), ReadHalf(), Answers())
    }

    method Handshakes() returns (awReady: bool, wReady: bool, bValid: bool, arReady: bool)
      ensures awReady == AwReady(depths, State()) && wReady == WReady(depths, State())
      ensures arReady == ArReady(depths, State()) && bValid == BValid(State())
    {
      awReady := |wrAddrQ| < depths.addr;
      wReady := |wrDataQ0| < depths.data && |wrDataQ1| < depths.data;
      bValid := respCounter != 0;
      arReady := |readReqQ0| < depths.req && |readReqQ1| < depths.req;
    }

    /** Static preference to writes. */
    method Request() returns (request: Option<SrReq>)
      ensures request == Offered(State())
    {
      hide Combine;
      request := None;
      if wrAddrQ != [] && wrDataQ1 != [] && wrDataQ0 != [] {
        request := Some(Write(wrAddrQ[0], Combine(wrDataQ0[0], wrDataQ1[0])));
      } else if readReqQ0 != [] && !readSubmitSelect {
        request := Some(Read(readReqQ0[0]));
      }
    }

    method ReadData() returns (rData: Option<Half>)
      ensures rData == RData(State())
    {
      hide LowHalf, HighHalf;
      rData := None;
      if rdRespQ != [] && readRespCreditCnt != 0 {
        rData := Some(if rdRespHalfSelect then HighHalf(rdRespQ[0]) else LowHalf(rdRespQ[0]));
      }
    }

    /** The write half's edge: `aw` and `w` are what the two channels transfer this cycle. */
    method ClockWriteSide(aw: Option<Half>, w: Option<Half>, respSent: bool, submitted: bool)
      modifies this`skipWrAddrEnq, this`wrAddrQ, this`writeFifoSelect, this`wrDataQ0, this`wrDataQ1, this`respCounter
      ensures WriteHalf() == NextWrite(depths, old(WriteHalf()), Opt(aw), Opt(w), respSent, submitted)
    {
      var addrEnq := aw.Some? && !skipWrAddrEnq;
      wrAddrQ := Fifo.Next(wrAddrQ, depths.addr, if addrEnq then aw else None, submitted);
      if addrEnq {
        skipWrAddrEnq := true;
      } else if aw.Some? && skipWrAddrEnq {
        skipWrAddrEnq := false;
      }
      wrDataQ0 := Fifo.Next(wrDataQ0, depths.data, if writeFifoSelect == false then w else None, submitted);
      wrDataQ1 := Fifo.Next(wrDataQ1, depths.data, if writeFifoSelect == true then w else None, submitted);
      if w.Some? { writeFifoSelect := !writeFifoSelect; }
      if w.Some? && !respSent {
        respCounter := (respCounter + 1) % WIDTH32;
      } else if !w.Some? && respSent {
        respCounter := (respCounter + WIDTH32 - 1) % WIDTH32;
      }
    }

    method ClockReadSide(ar: Option<Half>, beatSent: bool, submitted: bool)
      requires submitted ==> readReqQ0 != [] && !readSubmitSelect
      modifies this`readReqFifoSelect, this`readReqQ0, this`readReqQ1, this`readSubmitSelect, this`readRespCreditCnt
      ensures ReadHalf() == NextRead(depths, old(ReadHalf()), Opt(ar), beatSent, submitted)
    {
      var deq1 := false;
      var newSubmitSelect := readSubmitSelect;
      if readReqQ0 != [] && readSubmitSelect == false {
        if submitted { newSubmitSelect := true; }
      } else if readReqQ1 != [] && readSubmitSelect == true {
        newSubmitSelect, deq1 := false, true;
      }
      readReqQ0 := Fifo.Next(readReqQ0, depths.req, if readReqFifoSelect == false then ar else None, submitted);
      readReqQ1 := Fifo.Next(readReqQ1, depths.req, if readReqFifoSelect == true then ar else None, deq1);
      readSubmitSelect := newSubmitSelect;
      if ar.Some? { readReqFifoSelect := !readReqFifoSelect; }
      if ar.Some? {
        if !beatSent { readRespCreditCnt := (readRespCreditCnt + 1) % WIDTH32; }
      } else if beatSent {
        readRespCreditCnt := (readRespCreditCnt + WIDTH32 - 1) % WIDTH32;
      }
    }

    method ClockAnswers(resp: Option<bv64>, beat: Option<Half>)
      modifies this`rdRespQ, this`rdRespHalfSelect
      ensures Answers() == NextAnswers(depths, old(Answers()), Opt(resp), Opt(beat))
    {
      var deq := rdRespHalfSelect == true && beat.Some?;
      rdRespQ := Fifo.Next(rdRespQ, depths.resp, resp, deq);
      if deq {
        rdRespHalfSelect := false;
      } else if rdRespHalfSelect == false && beat.Some? {
        rdRespHalfSelect := true;
      }
    }

    /** What the request channels transfer this cycle, and whether a write response leaves. */
    method ShellWires(i: In) returns (aw: Option<Half>, w: Option<Half>, ar: Option<Half>, responded: bool)
      ensures Opt(aw) == AwTaken(depths, State(), i) && Opt(w) == WTaken(depths, State(), i)
      ensures Opt(ar) == ArTaken(depths, State(), i) && responded == BSent(State(), i)
    {
      hide AwReady, WReady, ArReady, BValid;
      var awReady, wReady, bValid, arReady := Handshakes();
      aw, w := if awReady then i.aw else None, if wReady then i.w else None;
      ar, responded := if arReady then i.ar else None, bValid && i.bReady;
    }

    method AnswerWires(i: In) returns (beat: Option<Half>, resp: Option<bv64>)
      ensures Opt(beat) == Beat(State(), i) && Opt(resp) == RespTaken(depths, State(), i)
    {
      hide RData;
      resp := if |rdRespQ| < depths.resp then i.resp else None;
      var rData := ReadData();
      beat := if i.rReady then rData else None;
    }

    method SubmitWire(i: In) returns (submitted: Option<SrReq>)
      ensures Opt(submitted) == AxiLite.Submitted(State(), i)
      ensures submitted.Some? && submitted.value.Read? ==> readReqQ0 != [] && !readSubmitSelect
    {
      hide Combine;
      var request := Request();
      submitted := if i.grant then request else None;
    }

    method Clock(i: In)
      modifies this
      ensures State() == Next(depths, old(State()), i)
    {
      hide Combine, LowHalf, HighHalf, Offered, NextWrite, NextRead, NextAnswers;
      hide AwTaken, WTaken, ArTaken, BSent, Beat, RespTaken, AxiLite.Submitted;
      var aw, w, ar, responded := ShellWires(i);
      var beat, resp := AnswerWires(i);
      var submitted := SubmitWire(i);
      ClockAnswers(resp, beat);
      ClockReadSide(ar, beat.Some?, submitted.Some? && submitted.value.Read?);
      ClockWriteSide(aw, w, responded, submitted.Some? && submitted.value.Write?);
    }
  }
}
