/** The bridge from AXI-Lite, with its five independent 32-bit channels, to 64-bit register
    requests, as values: registers, one clock edge, and the streams on every channel. */
module AxiLite {
  import opened Streams
  import opened Arithmetic
  import Fifo

  type Half = bv32

  function Combine(low: Half, high: Half): bv64 {
    ((high as bv64) << 32) | (low as bv64)
  }

  function LowHalf(d: bv64): Half {
    (d & 0xFFFF_FFFF) as bv32
  }

  function HighHalf(d: bv64): Half {
    ((d >> 32) & 0xFFFF_FFFF) as bv32
  }

  lemma Halves(low: Half, high: Half, d: bv64)
    ensures LowHalf(Combine(low, high)) == low && HighHalf(Combine(low, high)) == high
    ensures Combine(LowHalf(d), HighHalf(d)) == d
  {
  }

  function Num(x: Half): (n: nat) { x as nat }
  function Num64(x: bv64): (n: nat) { x as nat }

  /** In numbers: the first beat counts units, the second one 2^32s. */
  lemma CombineIs(low: Half, high: Half)
    ensures Num64(Combine(low, high)) == Num(high) * 0x1_0000_0000 + Num(low)
  {
  }

  /** A register request; the data of a read is zero. */
  datatype SrReq = Write(addr: Half, data: bv64) | Read(addr: Half)

  /** Capacities of the queues. */
  datatype Depths = Depths(addr: nat, data: nat, req: nat, resp: nat)

  /** The registers of the write half: whether the next address is the second of its pair, which
      queue the next data goes to, and the write responses owed. */
  datatype WriteRegs = WriteRegs(skip: bool, addrQ: seq<Half>, dataSel: bool, lowQ: seq<Half>, highQ: seq<Half>, respCnt: nat)

  /** The registers of the read half: which queue the next address goes to, whether the second
      address of a pair is to be dropped, and the read beats owed. */
  datatype ReadRegs = ReadRegs(reqSel: bool, firstQ: seq<Half>, secondQ: seq<Half>, submitSel: bool, credit: nat)

  /** The answers, and whether the low half of the oldest has been delivered. */
  datatype AnswerRegs = AnswerRegs(respQ: seq<bv64>, half: bool)

  datatype Bridge = Bridge(wr: WriteRegs, rd: ReadRegs, an: AnswerRegs)

  const RESET := Bridge(WriteRegs(false, [], false, [], [], 0), ReadRegs(false, [], [], false, 0), AnswerRegs([], false))

  /** What the shell and the register side drive in one cycle. */
  datatype In = In(aw: Option<Half>, w: Option<Half>, bReady: bool, ar: Option<Half>, rReady: bool,
                   grant: bool, resp: Option<bv64>)

  // Handshakes: what each channel transfers in a cycle.

  predicate AwReady(d: Depths, s: Bridge) { |s.wr.addrQ| < d.addr }
  predicate WReady(d: Depths, s: Bridge) { |s.wr.lowQ| < d.data && |s.wr.highQ| < d.data }
  predicate ArReady(d: Depths, s: Bridge) { |s.rd.firstQ| < d.req && |s.rd.secondQ| < d.req }
  predicate BValid(s: Bridge) { s.wr.respCnt != 0 }

  function RData(s: Bridge): Option<Half> {
    if s.an.respQ == [] || s.rd.credit == 0 then None
    else Some(if s.an.half then HighHalf(s.an.respQ[0]) else LowHalf(s.an.respQ[0]))
  }

  function AwTaken(d: Depths, s: Bridge, i: In): seq<Half> { if AwReady(d, s) then Opt(i.aw) else [] }
  function WTaken(d: Depths, s: Bridge, i: In): seq<Half> { if WReady(d, s) then Opt(i.w) else [] }
  function ArTaken(d: Depths, s: Bridge, i: In): seq<Half> { if ArReady(d, s) then Opt(i.ar) else [] }
  predicate BSent(s: Bridge, i: In) { BValid(s) && i.bReady }
  function Beat(s: Bridge, i: In): seq<Half> { if i.rReady then Opt(RData(s)) else [] }

  function WriteReq(s: Bridge): Option<SrReq> {
    if s.wr.addrQ == [] || s.wr.lowQ == [] || s.wr.highQ == [] then None
    else Some(Write(s.wr.addrQ[0], Combine(s.wr.lowQ[0], s.wr.highQ[0])))
  }

  function ReadReq(s: Bridge): Option<SrReq> {
    if s.rd.firstQ != [] && !s.rd.submitSel then Some(Read(s.rd.firstQ[0])) else None
  }

  /** Writes go first. */
  function Offered(s: Bridge): Option<SrReq> {
    if WriteReq(s).Some? then WriteReq(s) else ReadReq(s)
  }

  function Submitted(s: Bridge, i: In): seq<SrReq> {
    if i.grant then Opt(Offered(s)) else []
  }

  function RespTaken(d: Depths, s: Bridge, i: In): seq<bv64> {
    if |s.an.respQ| < d.resp then Opt(i.resp) else []
  }

  // One clock edge.

  function When<T>(c: bool, x: seq<T>): Option<T>
    requires |x| <= 1
  {
    if c && x != [] then Some(x[0]) else None
  }

  function Toggle<T>(b: bool, x: seq<T>): bool { if x != [] then !b else b }

  function NextWrite(d: Depths, r: WriteRegs, aw: seq<Half>, w: seq<Half>, responded: bool, wrote: bool): WriteRegs
    requires |aw| <= 1 && |w| <= 1
  {
    WriteRegs(
      Toggle(r.skip, aw), Fifo.Next(r.addrQ, d.addr, When(!r.skip, aw), wrote),
      Toggle(r.dataSel, w), Fifo.Next(r.lowQ, d.data, When(!r.dataSel, w), wrote),
      Fifo.Next(r.highQ, d.data, When(r.dataSel, w), wrote),
      Count(r.respCnt, w != [], responded))
  }

  function NextRead(d: Depths, r: ReadRegs, ar: seq<Half>, beat: bool, read: bool): ReadRegs
    requires |ar| <= 1
  {
    ReadRegs(
      Toggle(r.reqSel, ar), Fifo.Next(r.firstQ, d.req, When(!r.reqSel, ar), read),
      Fifo.Next(r.secondQ, d.req, When(r.reqSel, ar), r.submitSel),
      if read then true else if r.submitSel && r.secondQ != [] then false else r.submitSel,
      Count(r.credit, ar != [], beat))
  }

  function NextAnswers(d: Depths, r: AnswerRegs, resp: seq<bv64>, beat: seq<Half>): AnswerRegs
    requires |resp| <= 1
  {
    AnswerRegs(Fifo.Next(r.respQ, d.resp, When(true, resp), r.half && beat != []), Toggle(r.half, beat))
  }

  predicate Wrote(s: Bridge, i: In) { Submitted(s, i) != [] && Submitted(s, i)[0].Write? }
  predicate DidRead(s: Bridge, i: In) { Submitted(s, i) != [] && Submitted(s, i)[0].Read? }

  function Next(d: Depths, s: Bridge, i: In): Bridge {
    Bridge(
      NextWrite(d, s.wr, AwTaken(d, s, i), WTaken(d, s, i), BSent(s, i), Wrote(s, i)),
      NextRead(d, s.rd, ArTaken(d, s, i), Beat(s, i) != [], DidRead(s, i)),
      NextAnswers(d, s.an, RespTaken(d, s, i), Beat(s, i)))
  }

  // The streams so far, and how the registers account for them.

  datatype Hist = Hist(
    aws: seq<Half>, ws: seq<Half>, bs: nat, ars: seq<Half>, beats: seq<Half>,
    sent: seq<SrReq>, resps: seq<bv64>, due: seq<nat>)

  const START := Hist([], [], 0, [], [], [], [], [])

  function Evens<T>(s: seq<T>): (r: seq<T>)
    ensures |r| == (|s| + 1) / 2
  {
    if s == [] then []
    else if |s| % 2 == 1 then Evens(s[..|s| - 1]) + [s[|s| - 1]]
    else Evens(s[..|s| - 1])
  }

  function Odds<T>(s: seq<T>): (r: seq<T>)
    ensures |r| == |s| / 2
  {
    if s == [] then []
    else if |s| % 2 == 0 then Odds(s[..|s| - 1]) + [s[|s| - 1]]
    else Odds(s[..|s| - 1])
  }

  lemma {:induction false} EvensAt<T>(s: seq<T>, k: nat)
    requires k < (|s| + 1) / 2
    ensures Evens(s)[k] == s[2 * k]
  {
    if 2 * k < |s| - 1 {
      EvensAt(s[..|s| - 1], k);
    }
  }

  lemma {:induction false} OddsAt<T>(s: seq<T>, k: nat)
    requires k < |s| / 2
    ensures Odds(s)[k] == s[2 * k + 1]
  {
    if 2 * k + 1 < |s| - 1 {
      OddsAt(s[..|s| - 1], k);
    }
  }

  predicate IsWrite(r: SrReq) { r.Write? }
  predicate IsRead(r: SrReq) { r.Read? }

  function Writes(sent: seq<SrReq>): seq<SrReq> { Filter(sent, IsWrite) }
  function Reads(sent: seq<SrReq>): seq<SrReq> { Filter(sent, IsRead) }

  /** How many writes have been accepted whole: an address and both halves of the data. */
  function Whole(aws: seq<Half>, ws: seq<Half>): nat {
    var a, w := (|aws| + 1) / 2, |ws| / 2;
    if a < w then a else w
  }

  /** For each read sent, how many writes were sent before it. */
  function Ahead(sent: seq<SrReq>): (r: seq<nat>) {
    if sent == [] then []
    else
      var before, last := sent[..|sent| - 1], sent[|sent| - 1];
      Ahead(before) + (if last.Read? then [|Writes(before)|] else [])
  }

  /** Every other read address starts a read; `due` notes the writes accepted before it. */
  function Record(d: Depths, s: Bridge, i: In, h: Hist): Hist {
    Hist(h.aws + AwTaken(d, s, i), h.ws + WTaken(d, s, i), h.bs + (if BSent(s, i) then 1 else 0),
         h.ars + ArTaken(d, s, i), h.beats + Beat(s, i), h.sent + Submitted(s, i), h.resps + RespTaken(d, s, i),
         h.due + (if ArTaken(d, s, i) != [] && |h.ars| % 2 == 0 then [Whole(h.aws, h.ws)] else []))
  }

  ghost predicate WriteSide(s: Bridge, h: Hist) {
    var n := |Writes(h.sent)|;
    && (s.wr.skip <==> |h.aws| % 2 == 1) && (s.wr.dataSel <==> |h.ws| % 2 == 1)
    && n <= |Evens(h.aws)| && n <= |Odds(h.ws)|
    && s.wr.addrQ == Evens(h.aws)[n..] && s.wr.lowQ == Evens(h.ws)[n..] && s.wr.highQ == Odds(h.ws)[n..]
    && WritesPaired(h)
  }

  /** The k-th write sent is the k-th address kept with the k-th two halves. */
  ghost predicate WritesPaired(h: Hist) {
    && |Writes(h.sent)| <= |Evens(h.aws)| && |Writes(h.sent)| <= |Odds(h.ws)|
    && forall k :: 0 <= k < |Writes(h.sent)| ==> Writes(h.sent)[k] == Write(Evens(h.aws)[k], Combine(Evens(h.ws)[k], Odds(h.ws)[k]))
  }

  ghost predicate ReadSide(s: Bridge, h: Hist) {
    var r := |Reads(h.sent)|;
    var dropped := if s.rd.submitSel then r - 1 else r;
    && (s.rd.reqSel <==> |h.ars| % 2 == 1)
    && 0 <= dropped <= |Odds(h.ars)|
    && r <= |Evens(h.ars)| && s.rd.firstQ == Evens(h.ars)[r..] && s.rd.secondQ == Odds(h.ars)[dropped..]
    && ReadsPaired(h)
  }

  ghost predicate ReadsPaired(h: Hist) {
    && |Reads(h.sent)| <= |Evens(h.ars)|
    && forall k :: 0 <= k < |Reads(h.sent)| ==> Reads(h.sent)[k] == Read(Evens(h.ars)[k])
  }

  /** The two halves of the answers, low half first. */
  function BeatOf(resps: seq<bv64>, k: nat): Half
    requires k / 2 < |resps|
  {
    if k % 2 == 0 then LowHalf(resps[k / 2]) else HighHalf(resps[k / 2])
  }

  ghost predicate BeatSide(s: Bridge, h: Hist) {
    && |h.beats| <= 2 * |h.resps|
    && (s.an.half <==> |h.beats| % 2 == 1)
    && s.an.respQ == h.resps[|h.beats| / 2..]
    && forall k :: 0 <= k < |h.beats| ==> h.beats[k] == BeatOf(h.resps, k)
  }

  ghost predicate Credits(s: Bridge, h: Hist) {
    && h.bs <= |h.ws| && s.wr.respCnt == (|h.ws| - h.bs) % WIDTH32
    && |h.beats| <= |h.ars| && s.rd.credit == (|h.ars| - |h.beats|) % WIDTH32
  }

  /** No read is sent before a write accepted whole before it. */
  ghost predicate Ordered(h: Hist) {
    && |h.due| == |Evens(h.ars)|
    && |Ahead(h.sent)| == |Reads(h.sent)| <= |h.due|
    && (forall k :: 0 <= k < |h.due| ==> h.due[k] <= Whole(h.aws, h.ws))
    && (forall k :: 0 <= k < |Ahead(h.sent)| ==> h.due[k] <= Ahead(h.sent)[k])
  }

  ghost predicate Inv(s: Bridge, h: Hist) {
    WriteSide(s, h) && ReadSide(s, h) && BeatSide(s, h) && Credits(s, h) && Ordered(h)
  }

  // Each part is kept by every clock edge.

  lemma {:induction false} EvensPushOne<T>(s: seq<T>, x: T)
    ensures Evens(s + [x]) == if |s| % 2 == 0 then Evens(s) + [x] else Evens(s)
    ensures Odds(s + [x]) == if |s| % 2 == 1 then Odds(s) + [x] else Odds(s)
  {
  }

  lemma EvensPush<T>(s: seq<T>, x: seq<T>)
    requires |x| <= 1
    ensures Evens(s + x) == Evens(s) + (if |s| % 2 == 0 then x else [])
    ensures Odds(s + x) == Odds(s) + (if |s| % 2 == 1 then x else [])
  {
    hide Evens, Odds;
    if x == [] {
      assert s + x == s;
    } else {
      assert x == [x[0]];
      EvensPushOne(s, x[0]);
    }
  }

  lemma SentPush(sent: seq<SrReq>, x: seq<SrReq>)
    requires |x| <= 1
    ensures Writes(sent + x) == Writes(sent) + (if x != [] && x[0].Write? then x else [])
    ensures Reads(sent + x) == Reads(sent) + (if x != [] && x[0].Read? then x else [])
    ensures Ahead(sent + x) == Ahead(sent) + (if x != [] && x[0].Read? then [|Writes(sent)|] else [])
  {
    if x == [] {
      assert sent + x == sent;
    } else {
      FilterPush(sent, x[0], IsWrite);
      FilterPush(sent, x[0], IsRead);
      assert x == [x[0]];
      assert (sent + x)[..|sent + x| - 1] == sent;
    }
  }

  function Shift<T>(n: nat, q: seq<T>, rd: bool): nat { if rd && q != [] then n + 1 else n }

  /** A queue that keeps every other element of a stream, from the first one on. */
  lemma EvensQueue<T>(stream: seq<T>, sel: bool, n: nat, q: seq<T>, depth: nat, x: seq<T>, rd: bool)
    requires |x| <= 1 && (x != [] ==> |q| < depth)
    requires (sel <==> |stream| % 2 == 1) && n <= |Evens(stream)| && q == Evens(stream)[n..]
    ensures Shift(n, q, rd) <= |Evens(stream + x)|
    ensures Fifo.Next(q, depth, When(!sel, x), rd) == Evens(stream + x)[Shift(n, q, rd)..]
  {
    hide Evens;
    EvensPush(stream, x);
    Fifo.Slide(Evens(stream), n, q, depth, When(!sel, x), rd);
  }

  /** And one that keeps those in between. */
  lemma OddsQueue<T>(stream: seq<T>, sel: bool, n: nat, q: seq<T>, depth: nat, x: seq<T>, rd: bool)
    requires |x| <= 1 && (x != [] ==> |q| < depth)
    requires (sel <==> |stream| % 2 == 1) && n <= |Odds(stream)| && q == Odds(stream)[n..]
    ensures Shift(n, q, rd) <= |Odds(stream + x)|
    ensures Fifo.Next(q, depth, When(sel, x), rd) == Odds(stream + x)[Shift(n, q, rd)..]
  {
    hide Odds;
    EvensPush(stream, x);
    Fifo.Slide(Odds(stream), n, q, depth, When(sel, x), rd);
  }

  lemma WritesPairedStep(d: Depths, s: Bridge, i: In, h: Hist)
    requires WriteSide(s, h)
    ensures WritesPaired(Record(d, s, i, h))
  {
    hide Combine, Evens, Odds, Filter, Ahead, Whole;
    var aw, w, sent := AwTaken(d, s, i), WTaken(d, s, i), Submitted(s, i);
    EvensPush(h.aws, aw);
    EvensPush(h.ws, w);
    SentPush(h.sent, sent);
  }

  lemma AddrStep(d: Depths, s: Bridge, i: In, h: Hist, n: nat)
    requires (s.wr.skip <==> |h.aws| % 2 == 1) && n <= |Evens(h.aws)| && s.wr.addrQ == Evens(h.aws)[n..]
    ensures Shift(n, s.wr.addrQ, Wrote(s, i)) <= |Evens(Record(d, s, i, h).aws)|
    ensures Next(d, s, i).wr.addrQ == Evens(Record(d, s, i, h).aws)[Shift(n, s.wr.addrQ, Wrote(s, i))..]
    ensures Next(d, s, i).wr.skip <==> |Record(d, s, i, h).aws| % 2 == 1
  {
    hide Evens, Fifo.Next, When;
    EvensQueue(h.aws, s.wr.skip, n, s.wr.addrQ, d.addr, AwTaken(d, s, i), Wrote(s, i));
  }

  lemma DataStep(d: Depths, s: Bridge, i: In, h: Hist, n: nat)
    requires (s.wr.dataSel <==> |h.ws| % 2 == 1) && n <= |Odds(h.ws)|
    requires s.wr.lowQ == Evens(h.ws)[n..] && s.wr.highQ == Odds(h.ws)[n..]
    ensures Shift(n, s.wr.lowQ, Wrote(s, i)) <= |Evens(Record(d, s, i, h).ws)|
    ensures Shift(n, s.wr.highQ, Wrote(s, i)) <= |Odds(Record(d, s, i, h).ws)|
    ensures Next(d, s, i).wr.lowQ == Evens(Record(d, s, i, h).ws)[Shift(n, s.wr.lowQ, Wrote(s, i))..]
    ensures Next(d, s, i).wr.highQ == Odds(Record(d, s, i, h).ws)[Shift(n, s.wr.highQ, Wrote(s, i))..]
    ensures Next(d, s, i).wr.dataSel <==> |Record(d, s, i, h).ws| % 2 == 1
  {
    hide Evens, Odds, Fifo.Next, When;
    EvensQueue(h.ws, s.wr.dataSel, n, s.wr.lowQ, d.data, WTaken(d, s, i), Wrote(s, i));
    OddsQueue(h.ws, s.wr.dataSel, n, s.wr.highQ, d.data, WTaken(d, s, i), Wrote(s, i));
  }

  lemma WriteSideStep(d: Depths, s: Bridge, i: In, h: Hist)
    requires WriteSide(s, h)
    ensures WriteSide(Next(d, s, i), Record(d, s, i, h))
  {
    hide Combine, Evens, Odds, Filter, Next, Record, WritesPaired;
    AddrStep(d, s, i, h, |Writes(h.sent)|);
    DataStep(d, s, i, h, |Writes(h.sent)|);
    WritesPairedStep(d, s, i, h);
    RecordWrites(d, s, i, h);
  }

  lemma RecordWrites(d: Depths, s: Bridge, i: In, h: Hist)
    ensures var h' := Record(d, s, i, h);
            h'.aws == h.aws + AwTaken(d, s, i) && h'.ws == h.ws + WTaken(d, s, i) && h'.ars == h.ars + ArTaken(d, s, i)
            && |Writes(h'.sent)| == |Writes(h.sent)| + (if Submitted(s, i) != [] && Submitted(s, i)[0].Write? then 1 else 0)
            && |Reads(h'.sent)| == |Reads(h.sent)| + (if Submitted(s, i) != [] && Submitted(s, i)[0].Read? then 1 else 0)
  {
    SentPush(h.sent, Submitted(s, i));
  }

  lemma ReadsPairedStep(d: Depths, s: Bridge, i: In, h: Hist)
    requires ReadSide(s, h)
    ensures ReadsPaired(Record(d, s, i, h))
  {
    hide Combine, Evens, Odds, Filter, Ahead, Whole;
    EvensPush(h.ars, ArTaken(d, s, i));
    SentPush(h.sent, Submitted(s, i));
  }

  lemma RequestStep(d: Depths, s: Bridge, i: In, h: Hist, r: nat, dropped: nat)
    requires (s.rd.reqSel <==> |h.ars| % 2 == 1) && r <= |Evens(h.ars)| && dropped <= |Odds(h.ars)|
    requires s.rd.firstQ == Evens(h.ars)[r..] && s.rd.secondQ == Odds(h.ars)[dropped..]
    ensures Shift(r, s.rd.firstQ, DidRead(s, i)) <= |Evens(Record(d, s, i, h).ars)|
    ensures Shift(dropped, s.rd.secondQ, s.rd.submitSel) <= |Odds(Record(d, s, i, h).ars)|
    ensures Next(d, s, i).rd.firstQ == Evens(Record(d, s, i, h).ars)[Shift(r, s.rd.firstQ, DidRead(s, i))..]
    ensures Next(d, s, i).rd.secondQ == Odds(Record(d, s, i, h).ars)[Shift(dropped, s.rd.secondQ, s.rd.submitSel)..]
    ensures Next(d, s, i).rd.reqSel <==> |Record(d, s, i, h).ars| % 2 == 1
    ensures Next(d, s, i).rd.submitSel
       <==> DidRead(s, i) || (s.rd.submitSel && s.rd.secondQ == [])
  {
    hide Evens, Odds, Fifo.Next, When;
    EvensQueue(h.ars, s.rd.reqSel, r, s.rd.firstQ, d.req, ArTaken(d, s, i), DidRead(s, i));
    OddsQueue(h.ars, s.rd.reqSel, dropped, s.rd.secondQ, d.req, ArTaken(d, s, i), s.rd.submitSel);
  }

  lemma ReadSideStep(d: Depths, s: Bridge, i: In, h: Hist)
    requires ReadSide(s, h)
    ensures ReadSide(Next(d, s, i), Record(d, s, i, h))
  {
    hide Combine, Evens, Odds, Filter, Next, Record, ReadsPaired;
    var r := |Reads(h.sent)|;
    RequestStep(d, s, i, h, r, if s.rd.submitSel then r - 1 else r);
    ReadsPairedStep(d, s, i, h);
    RecordWrites(d, s, i, h);
  }

  lemma BeatIsNext(d: Depths, s: Bridge, i: In, h: Hist, k: nat)
    requires BeatSide(s, h) && k < |h.beats + Beat(s, i)|
    ensures |h.beats + Beat(s, i)| <= 2 * |h.resps|
    ensures (h.beats + Beat(s, i))[k] == BeatOf(h.resps + RespTaken(d, s, i), k)
  {
  }

  lemma HalfStep(d: Depths, s: Bridge, i: In, h: Hist)
    requires BeatSide(s, h)
    ensures var s', h' := Next(d, s, i), Record(d, s, i, h);
            && |h'.beats| <= 2 * |h'.resps| && (s'.an.half <==> |h'.beats| % 2 == 1)
            && |h'.beats| / 2 == if s.an.half && Beat(s, i) != [] then |h.beats| / 2 + 1 else |h.beats| / 2
  {
    hide LowHalf, HighHalf, Fifo.Next, BeatOf, NextWrite, NextRead, AwTaken, WTaken, ArTaken, Submitted, Whole;
    if h.beats + Beat(s, i) != [] { BeatIsNext(d, s, i, h, 0); }
  }

  lemma AnswerQueueStep(d: Depths, s: Bridge, i: In, h: Hist)
    requires BeatSide(s, h)
    ensures var s', h' := Next(d, s, i), Record(d, s, i, h);
            |h'.beats| / 2 <= |h'.resps| && s'.an.respQ == h'.resps[|h'.beats| / 2..]
  {
    HalfStep(d, s, i, h);
    hide LowHalf, HighHalf, Fifo.Next, BeatOf, NextWrite, NextRead, AwTaken, WTaken, ArTaken, Submitted, Whole, Beat, RData;
    Fifo.Slide(h.resps, |h.beats| / 2, s.an.respQ, d.resp, When(true, RespTaken(d, s, i)), s.an.half && Beat(s, i) != []);
  }

  lemma BeatSideStep(d: Depths, s: Bridge, i: In, h: Hist)
    requires BeatSide(s, h)
    ensures BeatSide(Next(d, s, i), Record(d, s, i, h))
  {
    HalfStep(d, s, i, h);
    AnswerQueueStep(d, s, i, h);
    hide LowHalf, HighHalf, Fifo.Next, BeatOf, Next, AwTaken, WTaken, ArTaken, Submitted, Beat, RespTaken, Whole;
    forall k | 0 <= k < |h.beats + Beat(s, i)| ensures (h.beats + Beat(s, i))[k] == BeatOf(h.resps + RespTaken(d, s, i), k) {
      BeatIsNext(d, s, i, h, k);
    }
  }

  lemma CreditsStep(d: Depths, s: Bridge, i: In, h: Hist)
    requires Credits(s, h)
    ensures Credits(Next(d, s, i), Record(d, s, i, h))
  {
    hide Count, Fifo.Next;
    var s', h' := Next(d, s, i), Record(d, s, i, h);
    assert h'.bs <= |h'.ws| && s'.wr.respCnt == (|h'.ws| - h'.bs) % WIDTH32 by {
      CountIs(s.wr.respCnt, |h.ws|, h.bs, WTaken(d, s, i) != [], BSent(s, i));
    }
    assert |h'.beats| <= |h'.ars| && s'.rd.credit == (|h'.ars| - |h'.beats|) % WIDTH32 by {
      CountIs(s.rd.credit, |h.ars|, |h.beats|, ArTaken(d, s, i) != [], Beat(s, i) != []);
    }
  }

  /** A read is offered only once every whole write has been sent. */
  lemma ReadWaits(s: Bridge, h: Hist)
    requires WriteSide(s, h) && WriteReq(s).None?
    ensures |Writes(h.sent)| >= Whole(h.aws, h.ws)
  {
  }

  lemma OrderedStep(d: Depths, s: Bridge, i: In, h: Hist)
    requires WriteSide(s, h) && ReadSide(s, h) && Ordered(h)
    ensures Ordered(Record(d, s, i, h))
  {
    hide Combine, Evens, Odds, Filter, Ahead, WriteSide;
    EvensPush(h.ars, ArTaken(d, s, i));
    SentPush(h.sent, Submitted(s, i));
    if Submitted(s, i) != [] && Submitted(s, i)[0].Read? {
      ReadWaits(s, h);
    }
  }

  lemma InvStep(d: Depths, s: Bridge, i: In, h: Hist)
    requires Inv(s, h)
    ensures Inv(Next(d, s, i), Record(d, s, i, h))
  {
    WriteSideStep(d, s, i, h);
    ReadSideStep(d, s, i, h);
    BeatSideStep(d, s, i, h);
    CreditsStep(d, s, i, h);
    OrderedStep(d, s, i, h);
  }

  // Runs.

  function Run(d: Depths, inputs: seq<In>): (r: (Bridge, Hist)) {
    if inputs == [] then (RESET, START)
    else
      var (s, h) := Run(d, inputs[..|inputs| - 1]);
      (Next(d, s, inputs[|inputs| - 1]), Record(d, s, inputs[|inputs| - 1], h))
  }

  lemma {:induction false} RunInv(d: Depths, inputs: seq<In>)
    ensures Inv(Run(d, inputs).0, Run(d, inputs).1)
  {
    if inputs != [] {
      var (s, h) := Run(d, inputs[..|inputs| - 1]);
      RunInv(d, inputs[..|inputs| - 1]);
      InvStep(d, s, inputs[|inputs| - 1], h);
    }
  }

  // What every run promises.

  function Seen(d: Depths, inputs: seq<In>): Hist { Run(d, inputs).1 }

  /** The k-th register write is the even address with the two halves in order; the k-th register
      read is the even read address. */
  lemma Pairing(d: Depths, inputs: seq<In>, k: nat)
    ensures var h := Seen(d, inputs);
            && (k < |Writes(h.sent)| ==>
                  2 * k < |h.aws| && 2 * k + 1 < |h.ws|
                  && Writes(h.sent)[k] == Write(h.aws[2 * k], Combine(h.ws[2 * k], h.ws[2 * k + 1])))
            && (k < |Reads(h.sent)| ==> 2 * k < |h.ars| && Reads(h.sent)[k] == Read(h.ars[2 * k]))
  {
    hide Combine, Run;
    RunInv(d, inputs);
    var h := Seen(d, inputs);
    if k < |Writes(h.sent)| {
      EvensAt(h.aws, k);
      EvensAt(h.ws, k);
      OddsAt(h.ws, k);
    }
    if k < |Reads(h.sent)| {
      EvensAt(h.ars, k);
    }
  }

  /** Nothing accepted is lost: what was not sent yet is still queued. */
  lemma NothingDropped(d: Depths, inputs: seq<In>)
    ensures var (s, h) := Run(d, inputs);
            && |Writes(h.sent)| + |s.wr.addrQ| == |Evens(h.aws)|
            && |Writes(h.sent)| + |s.wr.highQ| == |h.ws| / 2
            && |Reads(h.sent)| + |s.rd.firstQ| == |Evens(h.ars)|
            && (WriteReq(s).None? ==> |Writes(h.sent)| == Whole(h.aws, h.ws))
  {
    hide Combine, Run;
    RunInv(d, inputs);
  }

  /** Read beats are the halves of the answers, low half first, and never outnumber the read
      addresses; write responses never outnumber the data beats. */
  lemma BeatsAreHalves(d: Depths, inputs: seq<In>)
    ensures var h := Seen(d, inputs);
            && |h.beats| <= |h.ars| && |h.beats| <= 2 * |h.resps| && h.bs <= |h.ws|
            && forall k :: 0 <= k < |h.beats| ==> h.beats[k] == BeatOf(h.resps, k)
  {
    hide Run;
    RunInv(d, inputs);
  }

  /** Nothing is held back: each channel is ready exactly while its queues have room, a write response
      and a read beat are given exactly while one is owed, and an answer is taken while there is room. */
  lemma WhenReady(d: Depths, inputs: seq<In>, i: In)
    ensures var (s, h) := Run(d, inputs);
            && (AwReady(d, s) <==> (|h.aws| + 1) / 2 - |Writes(h.sent)| < d.addr)
            && (WReady(d, s) <==> (|h.ws| + 1) / 2 - |Writes(h.sent)| < d.data && |h.ws| / 2 - |Writes(h.sent)| < d.data)
            && (ArReady(d, s) <==> (|h.ars| + 1) / 2 - |Reads(h.sent)| < d.req
                                   && |h.ars| / 2 - |Reads(h.sent)| + (if s.rd.submitSel then 1 else 0) < d.req)
            && (BSent(s, i) <==> i.bReady && (|h.ws| - h.bs) % 0x1_0000_0000 != 0)
            && (Beat(s, i) != [] <==> i.rReady && |h.beats| / 2 < |h.resps| && (|h.ars| - |h.beats|) % 0x1_0000_0000 != 0)
            && RespTaken(d, s, i) == (if |h.resps| - |h.beats| / 2 < d.resp then Opt(i.resp) else [])
            && (Offered(s).Some? && Offered(s).value.Write?
                <==> |Writes(h.sent)| < (|h.aws| + 1) / 2 && |Writes(h.sent)| < |h.ws| / 2)
            && (Offered(s).Some? && Offered(s).value.Read?
                <==> !(|Writes(h.sent)| < (|h.aws| + 1) / 2 && |Writes(h.sent)| < |h.ws| / 2)
                     && !s.rd.submitSel && |Reads(h.sent)| < (|h.ars| + 1) / 2)
  {
    hide Combine, Run, Evens, Odds, Filter;
    RunInv(d, inputs);
  }

  lemma DueCount(d: Depths, inputs: seq<In>)
    ensures |Seen(d, inputs).due| == (|Seen(d, inputs).ars| + 1) / 2
  {
    hide Run;
    RunInv(d, inputs);
  }

  lemma {:induction false} DueAfter(d: Depths, inputs: seq<In>, m: nat, k: nat)
    requires m <= |inputs| && |Seen(d, inputs[..m]).ars| <= 2 * k && k < |Seen(d, inputs).due|
    ensures Whole(Seen(d, inputs[..m]).aws, Seen(d, inputs[..m]).ws) <= Seen(d, inputs).due[k]
  {
    hide AwTaken, WTaken, Beat, Submitted, RespTaken, Next, Whole;
    if m == |inputs| {
      assert inputs[..m] == inputs;
      DueCount(d, inputs);
    } else {
      var before := inputs[..|inputs| - 1];
      assert before[..m] == inputs[..m];
      if k < |Seen(d, before).due| {
        DueAfter(d, before, m, k);
      } else {
        WholeGrows(d, before, m);
      }
    }
  }

  lemma {:induction false} WholeGrows(d: Depths, inputs: seq<In>, m: nat)
    requires m <= |inputs|
    ensures Whole(Seen(d, inputs[..m]).aws, Seen(d, inputs[..m]).ws) <= Whole(Seen(d, inputs).aws, Seen(d, inputs).ws)
  {
    if m == |inputs| {
      assert inputs[..m] == inputs;
    } else {
      assert inputs[..|inputs| - 1][..m] == inputs[..m];
      WholeGrows(d, inputs[..|inputs| - 1], m);
    }
  }

  /** A read whose address comes after a write was accepted whole is sent after that write. */
  lemma ReadsFollowWrites(d: Depths, inputs: seq<In>, m: nat, k: nat)
    requires m <= |inputs| && |Seen(d, inputs[..m]).ars| <= 2 * k && k < |Reads(Seen(d, inputs).sent)|
    ensures k < |Ahead(Seen(d, inputs).sent)|
    ensures Whole(Seen(d, inputs[..m]).aws, Seen(d, inputs[..m]).ws) <= Ahead(Seen(d, inputs).sent)[k]
  {
    hide Run;
    RunInv(d, inputs);
    DueAfter(d, inputs, m, k);
  }
}
