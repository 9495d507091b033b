/** The two paths from the memory interface to an AXI4 memory controller: a write is split into
    address and data held together by credits, a read waits for its answer by credit. */
module Axi4Paths {
  import opened Streams
  import opened Arithmetic
  import Fifo

  /** A request of the memory interface. */
  datatype Request = Request(isWrite: bool, addr: int, data: int)

  // Writes.

  datatype WrRegs = WrRegs(dataQ: seq<int>, addrQ: seq<int>, dataCredit: nat, respCredit: nat)

  datatype WrIn = WrIn(ddrReady: bool, req: Option<Request>, awReady: bool, wReady: bool, bValid: bool)

  const WR_RESET := WrRegs([], [], 0, 0)

  /** Capacities of the data and address queues. */
  datatype WrDepths = WrDepths(data: nat, addr: nat)

  function WrGranted(d: WrDepths, s: WrRegs, i: WrIn): Option<Request> {
    if i.ddrReady && |s.dataQ| < d.data && |s.addrQ| < d.addr && i.req.Some? && i.req.value.isWrite then i.req else None
  }

  /** The address channel: what it offers, and what it transfers. */
  function AwOffer(s: WrRegs): Option<int> { if s.addrQ != [] then Some(s.addrQ[0]) else None }
  function AwSent(s: WrRegs, i: WrIn): Option<int> { if i.awReady then AwOffer(s) else None }

  /** Data is offered only while an address accepted earlier waits for it. */
  function WOffer(s: WrRegs): Option<int> { if s.dataQ != [] && s.dataCredit != 0 then Some(s.dataQ[0]) else None }
  function WSent(s: WrRegs, i: WrIn): Option<int> { if i.wReady then WOffer(s) else None }

  predicate BTaken(s: WrRegs, i: WrIn) { s.respCredit != 0 && i.bValid }

  function AddrOf(r: Request): int { r.addr }
  function DataOf(r: Request): int { r.data }

  function Field(r: Option<Request>, f: Request -> int): Option<int> {
    if r.Some? then Some(f(r.value)) else None
  }

  function WrNext(d: WrDepths, s: WrRegs, i: WrIn): WrRegs {
    var granted := WrGranted(d, s, i);
    WrRegs(Fifo.Next(s.dataQ, d.data, Field(granted, DataOf), WSent(s, i).Some?),
           Fifo.Next(s.addrQ, d.addr, Field(granted, AddrOf), AwSent(s, i).Some?),
           Count(s.dataCredit, AwSent(s, i).Some?, WSent(s, i).Some?),
           Count(s.respCredit, WSent(s, i).Some?, BTaken(s, i)))
  }

  /** Requests granted, and what went over each channel. */
  datatype WrHist = WrHist(granted: seq<Request>, aws: seq<int>, ws: seq<int>, bs: nat)

  function WrRecord(d: WrDepths, s: WrRegs, i: WrIn, h: WrHist): WrHist {
    WrHist(h.granted + Opt(WrGranted(d, s, i)), h.aws + Opt(AwSent(s, i)), h.ws + Opt(WSent(s, i)),
           h.bs + (if BTaken(s, i) then 1 else 0))
  }

  function WrRun(d: WrDepths, inputs: seq<WrIn>): (r: (WrRegs, WrHist)) {
    if inputs == [] then (WR_RESET, WrHist([], [], [], 0))
    else
      var n := |inputs| - 1;
      var (s, h) := WrRun(d, inputs[..n]);
      (WrNext(d, s, inputs[n]), WrRecord(d, s, inputs[n], h))
  }

  /** Both channels carry the granted writes in order, the data behind the addresses; the credits
      say how far. */
  ghost predicate WrInv(d: WrDepths, s: WrRegs, h: WrHist) {
    && |s.dataQ| <= d.data < WIDTH32
    && Map(h.granted, AddrOf) == h.aws + s.addrQ
    && Map(h.granted, DataOf) == h.ws + s.dataQ
    && |h.ws| <= |h.aws|
    && s.dataCredit == |h.aws| - |h.ws| == |s.dataQ| - |s.addrQ|
    && h.bs <= |h.ws| && s.respCredit == (|h.ws| - h.bs) % WIDTH32
  }

  lemma QueueStep(granted: seq<Request>, sent: seq<int>, q: seq<int>, depth: nat, f: Request -> int,
                                     req: Option<Request>, rd: bool)
    requires Map(granted, f) == sent + q && (req.Some? ==> |q| < depth)
    ensures Map(granted + Opt(req), f) == (sent + Fifo.Given(q, rd)) + Fifo.Next(q, depth, Field(req, f), rd)
  {
    if req.Some? {
      assert Map(granted + [req.value], f) == Map(granted, f) + [f(req.value)];
    } else {
      assert granted + Opt(req) == granted;
    }
    Fifo.Flow(q, depth, Field(req, f), rd, Map(granted, f), sent);
  }

  /** The data credit neither under- nor overflows. */
  lemma DataCredit(d: WrDepths, s: WrRegs, i: WrIn, h: WrHist)
    requires WrInv(d, s, h)
    ensures WrNext(d, s, i).dataCredit == |WrRecord(d, s, i, h).aws| - |WrRecord(d, s, i, h).ws| >= 0
  {
  }

  lemma WrStep(d: WrDepths, s: WrRegs, i: WrIn, h: WrHist)
    requires WrInv(d, s, h)
    ensures WrInv(d, WrNext(d, s, i), WrRecord(d, s, i, h))
  {
    hide Fifo.Next, Map, Count;
    var granted := WrGranted(d, s, i);
    DataCredit(d, s, i, h);
    QueueStep(h.granted, h.aws, s.addrQ, d.addr, AddrOf, granted, AwSent(s, i).Some?);
    QueueStep(h.granted, h.ws, s.dataQ, d.data, DataOf, granted, WSent(s, i).Some?);
    QueueSize(s.dataQ, d.data, Field(granted, DataOf), WSent(s, i).Some?);
    QueueSize(s.addrQ, d.addr, Field(granted, AddrOf), AwSent(s, i).Some?);
    CountIs(s.respCredit, |h.ws|, h.bs, WSent(s, i).Some?, BTaken(s, i));
  }

  lemma QueueSize(q: seq<int>, depth: nat, wr: Option<int>, rd: bool)
    requires wr.Some? ==> |q| < depth
    ensures |Fifo.Next(q, depth, wr, rd)| == |q| + (if wr.Some? then 1 else 0) - (if rd && q != [] then 1 else 0)
  {
  }

  lemma {:induction false} WrRunInv(d: WrDepths, inputs: seq<WrIn>)
    requires d.data < WIDTH32
    ensures WrInv(d, WrRun(d, inputs).0, WrRun(d, inputs).1)
  {
    if inputs != [] {
      var n := |inputs| - 1;
      var (s, h) := WrRun(d, inputs[..n]);
      WrRunInv(d, inputs[..n]);
      WrStep(d, s, inputs[n], h);
    }
  }

  /** The k-th address and the k-th data beat are those of the k-th granted write, the data is sent
      only after its address, and the credit is exactly what the queues say. */
  lemma WritesStayTogether(d: WrDepths, inputs: seq<WrIn>, k: nat)
    requires d.data < WIDTH32
    ensures var (s, h) := WrRun(d, inputs);
            && (k < |h.ws| ==> k < |h.aws| && k < |h.granted| && h.aws[k] == h.granted[k].addr && h.ws[k] == h.granted[k].data)
            && s.dataCredit == |s.dataQ| - |s.addrQ| == |h.aws| - |h.ws|
            && h.bs <= |h.ws|
  {
    WrRunInv(d, inputs);
    var (s, h) := WrRun(d, inputs);
    if k < |h.ws| {
      MapAt(h.granted, AddrOf, k);
      MapAt(h.granted, DataOf, k);
      assert (h.aws + s.addrQ)[k] == h.aws[k] && (h.ws + s.dataQ)[k] == h.ws[k];
    }
  }

  /** Strictly after: the data sent by the end of a cycle is covered by addresses sent before it. */
  lemma DataFollowsAddress(d: WrDepths, inputs: seq<WrIn>, i: WrIn)
    requires d.data < WIDTH32
    ensures |WrRun(d, inputs + [i]).1.ws| <= |WrRun(d, inputs).1.aws|
  {
    WrRunInv(d, inputs);
    assert (inputs + [i])[..|inputs|] == inputs;
  }

  /** VALID and its payload stay until READY, on both channels (section A3.2.1 of ARM IHI 0022). */
  lemma WriteValidHolds(d: WrDepths, inputs: seq<WrIn>, i: WrIn)
    requires d.data < WIDTH32
    ensures var s := WrRun(d, inputs).0;
            && (AwOffer(s).Some? && !i.awReady ==> AwOffer(WrNext(d, s, i)) == AwOffer(s))
            && (WOffer(s).Some? && !i.wReady ==> WOffer(WrNext(d, s, i)) == WOffer(s))
  {
    WrRunInv(d, inputs);
  }

  /** Each channel offers exactly when it is behind: an address while one granted has not been sent,
      a data beat while fewer have been sent than addresses, the next in order each time. A write is
      granted when it fits, and a response is taken while one is owed. */
  lemma WhatIsOffered(d: WrDepths, inputs: seq<WrIn>, i: WrIn)
    requires d.data < WIDTH32
    ensures var (s, h) := WrRun(d, inputs);
            && (AwOffer(s).Some? <==> |h.aws| < |h.granted|)
            && (AwOffer(s).Some? ==> AwOffer(s).value == h.granted[|h.aws|].addr)
            && (WOffer(s).Some? <==> |h.ws| < |h.aws|)
            && (WOffer(s).Some? ==> |h.ws| < |h.granted| && WOffer(s).value == h.granted[|h.ws|].data)
            && (WrGranted(d, s, i) == i.req && i.req.Some?
                <==> i.ddrReady && i.req.Some? && i.req.value.isWrite && |h.granted| - |h.aws| < d.addr && |h.granted| - |h.ws| < d.data)
            && (BTaken(s, i) <==> i.bValid && (|h.ws| - h.bs) % 0x1_0000_0000 != 0)
  {
    WrRunInv(d, inputs);
    var (s, h) := WrRun(d, inputs);
    hide WrRun;
    if |h.aws| < |h.granted| {
      MapAt(h.granted, AddrOf, |h.aws|);
      assert (h.aws + s.addrQ)[|h.aws|] == s.addrQ[0];
    }
    if |h.ws| < |h.granted| {
      MapAt(h.granted, DataOf, |h.ws|);
      assert (h.ws + s.dataQ)[|h.ws|] == s.dataQ[0];
    }
  }

  predicate WrReady(more: seq<WrIn>) {
    forall k :: 0 <= k < |more| ==> more[k].awReady && more[k].wReady && more[k].req == None
  }

  lemma WrReadyStep(d: WrDepths, s: WrRegs, i: WrIn, h: WrHist)
    requires WrInv(d, s, h) && i.awReady && i.wReady && i.req == None
    ensures var h' := WrRecord(d, s, i, h);
            && h'.granted == h.granted
            && |h'.aws| == |h.aws| + (if |h.aws| < |h.granted| then 1 else 0)
            && |h'.ws| == |h.ws| + (if |h.ws| < |h.aws| then 1 else 0)
  {
    assert |Map(h.granted, AddrOf)| == |h.aws| + |s.addrQ| && |Map(h.granted, DataOf)| == |h.ws| + |s.dataQ|;
  }

  function Min(a: nat, b: nat): nat { if a < b then a else b }

  lemma WrCounts(d: WrDepths, inputs: seq<WrIn>)
    requires d.data < WIDTH32
    ensures var (s, h) := WrRun(d, inputs); WrInv(d, s, h) && |h.ws| <= |h.aws| <= |h.granted| == |h.ws| + |s.dataQ|
  {
    WrRunInv(d, inputs);
    var (s, h) := WrRun(d, inputs);
    hide WrRun;
    assert |Map(h.granted, AddrOf)| == |h.aws| + |s.addrQ| && |Map(h.granted, DataOf)| == |h.ws| + |s.dataQ|;
  }

  lemma {:induction false} WrDrains(d: WrDepths, inputs: seq<WrIn>, more: seq<WrIn>)
    requires d.data < WIDTH32 && WrReady(more)
    ensures var h, h' := WrRun(d, inputs).1, WrRun(d, inputs + more).1;
            && h'.granted == h.granted
            && |h'.aws| >= Min(|h.granted|, |h.aws| + |more|)
            && |h'.ws| >= Min(|h.granted|, |h.ws| + (if more == [] then 0 else |more| - 1))
  {
    hide WrInv, WrNext, WrRecord;
    WrCounts(d, inputs);
    if more == [] {
      assert inputs + more == inputs;
    } else {
      var n := |more| - 1;
      var before := inputs + more[..n];
      assert (inputs + more)[..|inputs + more| - 1] == before && (inputs + more)[|inputs + more| - 1] == more[n];
      WrDrains(d, inputs, more[..n]);
      WrCounts(d, before);
      WrReadyStep(d, WrRun(d, before).0, more[n], WrRun(d, before).1);
    }
  }

  lemma AllSent(d: WrDepths, s: WrRegs, h: WrHist)
    requires WrInv(d, s, h) && |h.aws| >= |h.granted| && |h.ws| >= |h.granted|
    ensures h.aws == Map(h.granted, AddrOf) && h.ws == Map(h.granted, DataOf)
  {
    assert |Map(h.granted, AddrOf)| == |h.aws| + |s.addrQ| && |Map(h.granted, DataOf)| == |h.ws| + |s.dataQ|;
  }

  /** Every granted write leaves: from any state, one cycle more than there is data waiting, with
      both channels ready and nothing new granted, sends all addresses and all data. */
  lemma EveryWriteLeaves(d: WrDepths, inputs: seq<WrIn>, more: seq<WrIn>)
    requires d.data < WIDTH32 && WrReady(more) && |more| > |WrRun(d, inputs).0.dataQ|
    ensures var h := WrRun(d, inputs).1; var h' := WrRun(d, inputs + more).1;
            h'.granted == h.granted && h'.aws == Map(h.granted, AddrOf) && h'.ws == Map(h.granted, DataOf)
  {
    hide WrInv, WrRun, WrReady;
    WrCounts(d, inputs);
    WrCounts(d, inputs + more);
    WrDrains(d, inputs, more);
    AllSent(d, WrRun(d, inputs + more).0, WrRun(d, inputs + more).1);
  }

  // Reads.

  datatype RdRegs = RdRegs(reqQ: seq<Request>, credit: nat, respQ: seq<int>)

  datatype RdIn = RdIn(ddrReady: bool, req: Option<Request>, arReady: bool, rValid: Option<int>, respGrant: bool)

  datatype RdDepths = RdDepths(req: nat, resp: nat)

  const RD_RESET := RdRegs([], 0, [])

  function RdGranted(d: RdDepths, s: RdRegs, i: RdIn): Option<Request> {
    if i.ddrReady && |s.reqQ| < d.req && i.req.Some? && !i.req.value.isWrite then i.req else None
  }

  function ArOffer(s: RdRegs): Option<int> { if s.reqQ != [] then Some(s.reqQ[0].addr) else None }
  function ArSent(s: RdRegs, i: RdIn): Option<int> { if i.arReady then ArOffer(s) else None }

  /** Data is taken only when a read waits for it and there is room. */
  function RTaken(d: RdDepths, s: RdRegs, i: RdIn): Option<int> {
    if |s.respQ| < d.resp && s.credit != 0 then i.rValid else None
  }

  function RespOffer(s: RdRegs): Option<int> { if s.respQ != [] then Some(s.respQ[0]) else None }
  function RespSent(s: RdRegs, i: RdIn): Option<int> { if i.respGrant then RespOffer(s) else None }

  function RdNext(d: RdDepths, s: RdRegs, i: RdIn): RdRegs {
    RdRegs(Fifo.Next(s.reqQ, d.req, RdGranted(d, s, i), ArSent(s, i).Some?),
           Count(s.credit, ArSent(s, i).Some?, RTaken(d, s, i).Some?),
           Fifo.Next(s.respQ, d.resp, RTaken(d, s, i), i.respGrant))
  }

  datatype RdHist = RdHist(granted: seq<Request>, ars: seq<int>, rs: seq<int>, outs: seq<int>)

  function RdRecord(d: RdDepths, s: RdRegs, i: RdIn, h: RdHist): RdHist {
    RdHist(h.granted + Opt(RdGranted(d, s, i)), h.ars + Opt(ArSent(s, i)), h.rs + Opt(RTaken(d, s, i)), h.outs + Opt(RespSent(s, i)))
  }

  function RdRun(d: RdDepths, inputs: seq<RdIn>): (r: (RdRegs, RdHist)) {
    if inputs == [] then (RD_RESET, RdHist([], [], [], []))
    else
      var n := |inputs| - 1;
      var (s, h) := RdRun(d, inputs[..n]);
      (RdNext(d, s, inputs[n]), RdRecord(d, s, inputs[n], h))
  }

  ghost predicate RdInv(s: RdRegs, h: RdHist) {
    && Map(h.granted, AddrOf) == h.ars + Map(s.reqQ, AddrOf)
    && h.rs == h.outs + s.respQ
    && |h.rs| <= |h.ars| && s.credit == (|h.ars| - |h.rs|) % WIDTH32
  }

  lemma RdStep(d: RdDepths, s: RdRegs, i: RdIn, h: RdHist)
    requires RdInv(s, h)
    ensures RdInv(RdNext(d, s, i), RdRecord(d, s, i, h))
  {
    hide Fifo.Next, Count;
    var sent := ArSent(s, i).Some?;
    Fifo.FlowThrough(s.reqQ, d.req, RdGranted(d, s, i), sent, h.granted, h.ars, AddrOf);
    MapAt(Fifo.Given(s.reqQ, sent), AddrOf, 0);
    assert Opt(ArSent(s, i)) == Map(Fifo.Given(s.reqQ, sent), AddrOf);
    assert Opt(RdGranted(d, s, i)) == Fifo.Taken(s.reqQ, d.req, RdGranted(d, s, i));
    Fifo.Flow(s.respQ, d.resp, RTaken(d, s, i), i.respGrant, h.rs, h.outs);
    CountIs(s.credit, |h.ars|, |h.rs|, sent, RTaken(d, s, i).Some?);
  }

  /** Addresses leave in order; answers are kept in order and complete; none is taken that no read
      waits for; the credit is the reads that wait. */
  lemma {:induction false} ReadsWaitTheirTurn(d: RdDepths, inputs: seq<RdIn>)
    ensures var (s, h) := RdRun(d, inputs);
            && RdInv(s, h)
            && h.ars <= Map(h.granted, AddrOf)
            && h.outs <= h.rs
            && |h.outs| <= |h.rs| <= |h.ars| <= |h.granted|
  {
    if inputs != [] {
      var n := |inputs| - 1;
      var (s, h) := RdRun(d, inputs[..n]);
      ReadsWaitTheirTurn(d, inputs[..n]);
      RdStep(d, s, inputs[n], h);
    }
  }

  /** VALID and its payload stay until READY on the address channel, and towards the requester. */
  lemma ReadValidHolds(d: RdDepths, s: RdRegs, i: RdIn)
    ensures ArOffer(s).Some? && !i.arReady ==> ArOffer(RdNext(d, s, i)) == ArOffer(s)
    ensures RespOffer(s).Some? && !i.respGrant ==> RespOffer(RdNext(d, s, i)) == RespOffer(s)
  {
  }

  /** An address is offered while one granted has not been sent; data is taken while fewer have come
      than addresses went, and there is room; what is taken is what was shown. */
  lemma WhatIsTaken(d: RdDepths, inputs: seq<RdIn>, i: RdIn)
    ensures var (s, h) := RdRun(d, inputs);
            && (ArOffer(s).Some? <==> |h.ars| < |h.granted|)
            && (ArOffer(s).Some? ==> ArOffer(s).value == h.granted[|h.ars|].addr)
            && (RTaken(d, s, i) == i.rValid && i.rValid.Some?
                <==> i.rValid.Some? && |h.rs| - |h.outs| < d.resp && (|h.ars| - |h.rs|) % 0x1_0000_0000 != 0)
            && (RTaken(d, s, i).Some? ==> RTaken(d, s, i) == i.rValid)
            && (RespOffer(s).Some? <==> |h.outs| < |h.rs|)
            && (RespOffer(s).Some? ==> RespOffer(s).value == h.rs[|h.outs|])
            && (RdGranted(d, s, i) == i.req && i.req.Some?
                <==> i.ddrReady && i.req.Some? && !i.req.value.isWrite && |h.granted| - |h.ars| < d.req)
  {
    ReadsWaitTheirTurn(d, inputs);
    var (s, h) := RdRun(d, inputs);
    hide RdRun;
    assert |Map(h.granted, AddrOf)| == |h.ars| + |Map(s.reqQ, AddrOf)|;
    if |h.ars| < |h.granted| {
      MapAt(h.granted, AddrOf, |h.ars|);
      MapAt(s.reqQ, AddrOf, 0);
      assert (h.ars + Map(s.reqQ, AddrOf))[|h.ars|] == s.reqQ[0].addr;
    }
    if |h.outs| < |h.rs| { assert (h.outs + s.respQ)[|h.outs|] == s.respQ[0]; }
  }

  predicate RdReady(more: seq<RdIn>) {
    forall k :: 0 <= k < |more| ==> more[k].arReady && more[k].rValid.Some? && more[k].respGrant && more[k].req == None
  }

  /** Addresses to send, answers to come and answers to hand on. */
  function RdWork(h: RdHist): int { 3 * (|h.granted| - |h.ars|) + 2 * (|h.ars| - |h.rs|) + (|h.rs| - |h.outs|) }

  lemma RdReadyStep(d: RdDepths, s: RdRegs, i: RdIn, h: RdHist)
    requires d.resp > 0 && RdInv(s, h) && i.arReady && i.rValid.Some? && i.respGrant && i.req == None
    requires |h.granted| - |h.rs| < WIDTH32
    ensures var h' := RdRecord(d, s, i, h);
            && h'.granted == h.granted && |h'.rs| >= |h.rs|
            && (RdWork(h) > 0 ==> RdWork(h') < RdWork(h)) && (RdWork(h) == 0 ==> RdWork(h') == 0)
  {
    assert |Map(h.granted, AddrOf)| == |h.ars| + |Map(s.reqQ, AddrOf)|;
  }

  lemma {:induction false} RdDrains(d: RdDepths, inputs: seq<RdIn>, more: seq<RdIn>)
    requires d.resp > 0 && RdReady(more)
    requires var h := RdRun(d, inputs).1; |h.granted| - |h.rs| < WIDTH32
    ensures var h, h' := RdRun(d, inputs).1, RdRun(d, inputs + more).1;
            h'.granted == h.granted && |h'.rs| >= |h.rs| && (RdWork(h') <= 0 || RdWork(h') <= RdWork(h) - |more|)
  {
    if more == [] {
      assert inputs + more == inputs;
    } else {
      var n := |more| - 1;
      assert (inputs + more)[..|inputs + more| - 1] == inputs + more[..n] && (inputs + more)[|inputs + more| - 1] == more[n];
      RdDrains(d, inputs, more[..n]);
      ReadsWaitTheirTurn(d, inputs + more[..n]);
      hide RdInv, RdWork;
      RdReadyStep(d, RdRun(d, inputs + more[..n]).0, more[n], RdRun(d, inputs + more[..n]).1);
    }
  }

  /** Every granted read is answered: from any state, with the address channel ready, data coming
      whenever it is waited for and answers taken, all of them have come and gone within three cycles
      a read. */
  lemma EveryReadIsAnswered(d: RdDepths, inputs: seq<RdIn>, more: seq<RdIn>)
    requires d.resp > 0 && RdReady(more)
    requires var h := RdRun(d, inputs).1; |h.granted| - |h.rs| < WIDTH32 && |more| >= 3 * (|h.granted| - |h.outs|)
    ensures var h := RdRun(d, inputs).1; var h' := RdRun(d, inputs + more).1;
            h'.granted == h.granted && h'.ars == Map(h.granted, AddrOf) && |h'.rs| == |h.granted| && h'.outs == h'.rs
  {
    ReadsWaitTheirTurn(d, inputs);
    ReadsWaitTheirTurn(d, inputs + more);
    RdDrains(d, inputs, more);
    var h, h' := RdRun(d, inputs).1, RdRun(d, inputs + more).1;
    hide RdRun;
    assert RdWork(h) <= 3 * (|h.granted| - |h.outs|);
    assert |Map(h'.granted, AddrOf)| == |h'.granted|;
  }

  // The paths as they are clocked.

  class AMI2AXI4_WrPath {
    const depths: WrDepths
    var wrReqDataQ: seq<int>
    var wrReqAddrQ: seq<int>
    var writeDataCreditCnt: nat
    var writeRespCreditCnt: nat

    constructor (depths: WrDepths)
      ensures this.depths == depths && State() == WR_RESET
    {
      this.depths := depths;
      wrReqDataQ, wrReqAddrQ, writeDataCreditCnt, writeRespCreditCnt := [], [], 0, 0;
    }

    function State(): WrRegs
      reads this
    {
      WrRegs(wrReqDataQ, wrReqAddrQ, writeDataCreditCnt, writeRespCreditCnt)
    }

    method Clock(i: WrIn) returns (grant: bool)
      modifies this
      ensures grant == WrGranted(depths, old(State()), i).Some?
      ensures State() == WrNext(depths, old(State()), i)
    {
      grant := i.ddrReady && |wrReqDataQ| < depths.data && |wrReqAddrQ| < depths.addr && i.req.Some? && i.req.value.isWrite;
      var awAccepted := wrReqAddrQ != [] && i.awReady;
      var wAccepted := wrReqDataQ != [] && writeDataCreditCnt != 0 && i.wReady;
      var bAccepted := writeRespCreditCnt != 0 && i.bValid;
      wrReqDataQ := Fifo.Next(wrReqDataQ, depths.data, if grant then Some(i.req.value.data) else None, wAccepted);
      wrReqAddrQ := Fifo.Next(wrReqAddrQ, depths.addr, if grant then Some(i.req.value.addr) else None, awAccepted);
      if awAccepted && !wAccepted {
        writeDataCreditCnt := (writeDataCreditCnt + 1) % WIDTH32;
      } else if !awAccepted && wAccepted {
        writeDataCreditCnt := (writeDataCreditCnt + WIDTH32 - 1) % WIDTH32;
      }
      if wAccepted && !bAccepted {
        writeRespCreditCnt := (writeRespCreditCnt + 1) % WIDTH32;
      } else if !wAccepted && bAccepted {
        writeRespCreditCnt := (writeRespCreditCnt + WIDTH32 - 1) % WIDTH32;
      }
    }
  }

  class AMI2AXI4_RdPath {
    const depths: RdDepths
    var rdReqQ: seq<Request>
    var readRespCreditCnt: nat
    var rdRespQ: seq<int>

    constructor (depths: RdDepths)
      ensures this.depths == depths && State() == RD_RESET
    {
      this.depths := depths;
      rdReqQ, readRespCreditCnt, rdRespQ := [], 0, [];
    }

    function State(): RdRegs
      reads this
    {
      RdRegs(rdReqQ, readRespCreditCnt, rdRespQ)
    }

    method Clock(i: RdIn) returns (grant: bool)
      modifies this
      ensures grant == RdGranted(depths, old(State()), i).Some?
      ensures State() == RdNext(depths, old(State()), i)
    {
      grant := i.ddrReady && |rdReqQ| < depths.req && i.req.Some? && !i.req.value.isWrite;
      var arAccepted := rdReqQ != [] && i.arReady;
      var rAccepted := |rdRespQ| < depths.resp && readRespCreditCnt != 0 && i.rValid.Some?;
      rdReqQ := Fifo.Next(rdReqQ, depths.req, if grant then i.req else None, arAccepted);
      rdRespQ := Fifo.Next(rdRespQ, depths.resp, if rAccepted then i.rValid else None, i.respGrant);
      if arAccepted && !rAccepted {
        readRespCreditCnt := (readRespCreditCnt + 1) % WIDTH32;
      } else if !arAccepted && rAccepted {
        readRespCreditCnt := (readRespCreditCnt + WIDTH32 - 1) % WIDTH32;
      }
    }
  }
}
