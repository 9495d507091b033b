/** Every queue of the memory system hands on what it was given, in order: for each queue the
    stream that entered it is the stream that left it followed by its contents. */
module AmiFlow {
  import opened Streams
  import opened AmiTypes
  import opened Ami
  import Fifo
  import Arbiter

  /** The streams that have passed each point of the machine since reset. */
  datatype Hist = Hist(
    acc: (nat, nat) -> seq<Request>,     // accepted from a port
    xld: (nat, nat) -> seq<Request>,     // translated
    fwd: (nat, nat) -> seq<Request>,     // accepted by a channel merger
    mgin: (nat, nat) -> seq<ChanReq>,    // into a channel merger
    log: nat -> seq<ChanReq>,            // into a channel arbiter
    snt: nat -> seq<ChanReq>,            // accepted by a channel memory
    don: nat -> seq<MemReq>,             // performed by it
    rsp: nat -> seq<Word>,               // answered by it
    rtd: nat -> seq<Resp>,               // labelled and routed
    mrg: (nat, nat) -> seq<Resp>,        // merged at a port
    del: (nat, nat) -> seq<Response>)    // delivered to it

  function NoHist(): Hist {
    Hist((a, p) => [], (a, p) => [], (a, p) => [], (a, c) => [], c => [], c => [], c => [], c => [], c => [],
         (a, p) => [], (a, p) => [])
  }

  function NextHist(cfg: Config, s: State, i: Input, h: Hist): Hist {
    Hist((a: nat, p: nat) => h.acc(a, p) + Accepted(cfg, s, i, a, p),
         (a: nat, p: nat) => h.xld(a, p) + NewXld(cfg, s, a, p),
         (a: nat, p: nat) => h.fwd(a, p) + NewFwd(cfg, s, a, p),
         (a: nat, c: nat) => h.mgin(a, c) + Opt(MergeIn(cfg, s, a, c)),
         (c: nat) => h.log(c) + Opt(ArbIn(cfg, s, c)),
         (c: nat) => h.snt(c) + NewSnt(s, i, c),
         (c: nat) => h.don(c) + Served(cfg, s, i, c),
         (c: nat) => h.rsp(c) + NewRsp(cfg, s, i, c),
         (c: nat) => h.rtd(c) + NewRtd(cfg, s, c),
         (a: nat, p: nat) => h.mrg(a, p) + Opt(MergeOut(cfg, s.rm(a, p))),
         (a: nat, p: nat) => h.del(a, p) + Delivered(s, i, a, p))
  }

  function NewXld(cfg: Config, s: State, a: nat, p: nat): seq<Request> {
    var x := s.xl(a, p);
    if Translating(cfg, x) then [ToPhysical(cfg, a)(x.reqQ[0])] else []
  }

  function NewFwd(cfg: Config, s: State, a: nat, p: nat): seq<Request> {
    if Forwarded(cfg, s, a, p) then [s.xl(a, p).xlatedQ[0]] else []
  }

  function NewSnt(s: State, i: Input, c: nat): seq<ChanReq> {
    if Issuing(s, i, c) then [s.ca(c).reqQ[0]] else []
  }

  function NewRsp(cfg: Config, s: State, i: Input, c: nat): seq<Word> {
    Fifo.Taken(s.ca(c).respQ, cfg.arbRespDepth, MemResp(s, i, c))
  }

  function NewRtd(cfg: Config, s: State, c: nat): seq<Resp> {
    if Routed(cfg, s, c) then Opt(Route(s, c)) else []
  }

  // Selections.

  function OnChannel(cfg: Config, c: nat): Request -> bool { (r: Request) => ChannelOf(cfg, r.addr) == c }
  function FromPort(p: nat): ChanReq -> bool { (r: ChanReq) => r.srcPort == p }
  function FromApp(a: nat): ChanReq -> bool { (r: ChanReq) => r.srcApp == a }
  function IsRead(): ChanReq -> bool { (r: ChanReq) => !r.isWrite }
  function ToUnit(a: nat, p: nat): Resp -> bool { (r: Resp) => r.srcApp == a && r.srcPort == p }
  function ViaChannel(c: nat): Resp -> bool { (r: Resp) => r.channel == c }
  function DataOf(): Resp -> Word { (r: Resp) => r.data }
  function RespTag(): Resp -> Tag { (r: Resp) => Tag(r.srcPort, r.srcApp, r.channel, r.size) }
  function TagOfRequest(cfg: Config, a: nat, p: nat): Request -> Tag {
    (r: Request) => Tag(p, a, ChannelOf(cfg, r.addr), r.size)
  }

  /** The tags a port's forwarded reads were given. */
  function Tags(cfg: Config, h: Hist, a: nat, p: nat): seq<Tag> {
    Map(Filter(h.fwd(a, p), Reading()), TagOfRequest(cfg, a, p))
  }

  // The memory's semantics.

  function ApplyAll(cells: nat -> Word, ops: seq<MemReq>): nat -> Word {
    if ops == [] then cells else Apply(ApplyAll(cells, ops[..|ops| - 1]), ops[|ops| - 1])
  }

  /** The values the reads among `ops` see. */
  function ReadVals(cells: nat -> Word, ops: seq<MemReq>): seq<Word> {
    if ops == [] then []
    else
      var before, op := ops[..|ops| - 1], ops[|ops| - 1];
      ReadVals(cells, before) + (if op.isWrite then [] else [ApplyAll(cells, before)(op.addr)])
  }

  // What holds of each unit.

  ghost predicate PortFlow(cfg: Config, s: State, h: Hist, a: nat, p: nat) {
    && Map(h.acc(a, p), ToPhysical(cfg, a)) == h.xld(a, p) + Map(s.xl(a, p).reqQ, ToPhysical(cfg, a))
    && h.xld(a, p) == h.fwd(a, p) + s.xl(a, p).xlatedQ
  }

  ghost predicate MergeFlow(cfg: Config, s: State, h: Hist, a: nat, c: nat) {
    && h.mgin(a, c) == Filter(h.log(c), FromApp(a)) + s.mg(a, c).reqQ
    && Arbiter.Width(s.mg(a, c).arb) == cfg.Ports()
    && forall r :: r in h.mgin(a, c) ==> r.srcApp == a && r.channel == c && r.srcPort < cfg.Ports()
  }

  ghost predicate LaneFlow(cfg: Config, h: Hist, a: nat, p: nat, c: nat) {
    Map(Filter(h.fwd(a, p), OnChannel(cfg, c)), ToChan(cfg, a, p)) == Filter(h.mgin(a, c), FromPort(p))
  }

  ghost predicate ChannelFlow(cfg: Config, cells: nat -> (nat -> Word), s: State, h: Hist, c: nat) {
    && h.log(c) == h.snt(c) + s.ca(c).reqQ
    && (forall r :: r in h.log(c) ==> r.channel == c && r.srcApp < cfg.Apps() && r.srcPort < cfg.Ports())
    && Map(h.snt(c), Strip()) == h.don(c) + s.mem(c).pend
    && s.mem(c).cells == ApplyAll(cells(c), h.don(c))
    && Arbiter.Width(s.ca(c).arb) == cfg.Apps()
  }

  ghost predicate AnswerFlow(cfg: Config, cells: nat -> (nat -> Word), s: State, h: Hist, c: nat) {
    && h.rsp(c) == ReadVals(cells(c), h.don(c))
    && h.rsp(c) == Map(h.rtd(c), DataOf()) + s.ca(c).respQ
    && Map(Filter(h.log(c), IsRead()), TagOf()) == Map(h.rtd(c), RespTag()) + s.ca(c).tagQ
  }

  ghost predicate ReturnFlow(s: State, h: Hist, a: nat, p: nat, c: nat) {
    && Filter(h.rtd(c), ToUnit(a, p)) == Filter(h.mrg(a, p), ViaChannel(c)) + s.rm(a, p).chanQ(c)
    && forall r :: r in h.rtd(c) ==> r.channel == c
  }

  ghost predicate TagFlow(cfg: Config, s: State, h: Hist, a: nat, p: nat) {
    var tags := Tags(cfg, h, a, p);
    && |h.mrg(a, p)| <= |tags|
    && tags[|h.mrg(a, p)|..] == s.rm(a, p).tagQ
    && (forall k :: 0 <= k < |h.mrg(a, p)| ==> h.mrg(a, p)[k].channel == tags[k].channel)
    && |s.rm(a, p).tagQ| <= cfg.tagDepth
    && Map(h.mrg(a, p), ToResponse()) == h.del(a, p) + s.rm(a, p).outQ
  }

  ghost predicate Inv(cfg: Config, cells: nat -> (nat -> Word), s: State, h: Hist) {
    && (forall a: nat, p: nat :: PortFlow(cfg, s, h, a, p))
    && (forall a: nat, c: nat :: MergeFlow(cfg, s, h, a, c))
    && (forall a: nat, p: nat, c: nat :: LaneFlow(cfg, h, a, p, c))
    && (forall c: nat :: ChannelFlow(cfg, cells, s, h, c))
    && (forall c: nat :: AnswerFlow(cfg, cells, s, h, c))
    && (forall a: nat, p: nat, c: nat :: ReturnFlow(s, h, a, p, c))
    && (forall a: nat, p: nat :: TagFlow(cfg, s, h, a, p))
  }

  // Each is kept by a clock edge.

  lemma PortFlowStep(cfg: Config, s: State, i: Input, h: Hist, a: nat, p: nat)
    requires PortFlow(cfg, s, h, a, p)
    ensures PortFlow(cfg, Next(cfg, s, i), NextHist(cfg, s, i, h), a, p)
  {
    var x := s.xl(a, p);
    var phys := ToPhysical(cfg, a);
    var wr1 := if i.enabled(a, p) then i.req(a, p) else None;
    var wr2 := if x.reqQ == [] then None else Some(phys(x.reqQ[0]));
    Fifo.FlowThrough(x.reqQ, cfg.xlatDepth, wr1, Translating(cfg, x), h.acc(a, p), h.xld(a, p), phys);
    assert Map(Fifo.Given(x.reqQ, Translating(cfg, x)), phys) == NewXld(cfg, s, a, p);
    Fifo.Flow(x.xlatedQ, cfg.xlatedDepth, wr2, Forwarded(cfg, s, a, p), h.xld(a, p), h.fwd(a, p));
    assert NewXld(cfg, s, a, p) == Fifo.Taken(x.xlatedQ, cfg.xlatedDepth, wr2);
    assert NewFwd(cfg, s, a, p) == Fifo.Given(x.xlatedQ, Forwarded(cfg, s, a, p));
  }

  /** A request is forwarded by the merger of its own channel. */
  lemma ForwardedOnOwnChannel(cfg: Config, s: State, a: nat, p: nat)
    ensures Forwarded(cfg, s, a, p) <==>
            Offer(cfg, s, a, p).Some? && PortPick(cfg, s, a, Offer(cfg, s, a, p).value.channel) == Some(p)
  {
  }

  /** What a port forwards on a channel is what the channel's merger takes from it. */
  lemma LaneTransfer(cfg: Config, s: State, a: nat, p: nat, c: nat)
    ensures Map(Filter(NewFwd(cfg, s, a, p), OnChannel(cfg, c)), ToChan(cfg, a, p))
         == Filter(Opt(MergeIn(cfg, s, a, c)), FromPort(p))
  {
    ForwardedOnOwnChannel(cfg, s, a, p);
    var pick := PortPick(cfg, s, a, c);
    if pick.Some? {
      assert PortReqs(cfg, s, a, c)[pick.value];
    }
    FilterOne(NewFwd(cfg, s, a, p), OnChannel(cfg, c));
    FilterOne(Opt(MergeIn(cfg, s, a, c)), FromPort(p));
  }

  lemma LaneFlowStep(cfg: Config, s: State, i: Input, h: Hist, a: nat, p: nat, c: nat)
    requires LaneFlow(cfg, h, a, p, c)
    ensures LaneFlow(cfg, NextHist(cfg, s, i, h), a, p, c)
  {
    var sent, took := NewFwd(cfg, s, a, p), Opt(MergeIn(cfg, s, a, c));
    LaneTransfer(cfg, s, a, p, c);
    FilterAppend(h.fwd(a, p), sent, OnChannel(cfg, c));
    FilterAppend(h.mgin(a, c), took, FromPort(p));
    MapAppend(Filter(h.fwd(a, p), OnChannel(cfg, c)), Filter(sent, OnChannel(cfg, c)), ToChan(cfg, a, p));
  }

  lemma MergeFlowStep(cfg: Config, s: State, i: Input, h: Hist, a: nat, c: nat)
    requires MergeFlow(cfg, s, h, a, c)
    requires forall b: nat :: MergeFlow(cfg, s, h, b, c)
    ensures MergeFlow(cfg, Next(cfg, s, i), NextHist(cfg, s, i, h), a, c)
  {
    var m := s.mg(a, c);
    var wr, rd := MergeIn(cfg, s, a, c), AppPick(cfg, s, c) == Some(a);
    MergeInOrigin(cfg, s, a, c);
    AppTransfer(cfg, s, h, a, c);
    FilterAppend(h.log(c), Opt(ArbIn(cfg, s, c)), FromApp(a));
    Fifo.Flow(m.reqQ, cfg.mergeDepth, wr, rd, h.mgin(a, c), Filter(h.log(c), FromApp(a)));
    assert Opt(wr) == Fifo.Taken(m.reqQ, cfg.mergeDepth, wr);
  }

  /** What an arbiter takes from an application is what that application's merger hands it. */
  lemma AppTransfer(cfg: Config, s: State, h: Hist, a: nat, c: nat)
    requires forall b: nat :: MergeFlow(cfg, s, h, b, c)
    ensures Filter(Opt(ArbIn(cfg, s, c)), FromApp(a)) == Fifo.Given(s.mg(a, c).reqQ, AppPick(cfg, s, c) == Some(a))
  {
    var pick := AppPick(cfg, s, c);
    FilterOne(Opt(ArbIn(cfg, s, c)), FromApp(a));
    if pick.Some? {
      assert AppReqs(cfg, s, c)[pick.value];
      assert MergeFlow(cfg, s, h, pick.value, c);
      var r := s.mg(pick.value, c).reqQ[0];
      assert r in s.mg(pick.value, c).reqQ && r in h.mgin(pick.value, c);
    }
  }

  /** What a merger takes in comes from one of its ports, for its channel, and there is room. */
  lemma MergeInOrigin(cfg: Config, s: State, a: nat, c: nat)
    ensures MergeIn(cfg, s, a, c).Some? ==>
              var r := MergeIn(cfg, s, a, c).value;
              && r.srcApp == a && r.channel == c && r.srcPort < cfg.Ports()
              && |s.mg(a, c).reqQ| < cfg.mergeDepth
  {
  }

  lemma ChannelFlowStep(cfg: Config, cells: nat -> (nat -> Word), s: State, i: Input, h: Hist, c: nat)
    requires ChannelFlow(cfg, cells, s, h, c)
    requires forall b: nat :: MergeFlow(cfg, s, h, b, c)
    ensures ChannelFlow(cfg, cells, Next(cfg, s, i), NextHist(cfg, s, i, h), c)
  {
    var ca := s.ca(c);
    ArbInOrigin(cfg, s, h, c);
    Fifo.Flow(ca.reqQ, cfg.arbReqDepth, ArbIn(cfg, s, c), Issuing(s, i, c), h.log(c), h.snt(c));
    assert Opt(ArbIn(cfg, s, c)) == Fifo.Taken(ca.reqQ, cfg.arbReqDepth, ArbIn(cfg, s, c));
    assert NewSnt(s, i, c) == Fifo.Given(ca.reqQ, Issuing(s, i, c));
    MemoryStep(cfg, cells, s, i, h, c);
  }

  lemma MemoryStep(cfg: Config, cells: nat -> (nat -> Word), s: State, i: Input, h: Hist, c: nat)
    requires ChannelFlow(cfg, cells, s, h, c)
    ensures Map(h.snt(c) + NewSnt(s, i, c), Strip()) == h.don(c) + Served(cfg, s, i, c) + NextMem(cfg, s, i, c).pend
    ensures NextMem(cfg, s, i, c).cells == ApplyAll(cells(c), h.don(c) + Served(cfg, s, i, c))
  {
    var m := s.mem(c);
    var served, arriving := Served(cfg, s, i, c), Map(NewSnt(s, i, c), Strip());
    MapAppend(h.snt(c), NewSnt(s, i, c), Strip());
    var left := if served == [] then m.pend else m.pend[1..];
    assert m.pend == served + left;
    assert NextMem(cfg, s, i, c).pend == left + arriving;
    assert h.don(c) + (served + left) + arriving == h.don(c) + served + (left + arriving);
    if served != [] {
      assert (h.don(c) + served)[..|h.don(c) + served| - 1] == h.don(c);
    } else {
      assert h.don(c) + served == h.don(c);
    }
  }

  lemma ArbInOrigin(cfg: Config, s: State, h: Hist, c: nat)
    requires forall b: nat :: MergeFlow(cfg, s, h, b, c)
    ensures ArbIn(cfg, s, c).Some? ==>
              var r := ArbIn(cfg, s, c).value;
              && r.channel == c && r.srcApp < cfg.Apps() && r.srcPort < cfg.Ports()
              && |s.ca(c).reqQ| < cfg.arbReqDepth
              && (r.isWrite || |s.ca(c).tagQ| < cfg.arbTagDepth)
  {
    var pick := AppPick(cfg, s, c);
    if pick.Some? {
      var b := pick.value;
      assert AppReqs(cfg, s, c)[b];
      assert MergeFlow(cfg, s, h, b, c);
      var r := s.mg(b, c).reqQ[0];
      assert r in s.mg(b, c).reqQ && r in h.mgin(b, c);
    }
  }

  lemma AnswerFlowStep(cfg: Config, cells: nat -> (nat -> Word), s: State, i: Input, h: Hist, c: nat)
    requires ChannelFlow(cfg, cells, s, h, c) && AnswerFlow(cfg, cells, s, h, c)
    requires forall b: nat :: MergeFlow(cfg, s, h, b, c)
    ensures AnswerFlow(cfg, cells, Next(cfg, s, i), NextHist(cfg, s, i, h), c)
  {
    AnswersStep(cfg, cells, s, i, h, c);
    LabelsStep(cfg, cells, s, i, h, c);
    TagsStep(cfg, cells, s, i, h, c);
  }

  lemma AnswersStep(cfg: Config, cells: nat -> (nat -> Word), s: State, i: Input, h: Hist, c: nat)
    requires ChannelFlow(cfg, cells, s, h, c) && AnswerFlow(cfg, cells, s, h, c)
    ensures h.rsp(c) + NewRsp(cfg, s, i, c) == ReadVals(cells(c), h.don(c) + Served(cfg, s, i, c))
  {
    var served := Served(cfg, s, i, c);
    if served != [] {
      assert (h.don(c) + served)[..|h.don(c) + served| - 1] == h.don(c);
    } else {
      assert h.don(c) + served == h.don(c);
    }
  }

  lemma LabelsStep(cfg: Config, cells: nat -> (nat -> Word), s: State, i: Input, h: Hist, c: nat)
    requires AnswerFlow(cfg, cells, s, h, c)
    ensures h.rsp(c) + NewRsp(cfg, s, i, c)
         == Map(h.rtd(c) + NewRtd(cfg, s, c), DataOf())
            + Fifo.Next(s.ca(c).respQ, cfg.arbRespDepth, MemResp(s, i, c), Routed(cfg, s, c))
  {
    Fifo.Flow(s.ca(c).respQ, cfg.arbRespDepth, MemResp(s, i, c), Routed(cfg, s, c), h.rsp(c), Map(h.rtd(c), DataOf()));
    MapAppend(h.rtd(c), NewRtd(cfg, s, c), DataOf());
    assert Map(NewRtd(cfg, s, c), DataOf()) == Fifo.Given(s.ca(c).respQ, Routed(cfg, s, c));
  }

  lemma TagsStep(cfg: Config, cells: nat -> (nat -> Word), s: State, i: Input, h: Hist, c: nat)
    requires AnswerFlow(cfg, cells, s, h, c)
    requires forall b: nat :: MergeFlow(cfg, s, h, b, c)
    ensures Map(Filter(h.log(c) + Opt(ArbIn(cfg, s, c)), IsRead()), TagOf())
         == Map(h.rtd(c) + NewRtd(cfg, s, c), RespTag())
            + Fifo.Next(s.ca(c).tagQ, cfg.arbTagDepth, ArbTagIn(cfg, s, c), Routed(cfg, s, c))
  {
    var tagQ, wr, rd := s.ca(c).tagQ, ArbTagIn(cfg, s, c), Routed(cfg, s, c);
    var added := Opt(ArbIn(cfg, s, c));
    ArbInOrigin(cfg, s, h, c);
    FilterAppend(h.log(c), added, IsRead());
    assert added != [] ==> added[1..] == [];
    MapAppend(Filter(h.log(c), IsRead()), Filter(added, IsRead()), TagOf());
    assert Map(Filter(added, IsRead()), TagOf()) == Fifo.Taken(tagQ, cfg.arbTagDepth, wr);
    Fifo.Flow(tagQ, cfg.arbTagDepth, wr, rd, Map(Filter(h.log(c), IsRead()), TagOf()), Map(h.rtd(c), RespTag()));
    MapAppend(h.rtd(c), NewRtd(cfg, s, c), RespTag());
    assert Map(NewRtd(cfg, s, c), RespTag()) == Fifo.Given(tagQ, rd);
  }

  /** The response a merger takes comes from the channel its tag names. */
  lemma MergedFromTagChannel(cfg: Config, s: State, h: Hist, a: nat, p: nat)
    requires forall c: nat :: ReturnFlow(s, h, a, p, c)
    ensures forall c: nat :: c < cfg.Channels() && MergeGrant(cfg, s.rm(a, p), c) ==> MergePick(cfg, s.rm(a, p)) == Some(c)
    ensures MergePick(cfg, s.rm(a, p)).Some? ==> MergeOut(cfg, s.rm(a, p)).value.channel == MergePick(cfg, s.rm(a, p)).value
  {
    var r := s.rm(a, p);
    forall c: nat | r.chanQ(c) != []
      ensures r.chanQ(c)[0].channel == c
    {
      assert ReturnFlow(s, h, a, p, c);
      assert r.chanQ(c)[0] in Filter(h.rtd(c), ToUnit(a, p));
      FilterMember(h.rtd(c), r.chanQ(c)[0], ToUnit(a, p));
    }
  }

  lemma ReturnFlowStep(cfg: Config, cells: nat -> (nat -> Word), s: State, i: Input, h: Hist, a: nat, p: nat, c: nat)
    requires forall k: nat :: ReturnFlow(s, h, a, p, k)
    requires ChannelFlow(cfg, cells, s, h, c) && AnswerFlow(cfg, cells, s, h, c)
    ensures ReturnFlow(Next(cfg, s, i), NextHist(cfg, s, i, h), a, p, c)
  {
    hide Filter, Fifo.Next, NextXlate, NextMerge, NextArb, NextMem, TagEdge, OutEdge;
    var r := s.rm(a, p);
    var wr, rd := RespIn(s, a, p, c), c < cfg.Channels() && MergeGrant(cfg, r, c);
    assert ReturnFlow(s, h, a, p, c);
    RoutedChannel(cfg, cells, s, h, c);
    Fifo.Flow(r.chanQ(c), cfg.chanDepth, wr, rd, Filter(h.rtd(c), ToUnit(a, p)), Filter(h.mrg(a, p), ViaChannel(c)));
    var added := NewRtd(cfg, s, c);
    FilterAppend(h.rtd(c), added, ToUnit(a, p));
    FilterOne(added, ToUnit(a, p));
    assert Filter(added, ToUnit(a, p)) == Fifo.Taken(r.chanQ(c), cfg.chanDepth, wr);
    MergedFromTagChannel(cfg, s, h, a, p);
    var out := Opt(MergeOut(cfg, r));
    FilterAppend(h.mrg(a, p), out, ViaChannel(c));
    FilterOne(out, ViaChannel(c));
    assert Filter(out, ViaChannel(c)) == Fifo.Given(r.chanQ(c), rd);
  }

  lemma RoutedChannel(cfg: Config, cells: nat -> (nat -> Word), s: State, h: Hist, c: nat)
    requires ChannelFlow(cfg, cells, s, h, c) && AnswerFlow(cfg, cells, s, h, c)
    ensures Route(s, c).Some? ==>
              && Route(s, c).value.channel == c
              && Route(s, c).value.srcApp < cfg.Apps() && Route(s, c).value.srcPort < cfg.Ports()
  {
    if Route(s, c).Some? {
      var readers := Filter(h.log(c), IsRead());
      var k := |h.rtd(c)|;
      assert Map(readers, TagOf())[k] == s.ca(c).tagQ[0];
      assert readers[k] in readers;
      FilterMember(h.log(c), readers[k], IsRead());
    }
  }

  lemma TagFlowStep(cfg: Config, s: State, i: Input, h: Hist, a: nat, p: nat)
    requires TagFlow(cfg, s, h, a, p)
    requires forall c: nat :: ReturnFlow(s, h, a, p, c)
    ensures TagFlow(cfg, Next(cfg, s, i), NextHist(cfg, s, i, h), a, p)
  {
    var r := s.rm(a, p);
    var out := Opt(MergeOut(cfg, r));
    var wr := TagIn(cfg, s, a, p);
    var tags := Tags(cfg, h, a, p);
    TagsGrow(cfg, s, i, h, a, p);
    MapAppend(h.mrg(a, p), out, ToResponse());
    Fifo.Flow(r.outQ, cfg.outDepth, OutIn(cfg, r), i.enabled(a, p) && i.take(a, p), Map(h.mrg(a, p), ToResponse()), h.del(a, p));
    Fifo.Flow(r.tagQ, cfg.tagDepth, wr, out != [], tags, tags[..|h.mrg(a, p)|]);
    assert Map(out, ToResponse()) == Fifo.Taken(r.outQ, cfg.outDepth, OutIn(cfg, r));
  }

  lemma TagsGrow(cfg: Config, s: State, i: Input, h: Hist, a: nat, p: nat)
    ensures Tags(cfg, NextHist(cfg, s, i, h), a, p)
         == Tags(cfg, h, a, p) + Fifo.Taken(s.rm(a, p).tagQ, cfg.tagDepth, TagIn(cfg, s, a, p))
  {
    var added := NewFwd(cfg, s, a, p);
    FilterAppend(h.fwd(a, p), added, Reading());
    assert added != [] ==> added[1..] == [];
    MapAppend(Filter(h.fwd(a, p), Reading()), Filter(added, Reading()), TagOfRequest(cfg, a, p));
  }

  lemma InvInit(cfg: Config, cells: nat -> (nat -> Word))
    ensures Inv(cfg, cells, Init(cfg, cells), NoHist())
  {
    Arbiter.CompleteWidth(Arbiter.Reset(cfg.portBits), cfg.portBits);
    Arbiter.CompleteWidth(Arbiter.Reset(cfg.appBits), cfg.appBits);
  }

  /** The whole invariant is kept by every clock edge, whatever the environment does. */
  lemma InvStep(cfg: Config, cells: nat -> (nat -> Word), s: State, i: Input, h: Hist)
    requires Inv(cfg, cells, s, h)
    ensures Inv(cfg, cells, Next(cfg, s, i), NextHist(cfg, s, i, h))
  {
    var s', h' := Next(cfg, s, i), NextHist(cfg, s, i, h);
    forall a: nat, p: nat ensures PortFlow(cfg, s', h', a, p) { PortFlowStep(cfg, s, i, h, a, p); }
    forall a: nat, c: nat ensures MergeFlow(cfg, s', h', a, c) { MergeFlowStep(cfg, s, i, h, a, c); }
    forall a: nat, p: nat, c: nat ensures LaneFlow(cfg, h', a, p, c) { LaneFlowStep(cfg, s, i, h, a, p, c); }
    forall c: nat ensures ChannelFlow(cfg, cells, s', h', c) { ChannelFlowStep(cfg, cells, s, i, h, c); }
    forall c: nat ensures AnswerFlow(cfg, cells, s', h', c) { AnswerFlowStep(cfg, cells, s, i, h, c); }
    forall a: nat, p: nat, c: nat ensures ReturnFlow(s', h', a, p, c) { ReturnFlowStep(cfg, cells, s, i, h, a, p, c); }
    forall a: nat, p: nat ensures TagFlow(cfg, s', h', a, p) { TagFlowStep(cfg, s, i, h, a, p); }
  }
}
