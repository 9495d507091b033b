/** The memory system never gets stuck, and what it accepted it finishes within a bounded time. */
module AmiProgress {
  import opened Streams
  import opened AmiTypes
  import opened Ami
  import opened AmiFlow
  import opened AmiDelivery
  import Fifo
  import Arbiter

  /** No queue has room for nothing, and a port's tags fit its channel queues. */
  predicate Sized(cfg: Config) {
    && cfg.xlatedDepth > 0 && cfg.mergeDepth > 0 && cfg.tagDepth > 0 && cfg.outDepth > 0
    && cfg.arbReqDepth > 0 && cfg.arbTagDepth > 0 && cfg.arbRespDepth > 0 && cfg.tagDepth <= cfg.chanDepth
  }

  /** Ports take their responses and memories accept and serve. */
  ghost predicate Willing(i: Input) {
    (forall a: nat, p: nat :: i.enabled(a, p) && i.take(a, p)) && (forall c: nat :: i.accept(c) && i.serve(c))
  }

  // Who has work, and whose work advances.

  predicate PortBusy(s: State, a: nat, p: nat) {
    s.xl(a, p).reqQ != [] || s.xl(a, p).xlatedQ != [] || s.rm(a, p).tagQ != [] || s.rm(a, p).outQ != []
  }

  predicate ChannelBusy(cfg: Config, s: State, c: nat) {
    s.ca(c).reqQ != [] || s.mem(c).pend != [] || s.ca(c).respQ != [] || exists a :: 0 <= a < cfg.Apps() && s.mg(a, c).reqQ != []
  }

  predicate PortMoves(cfg: Config, s: State, i: Input, a: nat, p: nat) {
    NewXld(cfg, s, a, p) != [] || NewFwd(cfg, s, a, p) != [] || MergeOut(cfg, s.rm(a, p)).Some? || Delivered(s, i, a, p) != []
  }

  predicate ChannelMoves(cfg: Config, s: State, i: Input, c: nat) {
    ArbIn(cfg, s, c).Some? || NewSnt(s, i, c) != [] || Served(cfg, s, i, c) != [] || NewRtd(cfg, s, c) != []
  }

  /** When a channel's queues are empty, so is its tag queue. */
  lemma NoTagsLeft(cfg: Config, cells: nat -> (nat -> Word), s: State, h: Hist, c: nat)
    requires ChannelFlow(cfg, cells, s, h, c) && AnswerFlow(cfg, cells, s, h, c)
    requires s.ca(c).reqQ == [] && s.mem(c).pend == [] && s.ca(c).respQ == []
    ensures s.ca(c).tagQ == []
  {
    var readers := Filter(h.snt(c), IsRead());
    assert h.log(c) == h.snt(c) && h.don(c) == Map(h.snt(c), Strip());
    ReadValsLength(cells(c), h.don(c));
    FilterMap(h.snt(c), Strip(), MemRead(), IsRead());
    LengthOfMap(readers, Strip());
    LengthOfMap(readers, TagOf());
    LengthOfMap(h.rtd(c), DataOf());
    LengthOfMap(h.rtd(c), RespTag());
    assert |h.rsp(c)| == |h.rtd(c)| == |readers|;
    assert Map(readers, TagOf()) == Map(h.rtd(c), RespTag()) + s.ca(c).tagQ;
  }

  lemma LengthOfMap<T, U>(s: seq<T>, f: T -> U)
    ensures |Map(s, f)| == |s|
  {
  }

  lemma PickSome(t: Arbiter.Tree, req: seq<bool>, k: nat)
    requires |req| == Arbiter.Width(t) && k < |req| && req[k]
    ensures PickOf(t, req).Some?
  {
    assert true in req;
  }

  /** A channel with work advances it. */
  lemma ChannelAdvances(cfg: Config, cells: nat -> (nat -> Word), s: State, i: Input, h: Hist, c: nat)
    requires Sized(cfg) && Inv(cfg, cells, s, h) && Willing(i) && ChannelBusy(cfg, s, c)
    ensures ChannelMoves(cfg, s, i, c)
  {
    assert ChannelFlow(cfg, cells, s, h, c) && AnswerFlow(cfg, cells, s, h, c);
    if s.ca(c).respQ != [] {
      RoomAtThePort(cfg, cells, s, h, c);
    } else if s.mem(c).pend == [] && s.ca(c).reqQ == [] {
      NoTagsLeft(cfg, cells, s, h, c);
      var a: nat :| a < cfg.Apps() && s.mg(a, c).reqQ != [];
      hide Inv, ChannelFlow, AnswerFlow, Willing;
      assert AppReqs(cfg, s, c)[a];
      assert |AppReqs(cfg, s, c)| == Arbiter.Width(s.ca(c).arb) by { ArbWidth(cfg, cells, s, h, c); }
      PickSome(s.ca(c).arb, AppReqs(cfg, s, c), a);
    }
  }

  lemma ArbWidth(cfg: Config, cells: nat -> (nat -> Word), s: State, h: Hist, c: nat)
    requires Inv(cfg, cells, s, h)
    ensures Arbiter.Width(s.ca(c).arb) == cfg.Apps() && forall a: nat :: Arbiter.Width(s.mg(a, c).arb) == cfg.Ports()
  {
    assert ChannelFlow(cfg, cells, s, h, c);
    forall a: nat ensures Arbiter.Width(s.mg(a, c).arb) == cfg.Ports() { assert MergeFlow(cfg, s, h, a, c); }
  }

  ghost predicate ChannelsIdle(cfg: Config, s: State) {
    forall c: nat :: c < cfg.Channels() ==> !ChannelBusy(cfg, s, c)
  }

  /** When the channels have no work, the response to a port's oldest tag is waiting there. */
  lemma ResponseWaits(cfg: Config, cells: nat -> (nat -> Word), s: State, h: Hist, a: nat, p: nat)
    requires Sized(cfg) && Inv(cfg, cells, s, h) && ChannelsIdle(cfg, s) && a < cfg.Apps() && s.rm(a, p).tagQ != []
    ensures var c := s.rm(a, p).tagQ[0].channel;
            c < cfg.Channels() && s.rm(a, p).chanQ(c) != [] && s.rm(a, p).chanQ(c)[0].channel == c
  {
    var tag := s.rm(a, p).tagQ[0];
    var c := tag.channel;
    TagOnChannel(cfg, s, h, a, p);
    assert !ChannelBusy(cfg, s, c) && s.mg(a, c).reqQ == [];
    SplitTags(cfg, cells, s, h, a, p, c);
    assert ChannelFlow(cfg, cells, s, h, c) && AnswerFlow(cfg, cells, s, h, c);
    NoTagsLeft(cfg, cells, s, h, c);
    hide Inv, ChannelFlow, AnswerFlow, ChannelsIdle, ChannelBusy;
    assert InFlight(s, a, p, c) == Map(s.rm(a, p).chanQ(c), RespTag());
    FilterMember(s.rm(a, p).tagQ, tag, OnKey(TagChannel(), c));
    assert tag in s.rm(a, p).tagQ;
    var on := OnChannelTags(s.rm(a, p).tagQ, c);
    assert on[0] in on;
    FilterMember(s.rm(a, p).tagQ, on[0], OnKey(TagChannel(), c));
    assert on[0] == RespTag()(s.rm(a, p).chanQ(c)[0]);
  }

  lemma TagOnChannel(cfg: Config, s: State, h: Hist, a: nat, p: nat)
    requires TagFlow(cfg, s, h, a, p) && s.rm(a, p).tagQ != []
    ensures s.rm(a, p).tagQ[0].channel < cfg.Channels()
  {
    var readers, n := Filter(h.fwd(a, p), Reading()), |h.mrg(a, p)|;
    assert Tags(cfg, h, a, p)[n] == s.rm(a, p).tagQ[0];
    assert Tags(cfg, h, a, p)[n] == TagOfRequest(cfg, a, p)(readers[n]);
  }

  /** When the channels have no work, a port with work, or another port of its application,
      advances it. */
  lemma PortAdvances(cfg: Config, cells: nat -> (nat -> Word), s: State, i: Input, h: Hist, a: nat, p: nat) returns (q: nat)
    requires Sized(cfg) && Inv(cfg, cells, s, h) && Willing(i) && ChannelsIdle(cfg, s)
    requires a < cfg.Apps() && p < cfg.Ports() && PortBusy(s, a, p)
    ensures q < cfg.Ports() && PortMoves(cfg, s, i, a, q)
  {
    q := p;
    if s.rm(a, p).outQ != [] {
      assert i.enabled(a, p) && i.take(a, p);
    } else if s.rm(a, p).tagQ != [] {
      assert TagFlow(cfg, s, h, a, p);
      ResponseWaits(cfg, cells, s, h, a, p);
      hide Inv, ChannelsIdle, Willing, TagFlow;
      assert MergeGrant(cfg, s.rm(a, p), s.rm(a, p).tagQ[0].channel);
    } else if s.xl(a, p).xlatedQ != [] {
      q := Forwards(cfg, cells, s, h, a, p);
    }
  }

  lemma Forwards(cfg: Config, cells: nat -> (nat -> Word), s: State, h: Hist, a: nat, p: nat) returns (q: nat)
    requires Sized(cfg) && Inv(cfg, cells, s, h) && ChannelsIdle(cfg, s)
    requires a < cfg.Apps() && p < cfg.Ports() && s.xl(a, p).xlatedQ != [] && s.rm(a, p).tagQ == []
    ensures q < cfg.Ports() && NewFwd(cfg, s, a, q) != []
  {
    var c := Offer(cfg, s, a, p).value.channel;
    assert !ChannelBusy(cfg, s, c) && s.mg(a, c).reqQ == [];
    ArbWidth(cfg, cells, s, h, c);
    hide Inv, ChannelsIdle, ChannelBusy;
    assert PortReqs(cfg, s, a, c)[p];
    PickSome(s.mg(a, c).arb, PortReqs(cfg, s, a, c), p);
    q := PortPick(cfg, s, a, c).value;
    assert PortReqs(cfg, s, a, c)[q];
    ForwardedOnOwnChannel(cfg, s, a, q);
  }

  /** There is work somewhere. */
  ghost predicate Busy(cfg: Config, s: State) {
    || (exists c: nat :: c < cfg.Channels() && ChannelBusy(cfg, s, c))
    || (exists a: nat, p: nat :: a < cfg.Apps() && p < cfg.Ports() && PortBusy(s, a, p))
  }

  ghost predicate Moves(cfg: Config, s: State, i: Input) {
    || (exists c: nat :: c < cfg.Channels() && ChannelMoves(cfg, s, i, c))
    || (exists a: nat, p: nat :: a < cfg.Apps() && p < cfg.Ports() && PortMoves(cfg, s, i, a, p))
  }

  /** No deadlock: in every reachable state with work anywhere, some entry advances. */
  lemma NeverStuck(cfg: Config, cells: nat -> (nat -> Word), ins: seq<Input>, i: Input)
    requires Sized(cfg) && Willing(i) && Busy(cfg, Run(cfg, cells, ins))
    ensures Moves(cfg, Run(cfg, cells, ins), i)
  {
    Reachable(cfg, cells, ins);
    SomethingMoves(cfg, cells, Run(cfg, cells, ins), i, HistOf(cfg, cells, ins));
  }

  lemma SomethingMoves(cfg: Config, cells: nat -> (nat -> Word), s: State, i: Input, h: Hist)
    requires Sized(cfg) && Inv(cfg, cells, s, h) && Willing(i) && Busy(cfg, s)
    ensures Moves(cfg, s, i)
  {
    hide Inv, ChannelBusy, PortBusy, ChannelMoves, PortMoves, Willing;
    if c: nat :| c < cfg.Channels() && ChannelBusy(cfg, s, c) {
      ChannelAdvances(cfg, cells, s, i, h, c);
    } else {
      var a: nat, p: nat :| a < cfg.Apps() && p < cfg.Ports() && PortBusy(s, a, p);
      var q := PortAdvances(cfg, cells, s, i, h, a, p);
    }
  }

  // Sums over the units.

  function Sum(n: nat, f: nat -> nat): nat { if n == 0 then 0 else Sum(n - 1, f) + f(n - 1) }

  lemma {:induction false} SumLe(n: nat, f: nat -> nat, g: nat -> nat)
    requires forall k: nat :: k < n ==> f(k) <= g(k)
    ensures Sum(n, f) <= Sum(n, g)
  {
    if n > 0 { SumLe(n - 1, f, g); }
  }

  lemma {:induction false} SumLess(n: nat, f: nat -> nat, g: nat -> nat, j: nat)
    requires j < n && f(j) < g(j) && forall k: nat :: k < n ==> f(k) <= g(k)
    ensures Sum(n, f) < Sum(n, g)
  {
    if j < n - 1 { SumLess(n - 1, f, g, j); } else { SumLe(n - 1, f, g); }
  }

  lemma {:induction false} SumBump(n: nat, f: nat -> nat, g: nat -> nat, j: nat)
    requires j < n && forall k: nat :: k < n ==> g(k) == f(k) + (if k == j then 1 else 0)
    ensures Sum(n, g) == Sum(n, f) + 1
  {
    if j < n - 1 {
      SumBump(n - 1, f, g, j);
    } else {
      SumLe(n - 1, f, g);
      SumLe(n - 1, g, f);
    }
  }

  lemma {:induction false} SumZero(n: nat, f: nat -> nat)
    requires forall k: nat :: k < n ==> f(k) == 0
    ensures Sum(n, f) == 0
  {
    if n > 0 { SumZero(n - 1, f); }
  }

  lemma {:induction false} SumAtMost(n: nat, f: nat -> nat, times: nat, g: nat -> nat)
    requires forall k: nat :: k < n ==> f(k) <= times * g(k)
    ensures Sum(n, f) <= times * Sum(n, g)
  {
    if n > 0 { SumAtMost(n - 1, f, times, g); }
  }

  lemma {:induction false} SumBounded(n: nat, f: nat -> nat, bound: nat)
    requires forall k: nat :: k < n ==> f(k) <= bound
    ensures Sum(n, f) <= n * bound
  {
    if n > 0 { SumBounded(n - 1, f, bound); }
  }

  function Row(n: nat, f: (nat, nat) -> nat): nat -> nat { (a: nat) => Sum(n, Of(f, a)) }
  function Of(f: (nat, nat) -> nat, a: nat): nat -> nat { (p: nat) => f(a, p) }

  /** Over the ports of all applications. */
  function Grid(cfg: Config, f: (nat, nat) -> nat): nat { Sum(cfg.Apps(), Row(cfg.Ports(), f)) }

  lemma GridLe(cfg: Config, f: (nat, nat) -> nat, g: (nat, nat) -> nat, times: nat)
    requires forall a: nat, p: nat :: a < cfg.Apps() && p < cfg.Ports() ==> f(a, p) <= times * g(a, p)
    ensures Grid(cfg, f) <= times * Grid(cfg, g)
  {
    forall a: nat | a < cfg.Apps() ensures Row(cfg.Ports(), f)(a) <= times * Row(cfg.Ports(), g)(a) {
      SumAtMost(cfg.Ports(), Of(f, a), times, Of(g, a));
    }
    SumAtMost(cfg.Apps(), Row(cfg.Ports(), f), times, Row(cfg.Ports(), g));
  }

  lemma GridGrows(cfg: Config, f: (nat, nat) -> nat, g: (nat, nat) -> nat)
    requires forall a: nat, p: nat :: a < cfg.Apps() && p < cfg.Ports() ==> f(a, p) <= g(a, p)
    ensures Grid(cfg, f) <= Grid(cfg, g)
    ensures (exists a: nat, p: nat :: a < cfg.Apps() && p < cfg.Ports() && f(a, p) < g(a, p)) ==> Grid(cfg, f) < Grid(cfg, g)
  {
    forall a: nat | a < cfg.Apps() ensures Row(cfg.Ports(), f)(a) <= Row(cfg.Ports(), g)(a) {
      SumLe(cfg.Ports(), Of(f, a), Of(g, a));
    }
    SumLe(cfg.Apps(), Row(cfg.Ports(), f), Row(cfg.Ports(), g));
    if a: nat, p: nat :| a < cfg.Apps() && p < cfg.Ports() && f(a, p) < g(a, p) {
      SumLess(cfg.Ports(), Of(f, a), Of(g, a), p);
      SumLess(cfg.Apps(), Row(cfg.Ports(), f), Row(cfg.Ports(), g), a);
    }
  }

  function CountOf<T>(s: seq<T>, key: T -> nat): nat -> nat { (k: nat) => |Filter(s, OnKey(key, k))| }

  /** A stream is the sum of its parts by key. */
  lemma {:induction false} Partition<T>(s: seq<T>, key: T -> nat, n: nat)
    requires forall x :: x in s ==> key(x) < n
    ensures |s| == Sum(n, CountOf(s, key))
  {
    if s == [] {
      SumZero(n, CountOf(s, key));
    } else {
      Partition(s[1..], key, n);
      assert s[0] in s;
      SumBump(n, CountOf(s[1..], key), CountOf(s, key), key(s[0]));
    }
  }

  // Work done so far.

  function PortDone(h: Hist): (nat, nat) -> nat {
    (a: nat, p: nat) => |h.xld(a, p)| + |h.fwd(a, p)| + |h.mrg(a, p)| + |h.del(a, p)|
  }

  function ChannelDone(h: Hist): nat -> nat { (c: nat) => |h.log(c)| + |h.snt(c)| + |h.don(c)| + |h.rtd(c)| }

  function Done(cfg: Config, h: Hist): nat { Grid(cfg, PortDone(h)) + Sum(cfg.Channels(), ChannelDone(h)) }

  /** Requests accepted from all ports. */
  function Asked(cfg: Config, h: Hist): nat { Grid(cfg, AccCount(h)) }

  function AccCount(h: Hist): (nat, nat) -> nat { (a: nat, p: nat) => |h.acc(a, p)| }

  lemma PortDoneAtMost(cfg: Config, s: State, h: Hist, a: nat, p: nat)
    requires PortFlow(cfg, s, h, a, p) && TagFlow(cfg, s, h, a, p)
    ensures PortDone(h)(a, p) <= 4 * |h.acc(a, p)| && |h.fwd(a, p)| <= |h.acc(a, p)|
  {
    LengthOfMap(h.acc(a, p), ToPhysical(cfg, a));
    LengthOfMap(s.xl(a, p).reqQ, ToPhysical(cfg, a));
    LengthOfMap(h.mrg(a, p), ToResponse());
    LengthOfMap(Filter(h.fwd(a, p), Reading()), TagOfRequest(cfg, a, p));
    FilterLength(h.fwd(a, p), Reading());
    hide Filter, Map;
  }

  function AppKey(): ChanReq -> nat { (r: ChanReq) => r.srcApp }
  function PortKey(): ChanReq -> nat { (r: ChanReq) => r.srcPort }

  lemma MergedAtMost(cfg: Config, s: State, h: Hist, a: nat, c: nat)
    requires forall p: nat :: PortFlow(cfg, s, h, a, p) && TagFlow(cfg, s, h, a, p) && LaneFlow(cfg, h, a, p, c)
    requires MergeFlow(cfg, s, h, a, c)
    ensures |h.mgin(a, c)| <= Row(cfg.Ports(), AccCount(h))(a)
  {
    Partition(h.mgin(a, c), PortKey(), cfg.Ports());
    forall p: nat | p < cfg.Ports() ensures CountOf(h.mgin(a, c), PortKey())(p) <= Of(AccCount(h), a)(p) {
      assert LaneFlow(cfg, h, a, p, c) && PortFlow(cfg, s, h, a, p) && TagFlow(cfg, s, h, a, p);
      FilterAgree(h.mgin(a, c), OnKey(PortKey(), p), FromPort(p));
      LengthOfMap(Filter(h.fwd(a, p), OnChannel(cfg, c)), ToChan(cfg, a, p));
      FilterLength(h.fwd(a, p), OnChannel(cfg, c));
      PortDoneAtMost(cfg, s, h, a, p);
    }
    SumLe(cfg.Ports(), CountOf(h.mgin(a, c), PortKey()), Of(AccCount(h), a));
  }

  lemma LogAtMost(cfg: Config, cells: nat -> (nat -> Word), s: State, h: Hist, c: nat)
    requires Inv(cfg, cells, s, h)
    ensures |h.log(c)| <= Asked(cfg, h)
  {
    assert ChannelFlow(cfg, cells, s, h, c);
    Partition(h.log(c), AppKey(), cfg.Apps());
    forall a: nat | a < cfg.Apps() ensures CountOf(h.log(c), AppKey())(a) <= Row(cfg.Ports(), AccCount(h))(a) {
      assert MergeFlow(cfg, s, h, a, c);
      FilterAgree(h.log(c), OnKey(AppKey(), a), FromApp(a));
      MergedAtMost(cfg, s, h, a, c);
    }
    SumLe(cfg.Apps(), CountOf(h.log(c), AppKey()), Row(cfg.Ports(), AccCount(h)));
  }

  lemma ChannelDoneAtMost(cfg: Config, cells: nat -> (nat -> Word), s: State, h: Hist, c: nat)
    requires Inv(cfg, cells, s, h)
    ensures ChannelDone(h)(c) <= 4 * Asked(cfg, h)
  {
    LogAtMost(cfg, cells, s, h, c);
    assert ChannelFlow(cfg, cells, s, h, c) && AnswerFlow(cfg, cells, s, h, c);
    LengthOfMap(h.snt(c), Strip());
    LengthOfMap(h.rtd(c), RespTag());
    LengthOfMap(Filter(h.log(c), IsRead()), TagOf());
    FilterLength(h.log(c), IsRead());
    hide Filter, Map, ReadVals, Asked;
  }

  /** Eight steps a request and channel are all there is to do, at most. */
  lemma DoneAtMost(cfg: Config, cells: nat -> (nat -> Word), s: State, h: Hist)
    requires Inv(cfg, cells, s, h)
    ensures Done(cfg, h) <= 4 * Asked(cfg, h) + cfg.Channels() * (4 * Asked(cfg, h))
  {
    forall a: nat, p: nat ensures PortDone(h)(a, p) <= 4 * AccCount(h)(a, p) {
      assert PortFlow(cfg, s, h, a, p) && TagFlow(cfg, s, h, a, p);
      PortDoneAtMost(cfg, s, h, a, p);
    }
    forall c: nat ensures ChannelDone(h)(c) <= 4 * Asked(cfg, h) { ChannelDoneAtMost(cfg, cells, s, h, c); }
    hide Inv, PortDone, ChannelDone;
    GridLe(cfg, PortDone(h), AccCount(h), 4);
    SumBounded(cfg.Channels(), ChannelDone(h), 4 * Asked(cfg, h));
  }

  // Draining.

  /** Willing, and no port asks for anything new. */
  ghost predicate Draining(i: Input) {
    Willing(i) && forall a: nat, p: nat :: i.req(a, p) == None
  }

  lemma PortCounts(cfg: Config, s: State, i: Input, h: Hist, a: nat, p: nat)
    ensures var h' := NextHist(cfg, s, i, h);
            PortDone(h)(a, p) <= PortDone(h')(a, p) && (PortMoves(cfg, s, i, a, p) ==> PortDone(h)(a, p) < PortDone(h')(a, p))
  {
    hide NewXld, NewFwd, MergeOut, Delivered, Accepted;
  }

  lemma ChannelCounts(cfg: Config, s: State, i: Input, h: Hist, c: nat)
    ensures var h' := NextHist(cfg, s, i, h);
            ChannelDone(h)(c) <= ChannelDone(h')(c) && (ChannelMoves(cfg, s, i, c) ==> ChannelDone(h)(c) < ChannelDone(h')(c))
  {
    var h' := NextHist(cfg, s, i, h);
    assert |h'.log(c)| == |h.log(c)| + |Opt(ArbIn(cfg, s, c))| && |h'.snt(c)| == |h.snt(c)| + |NewSnt(s, i, c)|;
    assert |h'.don(c)| == |h.don(c)| + |Served(cfg, s, i, c)| && |h'.rtd(c)| == |h.rtd(c)| + |NewRtd(cfg, s, c)|;
    hide ArbIn, NewSnt, Served, NewRtd, NextHist;
  }

  lemma DoneGrows(cfg: Config, s: State, i: Input, h: Hist)
    requires Moves(cfg, s, i)
    ensures Done(cfg, h) < Done(cfg, NextHist(cfg, s, i, h))
  {
    var h' := NextHist(cfg, s, i, h);
    forall a: nat, p: nat
      ensures PortDone(h)(a, p) <= PortDone(h')(a, p) && (PortMoves(cfg, s, i, a, p) ==> PortDone(h)(a, p) < PortDone(h')(a, p))
    {
      PortCounts(cfg, s, i, h, a, p);
    }
    forall c: nat
      ensures ChannelDone(h)(c) <= ChannelDone(h')(c) && (ChannelMoves(cfg, s, i, c) ==> ChannelDone(h)(c) < ChannelDone(h')(c))
    {
      ChannelCounts(cfg, s, i, h, c);
    }
    hide NextHist, PortDone, ChannelDone, PortMoves, ChannelMoves;
    GridGrows(cfg, PortDone(h), PortDone(h'));
    SumLe(cfg.Channels(), ChannelDone(h), ChannelDone(h'));
    if c: nat :| c < cfg.Channels() && ChannelMoves(cfg, s, i, c) {
      SumLess(cfg.Channels(), ChannelDone(h), ChannelDone(h'), c);
    }
  }

  /** A channel without work gets none from applications without work. */
  lemma ChannelStaysIdle(cfg: Config, s: State, i: Input, c: nat)
    requires !Busy(cfg, s) && c < cfg.Channels()
    ensures !ChannelBusy(cfg, Next(cfg, s, i), c)
  {
    assert !ChannelBusy(cfg, s, c);
    assert ArbIn(cfg, s, c) == None by { NoneWants(cfg, s, c); }
    forall a | 0 <= a < cfg.Apps() ensures MergeIn(cfg, s, a, c) == None {
      if PortPick(cfg, s, a, c).Some? {
        var p := PortPick(cfg, s, a, c).value;
        assert PortReqs(cfg, s, a, c)[p];
        assert !PortBusy(s, a, p);
      }
    }
  }

  lemma NoneWants(cfg: Config, s: State, c: nat)
    requires !ChannelBusy(cfg, s, c)
    ensures ArbIn(cfg, s, c) == None
  {
    assert forall a :: 0 <= a < cfg.Apps() ==> !AppReqs(cfg, s, c)[a];
  }

  lemma PortStaysIdle(cfg: Config, s: State, i: Input, a: nat, p: nat)
    requires !PortBusy(s, a, p) && Draining(i)
    ensures !PortBusy(Next(cfg, s, i), a, p)
  {
    assert i.req(a, p) == None;
    assert Offer(cfg, s, a, p) == None;
    assert MergePick(cfg, s.rm(a, p)) == None;
  }

  lemma StaysIdle(cfg: Config, s: State, i: Input)
    requires !Busy(cfg, s) && Draining(i)
    ensures !Busy(cfg, Next(cfg, s, i))
  {
    forall c: nat | c < cfg.Channels() ensures !ChannelBusy(cfg, Next(cfg, s, i), c) { ChannelStaysIdle(cfg, s, i, c); }
    forall a: nat, p: nat | a < cfg.Apps() && p < cfg.Ports() ensures !PortBusy(Next(cfg, s, i), a, p) { PortStaysIdle(cfg, s, i, a, p); }
  }

  lemma NothingAsked(cfg: Config, s: State, i: Input, h: Hist, a: nat, p: nat)
    requires Draining(i)
    ensures NextHist(cfg, s, i, h).acc(a, p) == h.acc(a, p)
  {
    assert i.req(a, p) == None;
  }

  /** A cycle without new requests does some of the work or finds none. */
  lemma DrainStep(cfg: Config, cells: nat -> (nat -> Word), s: State, i: Input, h: Hist, n: nat)
    requires Sized(cfg) && Inv(cfg, cells, s, h) && Draining(i) && (!Busy(cfg, s) || Done(cfg, h) >= n)
    ensures !Busy(cfg, Next(cfg, s, i)) || Done(cfg, NextHist(cfg, s, i, h)) >= n + 1
  {
    assert Willing(i);
    hide Busy, Moves, Done, Next, NextHist, Inv, Draining, Willing;
    if Busy(cfg, s) {
      SomethingMoves(cfg, cells, s, i, h);
      DoneGrows(cfg, s, i, h);
    } else {
      StaysIdle(cfg, s, i);
    }
  }

  ghost predicate AllDraining(more: seq<Input>) { forall k :: 0 <= k < |more| ==> Draining(more[k]) }

  lemma RunAppend(cfg: Config, cells: nat -> (nat -> Word), ins: seq<Input>, i: Input)
    ensures Run(cfg, cells, ins + [i]) == Next(cfg, Run(cfg, cells, ins), i)
    ensures HistOf(cfg, cells, ins + [i]) == NextHist(cfg, Run(cfg, cells, ins), i, HistOf(cfg, cells, ins))
  {
    assert (ins + [i])[..|ins + [i]| - 1] == ins;
  }

  lemma {:induction false} DrainsBy(cfg: Config, cells: nat -> (nat -> Word), ins: seq<Input>, more: seq<Input>)
    requires Sized(cfg) && AllDraining(more)
    ensures !Busy(cfg, Run(cfg, cells, ins + more)) || Done(cfg, HistOf(cfg, cells, ins + more)) >= |more|
    ensures forall a: nat, p: nat :: HistOf(cfg, cells, ins + more).acc(a, p) == HistOf(cfg, cells, ins).acc(a, p)
  {
    if more == [] {
      assert ins + more == ins;
    } else {
      var before, i := more[..|more| - 1], more[|more| - 1];
      assert ins + more == (ins + before) + [i];
      hide Run, HistOf, Busy, Done, Next, NextHist, Inv, Draining;
      DrainsBy(cfg, cells, ins, before);
      RunAppend(cfg, cells, ins + before, i);
      Reachable(cfg, cells, ins + before);
      var s, h := Run(cfg, cells, ins + before), HistOf(cfg, cells, ins + before);
      DrainStep(cfg, cells, s, i, h, |before|);
      forall a: nat, p: nat ensures NextHist(cfg, s, i, h).acc(a, p) == h.acc(a, p) { NothingAsked(cfg, s, i, h, a, p); }
    }
  }

  /** Four steps at the port and four on the way for every request accepted so far; the second
      part is counted once per channel, which is generous. */
  function Enough(cfg: Config, h: Hist): nat { 4 * Asked(cfg, h) + cfg.Channels() * (4 * Asked(cfg, h)) }

  lemma SameAsked(cfg: Config, h: Hist, h': Hist)
    requires forall a: nat, p: nat :: h'.acc(a, p) == h.acc(a, p)
    ensures Enough(cfg, h') == Enough(cfg, h)
  {
    GridGrows(cfg, AccCount(h), AccCount(h'));
    GridGrows(cfg, AccCount(h'), AccCount(h));
  }

  /** Every accepted read is answered: after any run whatsoever, once the ports have asked nothing
      new for more than `Enough` cycles while they took their responses and the memories served,
      nothing is left inside, and every port has the answers to all its reads. */
  lemma EverythingIsAnswered(cfg: Config, cells: nat -> (nat -> Word), ins: seq<Input>, more: seq<Input>, a: nat, p: nat)
    requires Sized(cfg) && AllDraining(more) && |more| > Enough(cfg, HistOf(cfg, cells, ins))
    requires a < cfg.Apps() && p < cfg.Ports()
    ensures !Busy(cfg, Run(cfg, cells, ins + more))
    ensures AllAccepted(cfg, cells, ins + more, a, p) == AllAccepted(cfg, cells, ins, a, p)
    ensures Map(AllDelivered(cfg, cells, ins + more, a, p), SizeOf()) == ReadSizes(AllAccepted(cfg, cells, ins, a, p))
  {
    var s, h := Run(cfg, cells, ins + more), HistOf(cfg, cells, ins + more);
    hide Run, HistOf, Done, Inv, AllDraining, AllAccepted, AllDelivered, ReadSizes, PortBusy;
    DrainsBy(cfg, cells, ins, more);
    SameAsked(cfg, HistOf(cfg, cells, ins), h);
    Reachable(cfg, cells, ins + more);
    DoneAtMost(cfg, cells, s, h);
    HistIsObserved(cfg, cells, ins, a, p);
    HistIsObserved(cfg, cells, ins + more, a, p);
    InOrderExactlyOnce(cfg, cells, ins + more, a, p);
    assert !PortBusy(s, a, p);
    NothingQueued(s, a, p);
    LengthOfMap(AllDelivered(cfg, cells, ins + more, a, p), SizeOf());
  }

  lemma NothingQueued(s: State, a: nat, p: nat)
    requires !PortBusy(s, a, p)
    ensures Queued(s, a, p) == 0 && s.rm(a, p).outQ == [] && s.rm(a, p).tagQ == []
  {
  }
}
