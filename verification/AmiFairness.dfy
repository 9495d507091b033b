/** Turns are taken in the whole memory system: whoever keeps asking a merger or a channel arbiter
    is served before as many others have been as there are requesters. */
module AmiFairness {
  import opened Streams
  import opened AmiTypes
  import opened Ami
  import opened AmiFlow
  import opened AmiDelivery
  import AmiProgress
  import Fifo
  import Arbiter

  // The trees keep their shape.

  lemma {:induction false} TreesStayComplete(cfg: Config, cells: nat -> (nat -> Word), ins: seq<Input>, a: nat, c: nat)
    ensures Arbiter.Complete(Run(cfg, cells, ins).mg(a, c).arb, cfg.portBits)
    ensures Arbiter.Complete(Run(cfg, cells, ins).ca(c).arb, cfg.appBits)
  {
    if ins != [] {
      var before := ins[..|ins| - 1];
      var s := Run(cfg, cells, before);
      TreesStayComplete(cfg, cells, before, a, c);
      StepOfComplete(s.mg(a, c).arb, PortReqs(cfg, s, a, c), cfg.portBits);
      StepOfComplete(s.ca(c).arb, AppReqs(cfg, s, c), cfg.appBits);
    }
  }

  lemma StepOfComplete(t: Arbiter.Tree, req: seq<bool>, depth: nat)
    requires Arbiter.Complete(t, depth)
    ensures Arbiter.Complete(StepOf(t, req), depth)
  {
    if |req| == Arbiter.Width(t) { Arbiter.StepComplete(t, req, true, depth); }
  }

  /** Rank falls when somebody else is served and stays when nobody is. */
  lemma RankFalls(t: Arbiter.Tree, req: seq<bool>, i: nat)
    requires |req| == Arbiter.Width(t) && i < |req| && PickOf(t, req) != Some(i)
    requires req[i] || forall k :: 0 <= k < |req| ==> !req[k]
    ensures Arbiter.Rank(StepOf(t, req), i) + (if PickOf(t, req).Some? then 1 else 0) <= Arbiter.Rank(t, i)
  {
    if req[i] {
      Arbiter.PassedOver(t, req, i);
    } else {
      assert true !in req;
      Arbiter.NobodyAsks(t, req);
    }
  }

  // The ports of an application at one of its mergers.

  /** How many requests the merger took from cycle `from` on. */
  function MergeTakes(cfg: Config, cells: nat -> (nat -> Word), ins: seq<Input>, from: nat, a: nat, c: nat): nat {
    if |ins| <= from then 0
    else
      var before := ins[..|ins| - 1];
      MergeTakes(cfg, cells, before, from, a, c) + (if MergeIn(cfg, Run(cfg, cells, before), a, c).Some? then 1 else 0)
  }

  ghost predicate PortAsks(cfg: Config, cells: nat -> (nat -> Word), ins: seq<Input>, from: nat, a: nat, p: nat, c: nat) {
    forall k :: from <= k < |ins| ==> Asks(Offer(cfg, Run(cfg, cells, ins[..k]), a, p), c)
  }

  /** The merger takes port `p`'s request in some cycle from `from` on. */
  ghost predicate PortServed(cfg: Config, cells: nat -> (nat -> Word), ins: seq<Input>, from: nat, a: nat, p: nat, c: nat) {
    exists k :: from <= k < |ins| && PortTurn(cfg, Run(cfg, cells, ins[..k]), a, p, c)
  }

  predicate PortTurn(cfg: Config, s: State, a: nat, p: nat, c: nat) {
    PortPick(cfg, s, a, c) == Some(p) && Forwarded(cfg, s, a, p) && MergeIn(cfg, s, a, c) == Offer(cfg, s, a, p)
  }

  /** A port that offers asks when there is room; when there is none nobody does. */
  lemma OfferAsks(cfg: Config, s: State, a: nat, p: nat, c: nat)
    requires p < cfg.Ports() && Asks(Offer(cfg, s, a, p), c)
    ensures var req := PortReqs(cfg, s, a, c);
            |req| == cfg.Ports() && (req[p] || forall k :: 0 <= k < |req| ==> !req[k])
  {
    hide Offer, Asks;
    var req := PortReqs(cfg, s, a, c);
    if |s.mg(a, c).reqQ| >= cfg.mergeDepth {
      forall k | 0 <= k < |req| ensures !req[k] {}
    }
  }

  lemma PortRankFalls(cfg: Config, s: State, i: Input, a: nat, p: nat, c: nat)
    requires Arbiter.Complete(s.mg(a, c).arb, cfg.portBits) && p < cfg.Ports() && c < cfg.Channels()
    requires Asks(Offer(cfg, s, a, p), c) && !PortTurn(cfg, s, a, p, c)
    ensures p < Arbiter.Width(s.mg(a, c).arb) == Arbiter.Width(Next(cfg, s, i).mg(a, c).arb)
    ensures Arbiter.Rank(Next(cfg, s, i).mg(a, c).arb, p) + (if MergeIn(cfg, s, a, c).Some? then 1 else 0)
         <= Arbiter.Rank(s.mg(a, c).arb, p)
  {
    Arbiter.CompleteWidth(s.mg(a, c).arb, cfg.portBits);
    hide Arbiter.Complete, Arbiter.Rank, Arbiter.Width;
    var req := PortReqs(cfg, s, a, c);
    assert PortPick(cfg, s, a, c) != Some(p);
    OfferAsks(cfg, s, a, p, c);
    RankFalls(s.mg(a, c).arb, req, p);
    if PortPick(cfg, s, a, c).Some? { assert req[PortPick(cfg, s, a, c).value]; }
  }

  lemma PortBefore(cfg: Config, cells: nat -> (nat -> Word), ins: seq<Input>, from: nat, a: nat, p: nat, c: nat)
    requires from < |ins| && PortAsks(cfg, cells, ins, from, a, p, c) && !PortServed(cfg, cells, ins, from, a, p, c)
    ensures var before := ins[..|ins| - 1];
            && before[..from] == ins[..from]
            && PortAsks(cfg, cells, before, from, a, p, c) && !PortServed(cfg, cells, before, from, a, p, c)
            && Asks(Offer(cfg, Run(cfg, cells, before), a, p), c) && !PortTurn(cfg, Run(cfg, cells, before), a, p, c)
  {
    hide Run, Asks, PortTurn;
    var before := ins[..|ins| - 1];
    assert forall k :: 0 <= k <= |before| ==> before[..k] == ins[..k];
  }

  lemma {:induction false} PortWaits(cfg: Config, cells: nat -> (nat -> Word), ins: seq<Input>, from: nat, a: nat, p: nat, c: nat)
    requires from <= |ins| && p < cfg.Ports() && c < cfg.Channels()
    requires PortAsks(cfg, cells, ins, from, a, p, c) && !PortServed(cfg, cells, ins, from, a, p, c)
    ensures p < Arbiter.Width(Run(cfg, cells, ins).mg(a, c).arb) && p < Arbiter.Width(Run(cfg, cells, ins[..from]).mg(a, c).arb)
    ensures Arbiter.Rank(Run(cfg, cells, ins).mg(a, c).arb, p) + MergeTakes(cfg, cells, ins, from, a, c)
         <= Arbiter.Rank(Run(cfg, cells, ins[..from]).mg(a, c).arb, p)
  {
    TreesStayComplete(cfg, cells, ins, a, c);
    Arbiter.CompleteWidth(Run(cfg, cells, ins).mg(a, c).arb, cfg.portBits);
    hide PortAsks, PortServed, PortTurn, Asks, Next, MergeIn, Arbiter.Complete, Arbiter.Rank, Arbiter.Width;
    if from == |ins| {
      assert ins[..from] == ins;
    } else {
      var before := ins[..|ins| - 1];
      PortBefore(cfg, cells, ins, from, a, p, c);
      TreesStayComplete(cfg, cells, before, a, c);
      PortWaits(cfg, cells, before, from, a, p, c);
      PortRankFalls(cfg, Run(cfg, cells, before), ins[|ins| - 1], a, p, c);
    }
  }

  /** No port starves: a port that keeps asking for a channel is served by the merger before it has
      taken as many requests as there are ports. */
  lemma PortIsServed(cfg: Config, cells: nat -> (nat -> Word), ins: seq<Input>, from: nat, a: nat, p: nat, c: nat)
    requires from <= |ins| && p < cfg.Ports() && c < cfg.Channels()
    requires PortAsks(cfg, cells, ins, from, a, p, c) && MergeTakes(cfg, cells, ins, from, a, c) >= Fifo.Pow2(cfg.portBits)
    ensures PortServed(cfg, cells, ins, from, a, p, c)
  {
    hide Run, MergeTakes, PortAsks;
    if !PortServed(cfg, cells, ins, from, a, p, c) {
      PortWaits(cfg, cells, ins, from, a, p, c);
      TreesStayComplete(cfg, cells, ins[..from], a, c);
      Arbiter.CompleteRank(Run(cfg, cells, ins[..from]).mg(a, c).arb, p, cfg.portBits);
    }
  }

  // The applications at a channel arbiter.

  function ArbTakes(cfg: Config, cells: nat -> (nat -> Word), ins: seq<Input>, from: nat, c: nat): nat {
    if |ins| <= from then 0
    else
      var before := ins[..|ins| - 1];
      ArbTakes(cfg, cells, before, from, c) + (if ArbIn(cfg, Run(cfg, cells, before), c).Some? then 1 else 0)
  }

  /** The application's oldest request could be taken if there were room for it: a read needs room
      for its tag. */
  predicate HeadReady(cfg: Config, s: State, a: nat, c: nat) {
    s.mg(a, c).reqQ != [] && (s.mg(a, c).reqQ[0].isWrite || |s.ca(c).tagQ| < cfg.arbTagDepth)
  }

  ghost predicate AppAsks(cfg: Config, cells: nat -> (nat -> Word), ins: seq<Input>, from: nat, a: nat, c: nat) {
    forall k :: from <= k < |ins| ==> HeadReady(cfg, Run(cfg, cells, ins[..k]), a, c)
  }

  ghost predicate AppServed(cfg: Config, cells: nat -> (nat -> Word), ins: seq<Input>, from: nat, a: nat, c: nat) {
    exists k :: from <= k < |ins| && AppTurn(cfg, Run(cfg, cells, ins[..k]), a, c)
  }

  predicate AppTurn(cfg: Config, s: State, a: nat, c: nat) {
    s.mg(a, c).reqQ != [] && AppPick(cfg, s, c) == Some(a) && ArbIn(cfg, s, c) == Some(s.mg(a, c).reqQ[0])
  }

  /** An application that is ready asks when there is room; when there is none nobody does. */
  lemma ReadyAsks(cfg: Config, s: State, a: nat, c: nat)
    requires a < cfg.Apps() && HeadReady(cfg, s, a, c)
    ensures var req := AppReqs(cfg, s, c);
            |req| == cfg.Apps() && (req[a] || forall k :: 0 <= k < |req| ==> !req[k])
  {
    var req := AppReqs(cfg, s, c);
    if |s.ca(c).reqQ| >= cfg.arbReqDepth {
      forall k | 0 <= k < |req| ensures !req[k] { assert !Wants(cfg, s.ca(c), s.mg(k, c).reqQ); }
    }
  }

  lemma AppRankFalls(cfg: Config, s: State, i: Input, a: nat, c: nat)
    requires Arbiter.Complete(s.ca(c).arb, cfg.appBits) && a < cfg.Apps()
    requires HeadReady(cfg, s, a, c) && !AppTurn(cfg, s, a, c)
    ensures a < Arbiter.Width(s.ca(c).arb) == Arbiter.Width(Next(cfg, s, i).ca(c).arb)
    ensures Arbiter.Rank(Next(cfg, s, i).ca(c).arb, a) + (if ArbIn(cfg, s, c).Some? then 1 else 0)
         <= Arbiter.Rank(s.ca(c).arb, a)
  {
    Arbiter.CompleteWidth(s.ca(c).arb, cfg.appBits);
    hide Arbiter.Complete, Arbiter.Rank, Arbiter.Width;
    var req := AppReqs(cfg, s, c);
    assert AppPick(cfg, s, c) != Some(a);
    ReadyAsks(cfg, s, a, c);
    RankFalls(s.ca(c).arb, req, a);
  }

  lemma AppBefore(cfg: Config, cells: nat -> (nat -> Word), ins: seq<Input>, from: nat, a: nat, c: nat)
    requires from < |ins| && AppAsks(cfg, cells, ins, from, a, c) && !AppServed(cfg, cells, ins, from, a, c)
    ensures var before := ins[..|ins| - 1];
            && before[..from] == ins[..from]
            && AppAsks(cfg, cells, before, from, a, c) && !AppServed(cfg, cells, before, from, a, c)
            && HeadReady(cfg, Run(cfg, cells, before), a, c) && !AppTurn(cfg, Run(cfg, cells, before), a, c)
  {
    hide Run, HeadReady, AppTurn;
    var before := ins[..|ins| - 1];
    assert forall k :: 0 <= k <= |before| ==> before[..k] == ins[..k];
  }

  lemma {:induction false} AppWaits(cfg: Config, cells: nat -> (nat -> Word), ins: seq<Input>, from: nat, a: nat, c: nat)
    requires from <= |ins| && a < cfg.Apps()
    requires AppAsks(cfg, cells, ins, from, a, c) && !AppServed(cfg, cells, ins, from, a, c)
    ensures a < Arbiter.Width(Run(cfg, cells, ins).ca(c).arb) && a < Arbiter.Width(Run(cfg, cells, ins[..from]).ca(c).arb)
    ensures Arbiter.Rank(Run(cfg, cells, ins).ca(c).arb, a) + ArbTakes(cfg, cells, ins, from, c)
         <= Arbiter.Rank(Run(cfg, cells, ins[..from]).ca(c).arb, a)
  {
    TreesStayComplete(cfg, cells, ins, a, c);
    Arbiter.CompleteWidth(Run(cfg, cells, ins).ca(c).arb, cfg.appBits);
    hide AppAsks, AppServed, AppTurn, HeadReady, Next, ArbIn, Arbiter.Complete, Arbiter.Rank, Arbiter.Width;
    if from == |ins| {
      assert ins[..from] == ins;
    } else {
      var before := ins[..|ins| - 1];
      AppBefore(cfg, cells, ins, from, a, c);
      TreesStayComplete(cfg, cells, before, a, c);
      AppWaits(cfg, cells, before, from, a, c);
      AppRankFalls(cfg, Run(cfg, cells, before), ins[|ins| - 1], a, c);
    }
  }

  /** No application starves: one whose oldest request can be taken is served before the channel
      arbiter has taken as many requests as there are applications. */
  lemma AppIsServed(cfg: Config, cells: nat -> (nat -> Word), ins: seq<Input>, from: nat, a: nat, c: nat)
    requires from <= |ins| && a < cfg.Apps()
    requires AppAsks(cfg, cells, ins, from, a, c) && ArbTakes(cfg, cells, ins, from, c) >= Fifo.Pow2(cfg.appBits)
    ensures AppServed(cfg, cells, ins, from, a, c)
  {
    hide Run, ArbTakes, AppAsks;
    if !AppServed(cfg, cells, ins, from, a, c) {
      AppWaits(cfg, cells, ins, from, a, c);
      TreesStayComplete(cfg, cells, ins[..from], a, c);
      Arbiter.CompleteRank(Run(cfg, cells, ins[..from]).ca(c).arb, a, cfg.appBits);
    }
  }

  // Nothing waits without need.

  /** A port is heard in the cycles in which it is enabled and there is room, and given its oldest
      response in those in which it is enabled and takes; a disabled port is silent. */
  lemma PortHandshake(cfg: Config, cells: nat -> (nat -> Word), ins: seq<Input>, i: Input, a: nat, p: nat)
    ensures var s := Run(cfg, cells, ins);
            && AllAccepted(cfg, cells, ins + [i], a, p)
               == AllAccepted(cfg, cells, ins, a, p)
                + (if i.enabled(a, p) && |s.xl(a, p).reqQ| < cfg.xlatDepth then Opt(i.req(a, p)) else [])
            && AllDelivered(cfg, cells, ins + [i], a, p)
               == AllDelivered(cfg, cells, ins, a, p)
                + (if i.enabled(a, p) && i.take(a, p) && s.rm(a, p).outQ != [] then [s.rm(a, p).outQ[0]] else [])
  {
    assert (ins + [i])[..|ins + [i]| - 1] == ins;
  }

  /** A port's oldest translated request is offered unless it reads and there is no room for its tag;
      a merger takes a request whenever it has room and some port offers one; a channel arbiter whenever
      it has room and some application's oldest request is ready. */
  lemma RequestsMove(cfg: Config, cells: nat -> (nat -> Word), ins: seq<Input>, a: nat, p: nat, c: nat)
    ensures var s := Run(cfg, cells, ins);
            && (NewXld(cfg, s, a, p) != [] <==> s.xl(a, p).reqQ != [] && |s.xl(a, p).xlatedQ| < cfg.xlatedDepth)
            && (Offer(cfg, s, a, p).Some?
                <==> s.xl(a, p).xlatedQ != [] && (s.xl(a, p).xlatedQ[0].isWrite || |s.rm(a, p).tagQ| < cfg.tagDepth))
            && (MergeIn(cfg, s, a, c).Some?
                <==> |s.mg(a, c).reqQ| < cfg.mergeDepth && exists q: nat :: q < cfg.Ports() && Asks(Offer(cfg, s, a, q), c))
            && (ArbIn(cfg, s, c).Some?
                <==> |s.ca(c).reqQ| < cfg.arbReqDepth && exists b: nat :: b < cfg.Apps() && HeadReady(cfg, s, b, c))
  {
    var s := Run(cfg, cells, ins);
    TreesStayComplete(cfg, cells, ins, a, c);
    Arbiter.CompleteWidth(s.mg(a, c).arb, cfg.portBits);
    Arbiter.CompleteWidth(s.ca(c).arb, cfg.appBits);
    hide Run, Arbiter.Complete, Arbiter.Width;
    MergeMoves(cfg, s, a, c);
    ArbMoves(cfg, s, c);
  }

  lemma MergeMoves(cfg: Config, s: State, a: nat, c: nat)
    requires Arbiter.Width(s.mg(a, c).arb) == cfg.Ports()
    ensures MergeIn(cfg, s, a, c).Some?
       <==> |s.mg(a, c).reqQ| < cfg.mergeDepth && exists q: nat :: q < cfg.Ports() && Asks(Offer(cfg, s, a, q), c)
  {
    hide Offer, Arbiter.Width;
    var req := PortReqs(cfg, s, a, c);
    assert forall q: nat :: q < cfg.Ports() ==> (req[q] <==> Asks(Offer(cfg, s, a, q), c) && |s.mg(a, c).reqQ| < cfg.mergeDepth);
    if q: nat :| q < cfg.Ports() && req[q] { AmiProgress.PickSome(s.mg(a, c).arb, req, q); }
    if PortPick(cfg, s, a, c).Some? { assert req[PortPick(cfg, s, a, c).value]; }
  }

  lemma ArbMoves(cfg: Config, s: State, c: nat)
    requires Arbiter.Width(s.ca(c).arb) == cfg.Apps()
    ensures ArbIn(cfg, s, c).Some?
       <==> |s.ca(c).reqQ| < cfg.arbReqDepth && exists b: nat :: b < cfg.Apps() && HeadReady(cfg, s, b, c)
  {
    hide Arbiter.Width;
    var req := AppReqs(cfg, s, c);
    assert forall b: nat :: b < cfg.Apps() ==> (req[b] <==> HeadReady(cfg, s, b, c) && |s.ca(c).reqQ| < cfg.arbReqDepth);
    if b: nat :| b < cfg.Apps() && req[b] { AmiProgress.PickSome(s.ca(c).arb, req, b); }
    if AppPick(cfg, s, c).Some? { assert req[AppPick(cfg, s, c).value]; }
  }

  /** A channel arbiter's oldest request goes to the memory whenever that accepts; a channel memory
      performs its oldest operation whenever it serves, unless that reads and there is
      no room for the response; a port's merger moves a response on whenever there is room for it and
      the one its oldest tag waits for is there. */
  lemma ResponsesMove(cfg: Config, cells: nat -> (nat -> Word), ins: seq<Input>, i: Input, a: nat, p: nat, c: nat)
    ensures var s := Run(cfg, cells, ins);
            && NewSnt(s, i, c) == (if i.accept(c) && s.ca(c).reqQ != [] then [s.ca(c).reqQ[0]] else [])
            && (Served(cfg, s, i, c) != []
                <==> i.serve(c) && s.mem(c).pend != [] && (s.mem(c).pend[0].isWrite || |s.ca(c).respQ| < cfg.arbRespDepth))
            && (MergeOut(cfg, s.rm(a, p)).Some?
                <==> |s.rm(a, p).outQ| < cfg.outDepth && s.rm(a, p).tagQ != [] && s.rm(a, p).chanQ(s.rm(a, p).tagQ[0].channel) != [])
  {
    var s, h := Run(cfg, cells, ins), HistOf(cfg, cells, ins);
    Reachable(cfg, cells, ins);
    hide Run, HistOf;
    MergerMoves(cfg, cells, s, h, a, p);
  }

  lemma MergerMoves(cfg: Config, cells: nat -> (nat -> Word), s: State, h: Hist, a: nat, p: nat)
    requires Inv(cfg, cells, s, h)
    ensures MergeOut(cfg, s.rm(a, p)).Some?
       <==> |s.rm(a, p).outQ| < cfg.outDepth && s.rm(a, p).tagQ != [] && s.rm(a, p).chanQ(s.rm(a, p).tagQ[0].channel) != []
  {
    assert TagFlow(cfg, s, h, a, p);
    forall c: nat ensures s.rm(a, p).chanQ(c) != [] ==> s.rm(a, p).chanQ(c)[0].channel == c {
      assert ReturnFlow(s, h, a, p, c);
      WaitsWhereItBelongs(s, h, a, p, c);
    }
    if s.rm(a, p).tagQ != [] { AmiProgress.TagOnChannel(cfg, s, h, a, p); }
    hide Inv, TagFlow;
    PickIs(cfg, s.rm(a, p));
  }

  lemma PickIs(cfg: Config, r: RespMerge)
    requires forall c: nat :: r.chanQ(c) != [] ==> r.chanQ(c)[0].channel == c
    requires r.tagQ != [] ==> r.tagQ[0].channel < cfg.Channels()
    ensures MergeOut(cfg, r).Some? <==> |r.outQ| < cfg.outDepth && r.tagQ != [] && r.chanQ(r.tagQ[0].channel) != []
  {
    if MergePick(cfg, r).Some? {
      assert MergeGrant(cfg, r, MergePick(cfg, r).value);
    } else if r.tagQ != [] {
      assert !MergeGrant(cfg, r, r.tagQ[0].channel);
    }
  }

  lemma WaitsWhereItBelongs(s: State, h: Hist, a: nat, p: nat, c: nat)
    requires ReturnFlow(s, h, a, p, c)
    ensures s.rm(a, p).chanQ(c) != [] ==> s.rm(a, p).chanQ(c)[0].channel == c
  {
    if s.rm(a, p).chanQ(c) != [] {
      var x := s.rm(a, p).chanQ(c)[0];
      assert x in Filter(h.rtd(c), ToUnit(a, p));
      FilterMember(h.rtd(c), x, ToUnit(a, p));
    }
  }

  /** What a channel memory sees is what its arbiter took, field by field and in order. */
  lemma MemorySees(cfg: Config, cells: nat -> (nat -> Word), ins: seq<Input>, c: nat, k: nat)
    ensures var s, h := Run(cfg, cells, ins), HistOf(cfg, cells, ins);
            var seen := h.don(c) + s.mem(c).pend;
            k < |seen| ==> k < |h.log(c)|
                           && seen[k] == MemReq(h.log(c)[k].isWrite, h.log(c)[k].addr, h.log(c)[k].data, h.log(c)[k].size)
  {
    Reachable(cfg, cells, ins);
    var s, h := Run(cfg, cells, ins), HistOf(cfg, cells, ins);
    assert ChannelFlow(cfg, cells, s, h, c);
    hide *;
    SentIsSeen(cfg, cells, s, h, c, k);
  }

  lemma SentIsSeen(cfg: Config, cells: nat -> (nat -> Word), s: State, h: Hist, c: nat, k: nat)
    requires ChannelFlow(cfg, cells, s, h, c)
    ensures var seen := h.don(c) + s.mem(c).pend;
            k < |seen| ==> k < |h.log(c)|
                           && seen[k] == MemReq(h.log(c)[k].isWrite, h.log(c)[k].addr, h.log(c)[k].data, h.log(c)[k].size)
  {
    var seen := h.don(c) + s.mem(c).pend;
    assert seen == Map(h.snt(c), Strip());
    hide ChannelFlow, ApplyAll;
    if k < |seen| { assert seen[k] == Strip()(h.snt(c)[k]); }
  }
}
