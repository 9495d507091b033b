/** Host, bridge, front end and applications together: whatever the cycles look like, the
    applications see the host's calls, and the host sees their answers. */
module HostRoundTrip {
  import opened Streams
  import Fifo
  import opened Arbiter
  import opened AxiLite
  import opened SoftReg
  import opened HostRegisters

  // The next request is the next call.

  lemma RequestsPrefix(calls: seq<Call>, u: nat)
    requires AllLegal(calls) && u <= |calls|
    ensures AllLegal(calls[..u]) && Requests(calls[..u]) == Requests(calls)[..u]
  {
  }

  lemma WriteNext(calls: seq<Call>, i: nat, s: Bridge, h: Hist)
    requires AllLegal(calls) && Follows(calls, i, h) && WriteSide(s, h) && WriteReq(s).Some?
    requires h.sent <= Requests(calls)
    requires |Reads(Requests(calls[..i]))| <= |Reads(h.sent)|
    ensures |h.sent| < |calls| && Requests(calls)[|h.sent|] == WriteReq(s).value
  {
    hide Evens, Odds, Filter, AwStream, WStream, ArStream, Combine, LowHalf, HighHalf, Requests;
    var u, k, t := Upto(calls, i), |Writes(h.sent)|, Requests(calls);
    EvensPrefix(h.aws, AwStream(calls[..u]));
    EvensPrefix(h.ws, WStream(calls[..u]));
    AwStreamIs(calls[..u]);
    WStreamIs(calls[..u]);
    var x := Writes(Requests(calls[..u]))[k];
    WritesAreWrites(Requests(calls[..u]), k);
    assert Evens(h.aws)[k] == Evens(AwStream(calls[..u]))[k] == AddrOf(x);
    assert Evens(h.ws)[k] == Evens(WStream(calls[..u]))[k] == LowOf(x);
    assert Odds(h.ws)[k] == Odds(WStream(calls[..u]))[k] == HighOf(x);
    Halves(0, 0, x.data);
    assert WriteReq(s).value == x;
    RequestsPrefix(calls, u);
    RequestsPrefix(calls, i);
    assert h.sent == t[..|h.sent|];
    NextOfKind(t, IsWrite, IsRead, |h.sent|, i, u);
  }

  lemma WritesAreWrites(t: seq<SrReq>, k: nat)
    ensures k < |Writes(t)| ==> Writes(t)[k].Write?
    ensures k < |Reads(t)| ==> Reads(t)[k].Read?
  {
    if k < |Writes(t)| { FilterMember(t, Writes(t)[k], IsWrite); }
    if k < |Reads(t)| { FilterMember(t, Reads(t)[k], IsRead); }
  }

  lemma ReadNext(calls: seq<Call>, i: nat, s: Bridge, h: Hist)
    requires AllLegal(calls) && Follows(calls, i, h) && WriteSide(s, h) && ReadSide(s, h)
    requires WriteReq(s).None? && ReadReq(s).Some?
    requires h.sent <= Requests(calls)
    ensures |h.sent| < |calls| && Requests(calls)[|h.sent|] == ReadReq(s).value
  {
    hide Evens, Odds, Filter, AwStream, WStream, ArStream, Combine, Requests;
    var u, k, t := Upto(calls, i), |Reads(h.sent)|, Requests(calls);
    assert |Writes(Requests(calls[..i]))| <= |Writes(h.sent)| by {
      ReadWaits(s, h);
      AwStreamIs(calls[..i]);
      WStreamIs(calls[..i]);
    }
    EvensPrefix(h.ars, ArStream(calls[..u]));
    ArStreamIs(calls[..u]);
    WritesAreWrites(Requests(calls[..u]), k);
    assert Evens(h.ars)[k] == Evens(ArStream(calls[..u]))[k] == AddrOf(Reads(Requests(calls[..u]))[k]);
    assert ReadReq(s).value == Reads(Requests(calls[..u]))[k];
    RequestsPrefix(calls, u);
    RequestsPrefix(calls, i);
    assert h.sent == t[..|h.sent|];
    NextOfKind(t, IsRead, IsWrite, |h.sent|, i, u);
  }

  /** At most one read is without its answer. */
  lemma OneReadOpen(calls: seq<Call>, i: nat, s: Bridge, inp: In, h: Hist)
    requires AllLegal(calls) && Follows(calls, i, h) && ReadSide(s, h) && |h.beats| <= 2 * |h.resps|
    ensures |Reads(h.sent + Submitted(s, inp))| <= |Reads(Requests(calls[..i]))| + 1 <= |h.beats| / 2 + 1 <= |h.resps| + 1
  {
    hide Evens, Odds, Filter, AwStream, WStream, ArStream, Requests;
    var u := Upto(calls, i);
    ReadsRoom(s, inp, h);
    assert |Evens(h.ars)| <= |Reads(Requests(calls[..u]))| by {
      EvensPrefix(h.ars, ArStream(calls[..u]));
      ArStreamIs(calls[..u]);
    }
    if u == i + 1 {
      assert calls[..u][..i] == calls[..i];
      RequestsPush(calls[..u]);
    }
  }

  lemma ReadsRoom(s: Bridge, inp: In, h: Hist)
    requires ReadSide(s, h)
    ensures |Reads(h.sent + Submitted(s, inp))| <= |Evens(h.ars)|
  {
    hide Evens, Odds, Filter, Combine;
    SentPush(h.sent, Submitted(s, inp));
  }

  // The system of bridge, front end and applications.

  datatype Config = Config(depths: Depths, queueDepth: nat, apps: nat, enable: seq<bool>)

  predicate Sane(c: Config) {
    c.depths.resp > 0 && c.queueDepth > 0 && c.apps <= 8 && |c.enable| == c.apps
  }

  datatype Entry = Entry(app: nat, data: bv64)

  /** `log` is what the applications answered, in order: who, and the data. */
  datatype System = System(bridge: Bridge, front: Front, h: Hist, log: seq<Entry>)

  /** What the shell and the applications drive in one cycle. */
  datatype Cycle = Cycle(aw: Option<Half>, w: Option<Half>, bReady: bool, ar: Option<Half>, rReady: bool,
                         answers: seq<Option<bv64>>)

  predicate Built(c: Config, y: System) {
    Sane(c) && Wired(y.front) && |y.front.queues| == c.apps
  }

  /** The front end takes every request at once. */
  function BridgeIn(y: System, i: Cycle): In
    requires Wired(y.front)
  {
    In(i.aw, i.w, i.bReady, i.ar, i.rReady, true, Answer(y.front))
  }

  function Collect(answers: seq<Option<bv64>>): seq<Entry> {
    if answers == [] then []
    else
      var n := |answers| - 1;
      Collect(answers[..n]) + (if answers[n].Some? then [Entry(n, answers[n].value)] else [])
  }

  function NextSystem(c: Config, y: System, i: Cycle): System
    requires Built(c, y) && |i.answers| == c.apps
  {
    System(Next(c.depths, y.bridge, BridgeIn(y, i)), NextFront(y.front, c.queueDepth, c.enable, i.answers),
           Record(c.depths, y.bridge, BridgeIn(y, i), y.h), y.log + Collect(i.answers))
  }

  function IsFor(app: nat): SrReq -> bool
    requires app < 8
  {
    (r: SrReq) => RoutedTo(r.addr, app)
  }

  function IsFrom(app: nat): Entry -> bool {
    (e: Entry) => e.app == app
  }

  /** An application answers no more reads than it has been sent. */
  ghost predicate OnlyAsked(asked: seq<SrReq>, log: seq<Entry>, answers: seq<Option<bv64>>)
    requires |answers| <= 8
  {
    forall a :: 0 <= a < |answers| && answers[a].Some? ==> |Filter(log, IsFrom(a))| < |Filter(asked, IsFor(a))|
  }

  /** Reads and answers go in step: the k-th answer comes from the application the k-th read went
      to, the answers delivered are the oldest ones, and at most one is on its way. */
  ghost predicate InStep(asked: seq<SrReq>, resps: seq<bv64>, log: seq<Entry>, queues: seq<seq<bv64>>) {
    && |queues| <= 8 && |resps| <= |log| <= |asked| <= |resps| + 1
    && (forall k :: 0 <= k < |log| ==> FromItsApp(asked, log, queues, k))
    && (forall k :: 0 <= k < |resps| ==> resps[k] == log[k].data)
    && (forall a :: 0 <= a < |queues| ==>
          queues[a] == if |log| > |resps| && log[|resps|].app == a then [log[|resps|].data] else [])
  }

  ghost predicate FromItsApp(asked: seq<SrReq>, log: seq<Entry>, queues: seq<seq<bv64>>, k: nat)
    requires |queues| <= 8 && k < |log| <= |asked|
  {
    log[k].app < |queues| && RoutedTo(asked[k].addr, log[k].app)
  }

  lemma {:induction false} CountsMatch(asked: seq<SrReq>, log: seq<Entry>, queues: seq<seq<bv64>>, a: nat)
    requires |queues| <= 8 && a < 8 && |log| <= |asked|
    requires forall k :: 0 <= k < |log| ==> FromItsApp(asked, log, queues, k)
    ensures |Filter(asked[..|log|], IsFor(a))| == |Filter(log, IsFrom(a))|
  {
    if log != [] {
      var n := |log| - 1;
      forall k | 0 <= k < n ensures FromItsApp(asked, log[..n], queues, k) { assert FromItsApp(asked, log, queues, k); }
      CountsMatch(asked, log[..n], queues, a);
      assert asked[..n + 1] == asked[..n] + [asked[n]] && log == log[..n] + [log[n]];
      FilterPush(asked[..n], asked[n], IsFor(a));
      FilterPush(log[..n], log[n], IsFrom(a));
      assert FromItsApp(asked, log, queues, n);
      if RoutedTo(asked[n].addr, a) { RouteIsUnique(asked[n].addr, a, log[n].app); }
    }
  }

  /** Only the application of the one open read can answer. */
  lemma WhoAnswers(asked: seq<SrReq>, resps: seq<bv64>, log: seq<Entry>, queues: seq<seq<bv64>>,
                   answers: seq<Option<bv64>>, a: nat)
    requires InStep(asked, resps, log, queues) && |answers| == |queues|
    requires OnlyAsked(asked, log, answers) && a < |answers| && answers[a].Some?
    ensures |log| == |resps| && |asked| == |log| + 1 && RoutedTo(asked[|log|].addr, a)
  {
    CountsMatch(asked, log, queues, a);
    assert asked[..|asked|] == asked;
    if |asked| > |log| {
      assert asked == asked[..|log|] + [asked[|log|]];
      FilterPush(asked[..|log|], asked[|log|], IsFor(a));
    }
  }

  lemma {:induction false} CollectOne(answers: seq<Option<bv64>>, a: nat)
    requires forall b :: 0 <= b < |answers| && b != a ==> answers[b].None?
    ensures Collect(answers) == if a < |answers| && answers[a].Some? then [Entry(a, answers[a].value)] else []
  {
    if answers != [] {
      CollectOne(answers[..|answers| - 1], a);
    }
  }

  /** What leaves the front end, when reads and answers go in step. */
  lemma WhatLeaves(f: Front, asked: seq<SrReq>, resps: seq<bv64>, log: seq<Entry>)
    requires Wired(f) && InStep(asked, resps, log, f.queues)
    ensures Answer(f) == if |log| > |resps| then Some(log[|resps|].data) else None
    ensures Served(f) == if |log| > |resps| then Some(log[|resps|].app) else None
  {
    if |log| > |resps| {
      assert FromItsApp(asked, log, f.queues, |resps|);
      assert f.queues[log[|resps|].app] != [];
    }
  }

  predicate On(c: Config, a: nat)
    requires Sane(c)
  {
    a < c.apps && c.enable[a]
  }

  /** Reads go to enabled applications only. */
  ghost predicate Enabled(c: Config, asked: seq<SrReq>)
    requires Sane(c)
  {
    forall k: nat, a: nat :: k < |asked| && a < 8 && RoutedTo(asked[k].addr, a) ==> On(c, a)
  }

  /** Nobody answers: what was on its way is delivered. */
  lemma {:induction false} Quiet(c: Config, f: Front, asked: seq<SrReq>, resps: seq<bv64>, log: seq<Entry>, answers: seq<Option<bv64>>)
    requires Sane(c) && Wired(f) && |f.queues| == c.apps == |answers| && InStep(asked, resps, log, f.queues)
    requires forall a :: 0 <= a < |answers| ==> answers[a].None?
    ensures InStep(asked, resps + Opt(Answer(f)), log + Collect(answers), NextFront(f, c.queueDepth, c.enable, answers).queues)
  {
    hide Collect, Served, Answer;
    WhatLeaves(f, asked, resps, log);
    CollectOne(answers, 0);
    var f' := NextFront(f, c.queueDepth, c.enable, answers);
    assert log + Collect(answers) == log;
    forall k | 0 <= k < |log| ensures FromItsApp(asked, log, f'.queues, k) { assert FromItsApp(asked, log, f.queues, k); }
  }

  /** Somebody answers: it is the application of the one open read, and its queue takes it. */
  lemma {:induction false} Answering(c: Config, f: Front, asked: seq<SrReq>, resps: seq<bv64>, log: seq<Entry>,
                                     answers: seq<Option<bv64>>, a: nat)
    requires Sane(c) && Wired(f) && |f.queues| == c.apps == |answers| && InStep(asked, resps, log, f.queues)
    requires OnlyAsked(asked, log, answers) && Enabled(c, asked) && a < |answers| && answers[a].Some?
    ensures InStep(asked, resps + Opt(Answer(f)), log + Collect(answers), NextFront(f, c.queueDepth, c.enable, answers).queues)
  {
    hide Collect, Served, Answer, OnlyAsked;
    WhatLeaves(f, asked, resps, log);
    WhoAnswers(asked, resps, log, f.queues, answers, a);
    forall b | 0 <= b < |answers| && b != a ensures answers[b].None? {
      if answers[b].Some? {
        WhoAnswers(asked, resps, log, f.queues, answers, b);
        RouteIsUnique(asked[|log|].addr, a, b);
      }
    }
    CollectOne(answers, a);
    var f', log' := NextFront(f, c.queueDepth, c.enable, answers), log + [Entry(a, answers[a].value)];
    assert resps + Opt(Answer(f)) == resps;
    forall k | 0 <= k < |log'| ensures FromItsApp(asked, log', f'.queues, k) {
      if k < |log| { assert FromItsApp(asked, log, f.queues, k); }
    }
    assert f.queues[a] == [] && On(c, a);
    assert f'.queues[a] == [answers[a].value];
    assert log'[|resps|] == Entry(a, answers[a].value);
  }

  lemma FrontStep(c: Config, f: Front, asked: seq<SrReq>, resps: seq<bv64>, log: seq<Entry>, answers: seq<Option<bv64>>)
    requires Sane(c) && Wired(f) && |f.queues| == c.apps == |answers| && InStep(asked, resps, log, f.queues)
    requires OnlyAsked(asked, log, answers) && Enabled(c, asked)
    ensures InStep(asked, resps + Opt(Answer(f)), log + Collect(answers), NextFront(f, c.queueDepth, c.enable, answers).queues)
  {
    if a: nat :| a < |answers| && answers[a].Some? {
      Answering(c, f, asked, resps, log, answers, a);
    } else {
      Quiet(c, f, asked, resps, log, answers);
    }
  }

  /** Reads may be sent while at most one is open. */
  lemma AskMore(asked: seq<SrReq>, more: seq<SrReq>, resps: seq<bv64>, log: seq<Entry>, queues: seq<seq<bv64>>)
    requires InStep(asked, resps, log, queues) && |asked + more| <= |resps| + 1
    ensures InStep(asked + more, resps, log, queues)
  {
    forall k | 0 <= k < |log| ensures FromItsApp(asked + more, log, queues, k) { assert FromItsApp(asked, log, queues, k); }
  }

  // Runs.

  ghost predicate SystemInv(c: Config, calls: seq<Call>, y: System)
    requires AllLegal(calls)
  {
    && Built(c, y) && AxiLite.Inv(y.bridge, y.h)
    && y.h.sent <= Requests(calls)
    && InStep(Reads(y.h.sent), y.h.resps, y.log, y.front.queues)
  }

  /** Every slot called is one of the enabled applications. */
  predicate AllEnabled(c: Config, calls: seq<Call>)
    requires Sane(c)
  {
    forall k :: 0 <= k < |calls| ==> On(c, calls[k].slot)
  }

  /** The host completes its calls one by one, and applications answer only what they were asked. */
  ghost predicate WellBehaved(c: Config, calls: seq<Call>, y: System, i: Cycle)
    requires AllLegal(calls) && Built(c, y)
  {
    && |i.answers| == c.apps
    && (exists n: nat :: Follows(calls, n, y.h))
    && OnlyAsked(Reads(y.h.sent + Submitted(y.bridge, BridgeIn(y, i))), y.log, i.answers)
  }

  lemma SentIsCalls(c: Config, calls: seq<Call>, n: nat, y: System, i: Cycle)
    requires AllLegal(calls) && SystemInv(c, calls, y) && Follows(calls, n, y.h)
    ensures y.h.sent + Submitted(y.bridge, BridgeIn(y, i)) <= Requests(calls)
  {
    hide Evens, Odds, Filter, AwStream, WStream, ArStream, Combine, Requests, WriteReq, ReadReq, Answer;
    if WriteReq(y.bridge).Some? {
      WriteNext(calls, n, y.bridge, y.h);
    } else if ReadReq(y.bridge).Some? {
      ReadNext(calls, n, y.bridge, y.h);
    }
  }

  lemma CallsEnabled(c: Config, calls: seq<Call>, sent: seq<SrReq>)
    requires Sane(c) && AllLegal(calls) && AllEnabled(c, calls) && sent <= Requests(calls)
    ensures Enabled(c, Reads(sent))
  {
    hide RoutedTo, Filter;
    forall k: nat, a: nat | k < |Reads(sent)| && a < 8 && RoutedTo(Reads(sent)[k].addr, a) ensures On(c, a) {
      FilterMember(sent, Reads(sent)[k], IsRead);
      var j :| 0 <= j < |sent| && sent[j] == Reads(sent)[k];
      CallRoutes(calls[j], a);
      assert Requests(calls)[j] == RequestOf(calls[j]);
    }
  }

  /** The bridge has room for the one answer on its way. */
  lemma RoomForAnswer(c: Config, calls: seq<Call>, n: nat, y: System, i: Cycle)
    requires AllLegal(calls) && SystemInv(c, calls, y) && Follows(calls, n, y.h)
    ensures RespTaken(c.depths, y.bridge, BridgeIn(y, i)) == Opt(Answer(y.front))
    ensures |Reads(y.h.sent + Submitted(y.bridge, BridgeIn(y, i)))| <= |y.h.resps| + 1
  {
    hide Evens, Odds, Filter, AwStream, WStream, ArStream, Requests, Answer, Offered;
    OneReadOpen(calls, n, y.bridge, BridgeIn(y, i), y.h);
    SentPush(y.h.sent, Submitted(y.bridge, BridgeIn(y, i)));
    WhatLeaves(y.front, Reads(y.h.sent), y.h.resps, y.log);
  }

  lemma SystemStep(c: Config, calls: seq<Call>, y: System, i: Cycle)
    requires AllLegal(calls) && SystemInv(c, calls, y) && AllEnabled(c, calls) && WellBehaved(c, calls, y, i)
    ensures SystemInv(c, calls, NextSystem(c, y, i))
  {
    hide Filter, Requests, Answer, Offered, NextFront, InStep, Enabled, OnlyAsked, Collect, Follows, AllEnabled, AllLegal;
    hide AxiLite.Inv, Ahead, Writes, RespTaken, Beat;
    var n: nat :| Follows(calls, n, y.h);
    var inp := BridgeIn(y, i);
    var more, y' := Submitted(y.bridge, inp), NextSystem(c, y, i);
    assert AxiLite.Inv(y'.bridge, y'.h) by { InvStep(c.depths, y.bridge, inp, y.h); }
    assert y'.h.sent <= Requests(calls) by { SentIsCalls(c, calls, n, y, i); }
    assert y'.h.resps == y.h.resps + Opt(Answer(y.front)) by { RoomForAnswer(c, calls, n, y, i); }
    assert InStep(Reads(y'.h.sent), y'.h.resps, y'.log, y'.front.queues) by { StepsKept(c, calls, n, y, i); }
    assert Built(c, y') by { BuiltStep(c, y, i); }
  }

  lemma BuiltStep(c: Config, y: System, i: Cycle)
    requires Built(c, y) && |i.answers| == c.apps
    ensures Built(c, NextSystem(c, y, i))
  {
  }

  lemma StepsKept(c: Config, calls: seq<Call>, n: nat, y: System, i: Cycle)
    requires AllLegal(calls) && SystemInv(c, calls, y) && AllEnabled(c, calls) && WellBehaved(c, calls, y, i)
    requires Follows(calls, n, y.h)
    ensures InStep(Reads(y.h.sent + Submitted(y.bridge, BridgeIn(y, i))), y.h.resps + Opt(Answer(y.front)), y.log + Collect(i.answers),
                   NextFront(y.front, c.queueDepth, c.enable, i.answers).queues)
  {
    hide Filter, Requests, Answer, Offered, NextFront, InStep, Enabled, OnlyAsked, Collect, Follows, AllEnabled, AllLegal;
    hide AxiLite.Inv, Ahead, Writes, RespTaken;
    var more := Submitted(y.bridge, BridgeIn(y, i));
    SentIsCalls(c, calls, n, y, i);
    CallsEnabled(c, calls, y.h.sent + more);
    RoomForAnswer(c, calls, n, y, i);
    SentPush(y.h.sent, more);
    AskMore(Reads(y.h.sent), if more != [] && more[0].Read? then more else [], y.h.resps, y.log, y.front.queues);
    FrontStep(c, y.front, Reads(y.h.sent + more), y.h.resps, y.log, i.answers);
  }

  function Boot(logApps: nat): System
    requires logApps <= 3
  {
    System(RESET, Front(Reset(logApps), seq(Fifo.Pow2(logApps), _ => [])), START, [])
  }

  /** A run whose every cycle is well behaved. */
  ghost predicate Allowed(c: Config, logApps: nat, calls: seq<Call>, cycles: seq<Cycle>)
    requires logApps <= 3 && Sane(c) && c.apps == Fifo.Pow2(logApps) && AllLegal(calls)
    decreases |cycles|, 0
  {
    cycles == [] ||
    (var before := cycles[..|cycles| - 1];
     Allowed(c, logApps, calls, before) && WellBehaved(c, calls, After(c, logApps, calls, before), cycles[|cycles| - 1]))
  }

  ghost function After(c: Config, logApps: nat, calls: seq<Call>, cycles: seq<Cycle>): (y: System)
    requires logApps <= 3 && Sane(c) && c.apps == Fifo.Pow2(logApps) && AllLegal(calls)
    requires Allowed(c, logApps, calls, cycles)
    ensures Built(c, y)
    decreases |cycles|, 1
  {
    if cycles == [] then
      CompleteWidth(Reset(logApps), logApps);
      Boot(logApps)
    else NextSystem(c, After(c, logApps, calls, cycles[..|cycles| - 1]), cycles[|cycles| - 1])
  }

  lemma {:induction false} AfterInv(c: Config, logApps: nat, calls: seq<Call>, cycles: seq<Cycle>)
    requires logApps <= 3 && Sane(c) && c.apps == Fifo.Pow2(logApps) && AllLegal(calls) && AllEnabled(c, calls)
    requires Allowed(c, logApps, calls, cycles)
    ensures SystemInv(c, calls, After(c, logApps, calls, cycles))
  {
    if cycles != [] {
      AfterInv(c, logApps, calls, cycles[..|cycles| - 1]);
      SystemStep(c, calls, After(c, logApps, calls, cycles[..|cycles| - 1]), cycles[|cycles| - 1]);
    }
  }

  /** The k-th register request ever sent is the k-th call: the application with the call's slot
      number sees it at the call's address, and no other application sees it. */
  lemma CallsReachTheirApp(c: Config, logApps: nat, calls: seq<Call>, cycles: seq<Cycle>, k: nat, app: nat)
    requires logApps <= 3 && Sane(c) && c.apps == Fifo.Pow2(logApps) && AllLegal(calls) && AllEnabled(c, calls)
    requires Allowed(c, logApps, calls, cycles)
    requires k < |After(c, logApps, calls, cycles).h.sent| && app < c.apps
    ensures k < |calls|
    ensures Routed(Some(After(c, logApps, calls, cycles).h.sent[k]), app) == if app == calls[k].slot then Some(Meant(calls[k])) else None
  {
    hide Routed, RequestOf, Meant, AxiLite.Inv, InStep;
    AfterInv(c, logApps, calls, cycles);
    assert After(c, logApps, calls, cycles).h.sent[k] == Requests(calls)[k];
    CallRoutes(calls[k], app);
  }

  function ReadCalls(calls: seq<Call>): (r: seq<Call>)
    requires AllLegal(calls)
    ensures AllLegal(r)
  {
    if calls == [] then []
    else ReadCalls(calls[..|calls| - 1]) + (if calls[|calls| - 1].ReadCall? then [calls[|calls| - 1]] else [])
  }

  lemma {:induction false} ReadCallsAre(calls: seq<Call>)
    requires AllLegal(calls)
    ensures Reads(Requests(calls)) == Requests(ReadCalls(calls))
  {
    if calls != [] {
      hide BusAddr, Filter;
      RequestsPush(calls);
      ReadCallsAre(calls[..|calls| - 1]);
    }
  }

  /** The two beats of a finished read put together again. */
  lemma BeatPair(s: Bridge, h: Hist, k: nat)
    requires BeatSide(s, h) && 2 * k + 1 < |h.beats|
    ensures k < |h.resps| && Combine(h.beats[2 * k], h.beats[2 * k + 1]) == h.resps[k]
  {
  }

  lemma WhoAnswered(c: Config, calls: seq<Call>, y: System, k: nat)
    requires AllLegal(calls) && SystemInv(c, calls, y) && k < |y.log|
    ensures k < |ReadCalls(calls)| && y.log[k].app == ReadCalls(calls)[k].slot
  {
    hide RoutedTo, Filter, AxiLite.Inv, RequestOf, Requests;
    assert y.h.sent == Requests(calls)[..|y.h.sent|] && Requests(calls) == Requests(calls)[..|calls|];
    FilterPrefix(y.h.sent, Requests(calls), IsRead);
    ReadCallsAre(calls);
    assert FromItsApp(Reads(y.h.sent), y.log, y.front.queues, k);
    RequestAddr(ReadCalls(calls), k);
    CallRoutes(ReadCalls(calls)[k], y.log[k].app);
  }

  lemma RequestAddr(calls: seq<Call>, k: nat)
    requires AllLegal(calls) && k < |calls|
    ensures Requests(calls)[k].addr == BusAddr(calls[k].slot, calls[k].addr)
  {
  }

  /** The two beats of the k-th read are the 64 bits that the application in its slot answered. */
  lemma ReadsReturnTheAnswer(c: Config, logApps: nat, calls: seq<Call>, cycles: seq<Cycle>, k: nat)
    requires logApps <= 3 && Sane(c) && c.apps == Fifo.Pow2(logApps) && AllLegal(calls) && AllEnabled(c, calls)
    requires Allowed(c, logApps, calls, cycles)
    requires 2 * k + 1 < |After(c, logApps, calls, cycles).h.beats|
    ensures var y := After(c, logApps, calls, cycles);
            && k < |y.log| && k < |ReadCalls(calls)|
            && y.log[k].app == ReadCalls(calls)[k].slot
            && Combine(y.h.beats[2 * k], y.h.beats[2 * k + 1]) == y.log[k].data
  {
    hide Combine, LowHalf, HighHalf, RoutedTo, FromItsApp;
    AfterInv(c, logApps, calls, cycles);
    var y := After(c, logApps, calls, cycles);
    BeatPair(y.bridge, y.h, k);
    WhoAnswered(c, calls, y, k);
  }
}
