/** The round trip is there for every client: whatever the calls, and whatever the applications
    answer, there is a well-behaved run that finishes them all, in at most eight cycles a call. */
module HostCompletes {
  import opened Streams
  import Fifo
  import opened AxiLite
  import opened SoftReg
  import opened HostRegisters
  import opened HostRoundTrip
  import opened HostProgress

  function Silence(c: Config): seq<Option<bv64>> { seq(c.apps, _ => None) }

  function At(s: seq<Half>, k: nat): Option<Half> { if k < |s| then Some(s[k]) else None }

  /** The `k`-th beats of a call, on whichever channels it uses. */
  function BeatsOf(c: Config, call: Call, k: nat): Cycle
    requires call.slot < 8
  {
    Cycle(At(AwOf(call), k), At(WOf(call), k), true, At(ArOf(call), k), true, Silence(c))
  }

  /** Nothing happens but what was under way. */
  function Rest(c: Config): Cycle { Cycle(None, None, true, None, true, Silence(c)) }

  /** One application answers. */
  function Reply(c: Config, app: nat, value: bv64): Cycle
    requires app < c.apps
  {
    Rest(c).(answers := Silence(c)[app := Some(value)])
  }

  /** A run that can be extended: what `After` and `Allowed` say, by name. */
  ghost predicate Runs(c: Config, logApps: nat, calls: seq<Call>, cycles: seq<Cycle>, y: System) {
    && logApps <= 3 && Sane(c) && c.apps == Fifo.Pow2(logApps) && AllLegal(calls) && AllEnabled(c, calls)
    && Allowed(c, logApps, calls, cycles) && y == After(c, logApps, calls, cycles)
  }

  lemma RunsInv(c: Config, logApps: nat, calls: seq<Call>, cycles: seq<Cycle>, y: System)
    requires Runs(c, logApps, calls, cycles, y)
    ensures SystemInv(c, calls, y) && KeepsUp(y.h)
  {
    AfterInv(c, logApps, calls, cycles);
    KeepsUpAlways(c, logApps, calls, cycles);
  }

  lemma RunsBuilt(c: Config, logApps: nat, calls: seq<Call>, cycles: seq<Cycle>, y: System)
    requires Runs(c, logApps, calls, cycles, y)
    ensures Built(c, y)
  {
  }

  lemma Grow(c: Config, logApps: nat, calls: seq<Call>, cycles: seq<Cycle>, i: Cycle)
    requires logApps <= 3 && Sane(c) && c.apps == Fifo.Pow2(logApps) && AllLegal(calls)
    requires Allowed(c, logApps, calls, cycles) && WellBehaved(c, calls, After(c, logApps, calls, cycles), i)
    ensures Allowed(c, logApps, calls, cycles + [i])
    ensures After(c, logApps, calls, cycles + [i]) == NextSystem(c, After(c, logApps, calls, cycles), i)
  {
    hide WellBehaved, NextSystem;
    assert (cycles + [i])[..|cycles + [i]| - 1] == cycles;
  }

  lemma RunOn(c: Config, logApps: nat, calls: seq<Call>, cycles: seq<Cycle>, y: System, i: Cycle)
    requires Runs(c, logApps, calls, cycles, y) && Built(c, y) && |i.answers| == c.apps && WellBehaved(c, calls, y, i)
    ensures Runs(c, logApps, calls, cycles + [i], NextSystem(c, y, i))
  {
    hide WellBehaved, NextSystem, Allowed, After, AllLegal, AllEnabled;
    Grow(c, logApps, calls, cycles, i);
  }

  lemma SilentBehaves(c: Config, calls: seq<Call>, y: System, n: nat, i: Cycle)
    requires AllLegal(calls) && Built(c, y) && Follows(calls, n, y.h) && i.answers == Silence(c)
    ensures WellBehaved(c, calls, y, i) && NextSystem(c, y, i).log == y.log
  {
    CollectOne(i.answers, 0);
    hide Follows, Submitted, BridgeIn, Filter, Next, Record, NextFront, Collect;
  }

  lemma RunOnSilent(c: Config, logApps: nat, calls: seq<Call>, cycles: seq<Cycle>, y: System, n: nat, i: Cycle, y': System)
    requires Runs(c, logApps, calls, cycles, y) && Built(c, y) && i.answers == Silence(c) && y' == NextSystem(c, y, i)
    requires Follows(calls, n, y.h)
    ensures Runs(c, logApps, calls, cycles + [i], y') && Built(c, y') && y'.log == y.log
  {
    assert |Silence(c)| == c.apps;
    assert AllLegal(calls);
    hide *;
    SilentBehaves(c, calls, y, n, i);
    RunOn(c, logApps, calls, cycles, y, i);
    RunsBuilt(c, logApps, calls, cycles + [i], y');
  }

  // Taking beats.

  /** The first `n` calls have been sent, and of the next at most one beat per channel is in. */
  ghost predicate Roomy(calls: seq<Call>, n: nat, h: Hist)
    requires AllLegal(calls) && n <= |calls|
  {
    && WritesIn(calls, n) <= |Writes(h.sent)| && ReadsIn(calls, n) <= |Reads(h.sent)|
    && |h.aws| <= 2 * WritesIn(calls, n) + 1 && |h.ws| <= 2 * WritesIn(calls, n) + 1 && |h.ars| <= 2 * ReadsIn(calls, n) + 1
  }

  predicate Deep(d: Depths) { d.addr > 1 && d.data > 1 && d.req > 1 }

  lemma AllReady(d: Depths, calls: seq<Call>, n: nat, s: Bridge, h: Hist)
    requires AllLegal(calls) && n <= |calls| && Deep(d) && Roomy(calls, n, h) && WriteSide(s, h) && ReadSide(s, h)
    ensures AwReady(d, s) && WReady(d, s) && ArReady(d, s)
  {
    hide Evens, Odds, Filter, WritesPaired, ReadsPaired, WritesIn, ReadsIn;
  }

  lemma BeatsTaken(c: Config, calls: seq<Call>, n: nat, y: System, i: Cycle)
    requires AllLegal(calls) && SystemInv(c, calls, y) && n <= |calls| && Deep(c.depths) && Roomy(calls, n, y.h) && |i.answers| == c.apps
    ensures var h' := NextSystem(c, y, i).h;
            h'.aws == y.h.aws + Opt(i.aw) && h'.ws == y.h.ws + Opt(i.w) && h'.ars == y.h.ars + Opt(i.ar)
            && y.h.sent <= h'.sent && y.h.beats <= h'.beats
  {
    hide WriteSide, ReadSide, BeatSide, Credits, Ordered, InStep, Roomy, Submitted, Beat, RespTaken, Next, NextFront;
    hide AwReady, WReady, ArReady;
    AllReady(c.depths, calls, n, y.bridge, y.h);
  }

  /** The streams of one more call. */
  lemma OneMore(calls: seq<Call>, n: nat)
    requires AllLegal(calls) && n < |calls|
    ensures AwStream(calls[..n + 1]) == AwStream(calls[..n]) + AwOf(calls[n])
    ensures WStream(calls[..n + 1]) == WStream(calls[..n]) + WOf(calls[n])
    ensures ArStream(calls[..n + 1]) == ArStream(calls[..n]) + ArOf(calls[n])
  {
    assert calls[..n + 1][..n] == calls[..n];
  }

  /** The first `k` beats of call `n` are in on every channel it uses, and nothing beyond. */
  ghost predicate Partway(calls: seq<Call>, n: nat, k: nat, h: Hist)
    requires AllLegal(calls) && n < |calls| && k <= 2
  {
    && h.aws == AwStream(calls[..n]) + UpTo(AwOf(calls[n]), k)
    && h.ws == WStream(calls[..n]) + UpTo(WOf(calls[n]), k)
    && h.ars == ArStream(calls[..n]) + UpTo(ArOf(calls[n]), k)
  }

  function UpTo(s: seq<Half>, k: nat): seq<Half> { if k < |s| then s[..k] else s }

  lemma InFollows(calls: seq<Call>, n: nat, k: nat, h: Hist)
    requires AllLegal(calls) && n < |calls| && k <= 2 && Partway(calls, n, k, h) && 2 * ReadsIn(calls, n) <= |h.beats|
    ensures Follows(calls, n, h)
  {
    OneMore(calls, n);
    hide AwStream, WStream, ArStream, AwOf, WOf, ArOf;
  }

  lemma InRoomy(calls: seq<Call>, n: nat, k: nat, h: Hist)
    requires AllLegal(calls) && n < |calls| && k <= 1 && Partway(calls, n, k, h) && Requests(calls[..n]) <= h.sent
    ensures Roomy(calls, n, h)
  {
    StreamLengths(calls, n);
    hide AwStream, WStream, ArStream, Requests, Filter;
    FilterPrefix(Requests(calls[..n]), h.sent, IsWrite);
    FilterPrefix(Requests(calls[..n]), h.sent, IsRead);
  }

  lemma InNext(c: Config, calls: seq<Call>, n: nat, k: nat, h: Hist, h': Hist)
    requires AllLegal(calls) && n < |calls| && k < 2 && Partway(calls, n, k, h)
    requires var i := BeatsOf(c, calls[n], k); h'.aws == h.aws + Opt(i.aw) && h'.ws == h.ws + Opt(i.w) && h'.ars == h.ars + Opt(i.ar)
    ensures Partway(calls, n, k + 1, h')
  {
    hide AwStream, WStream, ArStream, BusAddr, LowHalf, HighHalf;
  }

  /** Everything up to call `n` is done: sent, answered with the answers chosen, delivered. */
  ghost predicate Complete(c: Config, calls: seq<Call>, n: nat, y: System, answers: nat -> bv64)
    requires AllLegal(calls)
  {
    && n <= |calls|
    && y.h.aws == AwStream(calls[..n]) && y.h.ws == WStream(calls[..n]) && y.h.ars == ArStream(calls[..n])
    && Requests(calls[..n]) <= y.h.sent
    && 2 * ReadsIn(calls, n) <= |y.h.beats|
    && |y.log| == ReadsIn(calls, n)
    && forall k :: 0 <= k < |y.log| ==> y.log[k].data == answers(k)
  }

  /** The calls before `n` are over, and the first `k` beats of call `n` are in. */
  ghost predicate Issuing(calls: seq<Call>, n: nat, k: nat, h: Hist)
    requires AllLegal(calls)
  {
    n < |calls| && k <= 2 && Partway(calls, n, k, h) && Requests(calls[..n]) <= h.sent && 2 * ReadsIn(calls, n) <= |h.beats|
  }

  lemma IssuingStep(c: Config, calls: seq<Call>, n: nat, k: nat, y: System, i: Cycle)
    requires AllLegal(calls) && SystemInv(c, calls, y) && Deep(c.depths) && k < 2 && Issuing(calls, n, k, y.h)
    requires i == BeatsOf(c, calls[n], k) && |i.answers| == c.apps
    ensures Follows(calls, n, y.h) && Issuing(calls, n, k + 1, NextSystem(c, y, i).h)
  {
    var h' := NextSystem(c, y, i).h;
    hide *;
    IssuingParts(calls, n, k, y.h);
    BeatsTaken(c, calls, n, y, i);
    InNext(c, calls, n, k, y.h, h');
    NowIssuing(calls, n, k, y.h, h');
  }

  lemma IssuingParts(calls: seq<Call>, n: nat, k: nat, h: Hist)
    requires AllLegal(calls) && k < 2 && Issuing(calls, n, k, h)
    ensures n < |calls| && Partway(calls, n, k, h) && Follows(calls, n, h) && Roomy(calls, n, h)
  {
    hide Partway, Follows, Roomy, Requests, ReadsIn;
    InFollows(calls, n, k, h);
    InRoomy(calls, n, k, h);
  }

  lemma NowIssuing(calls: seq<Call>, n: nat, k: nat, h: Hist, h': Hist)
    requires AllLegal(calls) && k < 2 && Issuing(calls, n, k, h) && n < |calls| && Partway(calls, n, k + 1, h')
    requires h.sent <= h'.sent && h.beats <= h'.beats
    ensures Issuing(calls, n, k + 1, h')
  {
    hide Partway, Requests, ReadsIn;
  }

  /** A call's next beats are taken. */
  lemma IssueBeats(c: Config, logApps: nat, calls: seq<Call>, cycles: seq<Cycle>, y: System, n: nat, k: nat, i: Cycle) returns (y': System)
    requires AllLegal(calls) && Runs(c, logApps, calls, cycles, y) && Deep(c.depths) && k < 2 && Issuing(calls, n, k, y.h)
    requires i == BeatsOf(c, calls[n], k)
    ensures Runs(c, logApps, calls, cycles + [i], y') && y'.log == y.log && Issuing(calls, n, k + 1, y'.h)
  {
    assert i.answers == Silence(c) && |Silence(c)| == c.apps;
    RunsBuilt(c, logApps, calls, cycles, y);
    hide *;
    y' := NextSystem(c, y, i);
    RunsInv(c, logApps, calls, cycles, y);
    IssuingStep(c, calls, n, k, y, i);
    RunOnSilent(c, logApps, calls, cycles, y, n, i, y');
  }

  lemma SlotInRange(calls: seq<Call>, n: nat)
    requires AllLegal(calls) && n < |calls|
    ensures calls[n].slot < 8
  {
  }

  lemma StartIssuing(c: Config, calls: seq<Call>, n: nat, y: System, answers: nat -> bv64)
    requires AllLegal(calls) && n < |calls| && Complete(c, calls, n, y, answers)
    ensures Issuing(calls, n, 0, y.h)
  {
    hide AwStream, WStream, ArStream, AwOf, WOf, ArOf, Requests, ReadsIn;
    assert UpTo(AwOf(calls[n]), 0) == UpTo(WOf(calls[n]), 0) == UpTo(ArOf(calls[n]), 0) == [];
  }

  /** All beats of a call are taken in two cycles. */
  lemma IssueCall(c: Config, logApps: nat, calls: seq<Call>, cycles: seq<Cycle>, y: System, n: nat, answers: nat -> bv64)
    returns (cycles': seq<Cycle>, y': System)
    requires AllLegal(calls) && Runs(c, logApps, calls, cycles, y) && Deep(c.depths)
    requires n < |calls| && Complete(c, calls, n, y, answers)
    ensures Runs(c, logApps, calls, cycles', y') && |cycles'| == |cycles| + 2 && y'.log == y.log && Issuing(calls, n, 2, y'.h)
  {
    hide *;
    SlotInRange(calls, n);
    StartIssuing(c, calls, n, y, answers);
    var i, j := BeatsOf(c, calls[n], 0), BeatsOf(c, calls[n], 1);
    y' := IssueBeats(c, logApps, calls, cycles, y, n, 0, i);
    y' := IssueBeats(c, logApps, calls, cycles + [i], y', n, 1, j);
    cycles' := cycles + [i] + [j];
  }

  // Sending and answering.

  /** All beats of call `n` are in, and the calls before it are over. */
  ghost predicate Offered(calls: seq<Call>, n: nat, h: Hist)
    requires AllLegal(calls)
  {
    n < |calls| && Partway(calls, n, 2, h) && 2 * ReadsIn(calls, n) <= |h.beats|
  }

  lemma OfferedParts(calls: seq<Call>, n: nat, h: Hist)
    requires AllLegal(calls) && Offered(calls, n, h)
    ensures Follows(calls, n, h) && Issued(calls, n + 1, h) && 2 * ReadsIn(calls, n + 1) <= |h.ars|
    ensures h.aws == AwStream(calls[..n + 1]) && h.ws == WStream(calls[..n + 1]) && h.ars == ArStream(calls[..n + 1])
  {
    InFollows(calls, n, 2, h);
    OneMore(calls, n);
    StreamLengths(calls, n + 1);
    hide AwStream, WStream, ArStream, ReadsIn, WritesIn, BusAddr, LowHalf, HighHalf, Follows;
  }

  /** Without new beats a call stays as it is. */
  lemma OfferedStays(c: Config, calls: seq<Call>, n: nat, y: System, i: Cycle)
    requires AllLegal(calls) && Built(c, y) && Offered(calls, n, y.h) && i.aw == i.w == i.ar == None && |i.answers| == c.apps
    ensures var h' := NextSystem(c, y, i).h; Offered(calls, n, h') && y.h.sent <= h'.sent && y.h.beats <= h'.beats
    ensures NextSystem(c, y, i).log == y.log + Collect(i.answers)
  {
    hide Next, NextFront, Beat, Submitted, RespTaken, AwStream, WStream, ArStream, AwOf, WOf, ArOf, Whole, ReadsIn;
  }

  lemma RestCycle(c: Config, logApps: nat, calls: seq<Call>, cycles: seq<Cycle>, y: System, n: nat) returns (y': System)
    requires AllLegal(calls) && Runs(c, logApps, calls, cycles, y) && Offered(calls, n, y.h)
    ensures Runs(c, logApps, calls, cycles + [Rest(c)], y') && Offered(calls, n, y'.h) && y'.log == y.log
    ensures y.h.sent <= y'.h.sent && y.h.beats <= y'.h.beats
  {
    var i := Rest(c);
    assert i.answers == Silence(c) && |Silence(c)| == c.apps && i.aw == i.w == i.ar == None;
    hide *;
    RunsBuilt(c, logApps, calls, cycles, y);
    y' := NextSystem(c, y, i);
    OfferedParts(calls, n, y.h);
    OfferedStays(c, calls, n, y, i);
    RunOnSilent(c, logApps, calls, cycles, y, n, i, y');
  }

  /** Two cycles later the call has been sent. */
  lemma SendCall(c: Config, logApps: nat, calls: seq<Call>, cycles: seq<Cycle>, y: System, n: nat) returns (y': System)
    requires AllLegal(calls) && Runs(c, logApps, calls, cycles, y) && Offered(calls, n, y.h)
    ensures Runs(c, logApps, calls, cycles + [Rest(c)] + [Rest(c)], y') && Offered(calls, n, y'.h) && y'.log == y.log
    ensures n < |calls| && Requests(calls[..n + 1]) <= y'.h.sent
  {
    OfferedParts(calls, n, y.h);
    hide Offered, Issued, Follows, Allowed, After, AllEnabled, AllLegal, Requests, Rest;
    var y1 := RestCycle(c, logApps, calls, cycles, y, n);
    y' := RestCycle(c, logApps, calls, cycles + [Rest(c)], y1, n);
    CallsAreSent(c, logApps, calls, cycles, Rest(c), Rest(c), n + 1);
  }

  /** The open read is the call's. */
  lemma OpenRead(c: Config, calls: seq<Call>, n: nat, y: System)
    requires AllLegal(calls) && SystemInv(c, calls, y) && n < |calls| && calls[n].ReadCall?
    requires Requests(calls[..n + 1]) <= y.h.sent && |y.log| == ReadsIn(calls, n)
    ensures |y.log| < |Reads(y.h.sent)| && Reads(y.h.sent)[|y.log|] == RequestOf(calls[n])
  {
    hide AxiLite.Inv, InStep, Filter, Requests;
    assert calls[..n + 1][..n] == calls[..n];
    RequestsPush(calls[..n + 1]);
    FilterPrefix(Requests(calls[..n + 1]), y.h.sent, IsRead);
  }

  lemma MayAnswer(c: Config, calls: seq<Call>, n: nat, y: System, more: seq<SrReq>)
    requires AllLegal(calls) && SystemInv(c, calls, y) && n < |calls| && calls[n].ReadCall?
    requires Requests(calls[..n + 1]) <= y.h.sent && |y.log| == ReadsIn(calls, n)
    ensures |Filter(y.log, IsFrom(calls[n].slot))| < |Filter(Reads(y.h.sent + more), IsFor(calls[n].slot))|
  {
    OpenRead(c, calls, n, y);
    var a, k, asked := calls[n].slot, |y.log|, Reads(y.h.sent);
    hide AxiLite.Inv, Filter, Requests, RoutedTo, ReadsIn;
    CountsMatch(asked, y.log, y.front.queues, a);
    CallRoutes(calls[n], a);
    assert asked[..k + 1] == asked[..k] + [asked[k]];
    FilterPush(asked[..k], asked[k], IsFor(a));
    FilterPrefix(asked[..k + 1], asked, IsFor(a));
    FilterPrefix(y.h.sent, y.h.sent + more, IsRead);
    FilterPrefix(asked, Reads(y.h.sent + more), IsFor(a));
  }

  lemma ReplyBehaves(c: Config, calls: seq<Call>, n: nat, y: System, value: bv64, i: Cycle)
    requires AllLegal(calls) && SystemInv(c, calls, y) && n < |calls| && calls[n].ReadCall? && Follows(calls, n, y.h)
    requires Requests(calls[..n + 1]) <= y.h.sent && |y.log| == ReadsIn(calls, n)
    requires calls[n].slot < c.apps && i == Reply(c, calls[n].slot, value)
    ensures WellBehaved(c, calls, y, i) && Collect(i.answers) == [Entry(calls[n].slot, value)]
  {
    assert Built(c, y);
    var more := Submitted(y.bridge, BridgeIn(y, i));
    OneReply(c, calls[n].slot, value, i);
    hide SystemInv, Built, Filter, Requests, ReadsIn, Follows, Collect, Submitted, AllLegal, BridgeIn, Reply;
    MayAnswer(c, calls, n, y, more);
    assert OnlyAsked(Reads(y.h.sent + more), y.log, i.answers);
  }

  lemma OneReply(c: Config, app: nat, value: bv64, i: Cycle)
    requires app < c.apps && i == Reply(c, app, value)
    ensures |i.answers| == c.apps && Collect(i.answers) == [Entry(app, value)]
    ensures forall a :: 0 <= a < c.apps ==> i.answers[a] == if a == app then Some(value) else None
  {
    CollectOne(i.answers, app);
  }

  /** The application answers with the value chosen. */
  lemma ReplyCycle(c: Config, logApps: nat, calls: seq<Call>, cycles: seq<Cycle>, y: System, n: nat, value: bv64, i: Cycle)
    returns (y': System)
    requires AllLegal(calls) && Runs(c, logApps, calls, cycles, y) && Offered(calls, n, y.h) && n < |calls| && calls[n].ReadCall?
    requires Requests(calls[..n + 1]) <= y.h.sent && |y.log| == ReadsIn(calls, n)
    requires calls[n].slot < c.apps && i == Reply(c, calls[n].slot, value)
    ensures Runs(c, logApps, calls, cycles + [i], y') && Offered(calls, n, y'.h)
    ensures y.h.sent <= y'.h.sent && y'.log == y.log + [Entry(calls[n].slot, value)]
  {
    assert |i.answers| == c.apps && i.aw == i.w == i.ar == None;
    hide *;
    RunsBuilt(c, logApps, calls, cycles, y);
    y' := NextSystem(c, y, i);
    RunsInv(c, logApps, calls, cycles, y);
    OfferedParts(calls, n, y.h);
    OfferedStays(c, calls, n, y, i);
    ReplyBehaves(c, calls, n, y, value, i);
    RunOn(c, logApps, calls, cycles, y, i);
  }

  /** Three cycles later the host has it. */
  lemma DeliverAnswer(c: Config, logApps: nat, calls: seq<Call>, cycles: seq<Cycle>, y: System, n: nat) returns (y': System)
    requires AllLegal(calls) && Runs(c, logApps, calls, cycles, y) && Offered(calls, n, y.h)
    requires n < |calls| && |y.log| == ReadsIn(calls, n + 1) > 0
    ensures Runs(c, logApps, calls, cycles + [Rest(c)] + [Rest(c)] + [Rest(c)], y') && Offered(calls, n, y'.h)
    ensures y.h.sent <= y'.h.sent && y'.log == y.log && 2 * ReadsIn(calls, n + 1) <= |y'.h.beats|
  {
    OfferedParts(calls, n, y.h);
    var r := Rest(c);
    assert r.rReady;
    hide Offered, Issued, Follows, Allowed, After, AllEnabled, AllLegal, Requests, Rest, ReadsIn, AwStream, WStream, ArStream;
    var y1 := RestCycle(c, logApps, calls, cycles, y, n);
    var y2 := RestCycle(c, logApps, calls, cycles + [r], y1, n);
    y' := RestCycle(c, logApps, calls, cycles + [r] + [r], y2, n);
    AnswersAreDelivered(c, logApps, calls, cycles, r, r, r, ReadsIn(calls, n + 1) - 1);
  }

  // Call after call.

  lemma NowComplete(c: Config, calls: seq<Call>, n: nat, y: System, y': System, answers: nat -> bv64)
    requires AllLegal(calls) && n < |calls| && Complete(c, calls, n, y, answers) && Offered(calls, n, y'.h)
    requires Requests(calls[..n + 1]) <= y'.h.sent && 2 * ReadsIn(calls, n + 1) <= |y'.h.beats|
    requires y'.log == y.log + (if calls[n].ReadCall? then [Entry(calls[n].slot, answers(|y.log|))] else [])
    ensures Complete(c, calls, n + 1, y', answers)
  {
    hide Offered, Requests, ReadsIn, AwStream, WStream, ArStream;
    OfferedParts(calls, n, y'.h);
    OneCall(calls, n);
  }

  lemma LogSoFar(c: Config, calls: seq<Call>, n: nat, y: System, answers: nat -> bv64)
    requires AllLegal(calls) && Complete(c, calls, n, y, answers)
    ensures n <= |calls| && |y.log| == ReadsIn(calls, n)
  {
  }

  /** A read that has been sent is answered and delivered, in four cycles. */
  lemma FinishRead(c: Config, logApps: nat, calls: seq<Call>, cycles: seq<Cycle>, y: System, n: nat, value: bv64)
    returns (cycles': seq<Cycle>, y': System)
    requires AllLegal(calls) && Runs(c, logApps, calls, cycles, y) && Offered(calls, n, y.h) && n < |calls| && calls[n].ReadCall?
    requires Requests(calls[..n + 1]) <= y.h.sent && |y.log| == ReadsIn(calls, n) && calls[n].slot < c.apps
    ensures Runs(c, logApps, calls, cycles', y') && Offered(calls, n, y'.h) && |cycles'| == |cycles| + 4
    ensures Requests(calls[..n + 1]) <= y'.h.sent && 2 * ReadsIn(calls, n + 1) <= |y'.h.beats|
    ensures y'.log == y.log + [Entry(calls[n].slot, value)]
  {
    hide *;
    var r, i := Rest(c), Reply(c, calls[n].slot, value);
    OneCall(calls, n);
    y' := ReplyCycle(c, logApps, calls, cycles, y, n, value, i);
    y' := DeliverAnswer(c, logApps, calls, cycles + [i], y', n);
    cycles' := cycles + [i] + [r] + [r] + [r];
  }

  /** One more call is finished, in at most eight cycles. */
  lemma FinishCall(c: Config, logApps: nat, calls: seq<Call>, cycles: seq<Cycle>, y: System, n: nat, answers: nat -> bv64)
    returns (cycles': seq<Cycle>, y': System)
    requires AllLegal(calls) && Runs(c, logApps, calls, cycles, y) && Deep(c.depths)
    requires n < |calls| && Complete(c, calls, n, y, answers) && calls[n].slot < c.apps
    ensures Runs(c, logApps, calls, cycles', y') && Complete(c, calls, n + 1, y', answers) && |cycles'| <= |cycles| + 8
  {
    hide *;
    LogSoFar(c, calls, n, y, answers);
    cycles', y' := IssueCall(c, logApps, calls, cycles, y, n, answers);
    NowOffered(calls, n, y'.h);
    y' := SendCall(c, logApps, calls, cycles', y', n);
    cycles' := cycles' + [Rest(c)] + [Rest(c)];
    if calls[n].ReadCall? {
      cycles', y' := FinishRead(c, logApps, calls, cycles', y', n, answers(|y.log|));
    } else {
      StillDelivered(calls, n, y'.h);
    }
    NowComplete(c, calls, n, y, y', answers);
  }

  lemma NowOffered(calls: seq<Call>, n: nat, h: Hist)
    requires AllLegal(calls) && Issuing(calls, n, 2, h)
    ensures Offered(calls, n, h)
  {
    hide Partway, Requests, ReadsIn;
  }

  lemma StillDelivered(calls: seq<Call>, n: nat, h: Hist)
    requires AllLegal(calls) && Offered(calls, n, h) && n < |calls| && calls[n].WriteCall?
    ensures 2 * ReadsIn(calls, n + 1) <= |h.beats|
  {
    hide Partway, ReadsIn;
    OneCall(calls, n);
  }

  lemma {:induction false} FinishCalls(c: Config, logApps: nat, calls: seq<Call>, n: nat, answers: nat -> bv64)
    returns (cycles: seq<Cycle>, y: System)
    requires logApps <= 3 && Sane(c) && c.apps == Fifo.Pow2(logApps) && AllLegal(calls) && AllEnabled(c, calls) && Deep(c.depths)
    requires n <= |calls|
    ensures Runs(c, logApps, calls, cycles, y) && Complete(c, calls, n, y, answers) && |cycles| <= 8 * n
  {
    hide *;
    if n == 0 {
      cycles := [];
      y := Booted(c, logApps, calls, answers);
    } else {
      SlotEnabled(c, calls, n - 1);
      cycles, y := FinishCalls(c, logApps, calls, n - 1, answers);
      cycles, y := FinishCall(c, logApps, calls, cycles, y, n - 1, answers);
    }
  }

  lemma SlotEnabled(c: Config, calls: seq<Call>, n: nat)
    requires Sane(c) && AllEnabled(c, calls) && n < |calls|
    ensures calls[n].slot < c.apps
  {
  }

  lemma Booted(c: Config, logApps: nat, calls: seq<Call>, answers: nat -> bv64) returns (y: System)
    requires logApps <= 3 && Sane(c) && c.apps == Fifo.Pow2(logApps) && AllLegal(calls) && AllEnabled(c, calls)
    ensures Runs(c, logApps, calls, [], y) && Complete(c, calls, 0, y, answers)
  {
    y := After(c, logApps, calls, []);
    hide Complete, AllLegal, AllEnabled;
    StartsComplete(c, calls, y, answers);
  }

  lemma StartsComplete(c: Config, calls: seq<Call>, y: System, answers: nat -> bv64)
    requires AllLegal(calls) && y.h == START && y.log == []
    ensures Complete(c, calls, 0, y, answers)
  {
    assert calls[..0] == [];
    assert Requests([]) == [];
    assert AwStream([]) == [] && WStream([]) == [] && ArStream([]) == [];
  }

  /** Every sequence of calls can be finished, in at most eight cycles a call and with whatever the
      applications choose to answer: exactly the calls are sent, and the k-th read returns the k-th
      answer. */
  lemma EveryClientIsServed(c: Config, logApps: nat, calls: seq<Call>, answers: nat -> bv64) returns (cycles: seq<Cycle>)
    requires logApps <= 3 && Sane(c) && c.apps == Fifo.Pow2(logApps) && AllLegal(calls) && AllEnabled(c, calls) && Deep(c.depths)
    ensures Allowed(c, logApps, calls, cycles) && |cycles| <= 8 * |calls|
    ensures var h := After(c, logApps, calls, cycles).h;
            && h.sent == Requests(calls)
            && |h.beats| == 2 * |ReadCalls(calls)|
            && forall k :: 0 <= k < |ReadCalls(calls)| ==> Combine(h.beats[2 * k], h.beats[2 * k + 1]) == answers(k)
  {
    var y;
    cycles, y := FinishCalls(c, logApps, calls, |calls|, answers);
    assert calls[..|calls|] == calls;
    AfterInv(c, logApps, calls, cycles);
    AllDelivered(c, calls, y, answers);
    hide Allowed, After, AllLegal, AllEnabled, SystemInv, Requests, ReadCalls, Combine;
    forall k | 0 <= k < |ReadCalls(calls)| ensures Combine(y.h.beats[2 * k], y.h.beats[2 * k + 1]) == answers(k) {
      ReadsReturnTheAnswer(c, logApps, calls, cycles, k);
    }
  }

  lemma AllDelivered(c: Config, calls: seq<Call>, y: System, answers: nat -> bv64)
    requires AllLegal(calls) && SystemInv(c, calls, y) && Complete(c, calls, |calls|, y, answers)
    ensures y.h.sent == Requests(calls) && |y.log| == |ReadCalls(calls)| && |y.h.beats| == 2 * |ReadCalls(calls)|
    ensures forall k :: 0 <= k < |y.log| ==> y.log[k].data == answers(k)
  {
    assert calls[..|calls|] == calls;
    ReadCallsAre(calls);
    StreamLengths(calls, |calls|);
    hide AwStream, WStream, ArStream, Requests, Filter, ReadCalls, InStep, WriteSide, ReadSide, BeatSide, Ordered;
  }
}
