/** The other half of the round trip: calls do get through, and answers do come back, within a
    fixed number of cycles. */
module HostProgress {
  import opened Streams
  import Fifo
  import opened AxiLite
  import opened SoftReg
  import opened HostRegisters
  import opened HostRoundTrip

  // The bridge never falls behind by more than one write.

  lemma WriteWaits(s: Bridge, h: Hist)
    requires WriteSide(s, h)
    ensures WriteReq(s).Some? <==> |Writes(h.sent)| < Whole(h.aws, h.ws)
  {
    hide Evens, Odds, Filter, WritesPaired;
  }

  predicate KeepsUp(h: Hist) { Whole(h.aws, h.ws) <= |Writes(h.sent)| + 1 }

  lemma KeepsUpStep(d: Depths, s: Bridge, i: In, h: Hist)
    requires WriteSide(s, h) && i.grant && KeepsUp(h)
    ensures Whole(h.aws, h.ws) <= |Writes(Record(d, s, i, h).sent)| && KeepsUp(Record(d, s, i, h))
  {
    WriteWaits(s, h);
    hide WriteSide, WriteReq, ReadReq;
    RecordWrites(d, s, i, h);
  }

  /** A waiting read is sent, or the address left over from the one before it is dropped. */
  lemma ReadMoves(d: Depths, s: Bridge, i: In, h: Hist)
    requires ReadSide(s, h) && i.grant && |Reads(h.sent)| < |Evens(h.ars)|
    ensures |Reads(Record(d, s, i, h).sent)| == |Reads(h.sent)| + 1
         || (|Reads(Record(d, s, i, h).sent)| == |Reads(h.sent)| && !Next(d, s, i).rd.submitSel
             && (WriteReq(s).Some? || s.rd.submitSel))
  {
    RecordWrites(d, s, i, h);
    hide Evens, Odds, Filter, ReadsPaired, WriteReq;
  }

  // The calls whose beats are in.

  /** All beats of the first `n` calls have been transferred. */
  ghost predicate Issued(calls: seq<Call>, n: nat, h: Hist)
    requires AllLegal(calls)
  {
    n <= |calls| && AwStream(calls[..n]) <= h.aws && WStream(calls[..n]) <= h.ws && ArStream(calls[..n]) <= h.ars
  }

  function WritesIn(calls: seq<Call>, n: nat): nat
    requires AllLegal(calls) && n <= |calls|
  {
    |Writes(Requests(calls[..n]))|
  }

  function ReadsIn(calls: seq<Call>, n: nat): nat
    requires AllLegal(calls) && n <= |calls|
  {
    |Reads(Requests(calls[..n]))|
  }

  lemma StreamLengths(calls: seq<Call>, n: nat)
    requires AllLegal(calls) && n <= |calls|
    ensures |AwStream(calls[..n])| == |WStream(calls[..n])| == 2 * WritesIn(calls, n)
    ensures |ArStream(calls[..n])| == 2 * ReadsIn(calls, n)
  {
    AwStreamIs(calls[..n]);
    WStreamIs(calls[..n]);
    ArStreamIs(calls[..n]);
  }

  lemma IssuedCounts(calls: seq<Call>, n: nat, h: Hist)
    requires AllLegal(calls) && Issued(calls, n, h)
    ensures WritesIn(calls, n) <= Whole(h.aws, h.ws) && 2 * ReadsIn(calls, n) <= |h.ars| && ReadsIn(calls, n) <= |Evens(h.ars)|
  {
    hide AwStream, WStream, ArStream, WritesIn, ReadsIn;
    StreamLengths(calls, n);
  }

  lemma CountsGrow(calls: seq<Call>, m: nat, n: nat)
    requires AllLegal(calls) && m <= n <= |calls|
    ensures WritesIn(calls, m) <= WritesIn(calls, n) && ReadsIn(calls, m) <= ReadsIn(calls, n)
  {
    hide Filter, Requests;
    RequestsPrefix(calls, m);
    RequestsPrefix(calls, n);
    FilterPrefix(Requests(calls[..m]), Requests(calls[..n]), IsWrite);
    FilterPrefix(Requests(calls[..m]), Requests(calls[..n]), IsRead);
  }

  lemma OneCall(calls: seq<Call>, m: nat)
    requires AllLegal(calls) && m < |calls|
    ensures WritesIn(calls, m + 1) == WritesIn(calls, m) + (if calls[m].WriteCall? then 1 else 0)
    ensures ReadsIn(calls, m + 1) == ReadsIn(calls, m) + (if calls[m].ReadCall? then 1 else 0)
  {
    hide Filter, Requests;
    assert calls[..m + 1][..m] == calls[..m];
    RequestsPush(calls[..m + 1]);
  }

  /** While a read is open the host is in that call, and no write has come since. */
  lemma WhileOpen(calls: seq<Call>, m: nat, n: nat, h: Hist, r: nat)
    requires AllLegal(calls) && Follows(calls, m, h) && n <= |calls|
    requires |h.beats| <= 2 * r && r < ReadsIn(calls, n) <= |Evens(h.ars)|
    ensures m < n && Whole(h.aws, h.ws) <= WritesIn(calls, n)
  {
    hide AwStream, WStream, ArStream;
    assert ReadsIn(calls, m) <= r;
    StreamLengths(calls, Upto(calls, m));
    hide WritesIn, ReadsIn;
    if n <= m { CountsGrow(calls, n, m); }
    OneCall(calls, m);
    CountsGrow(calls, m + 1, n);
    CountsGrow(calls, m, n);
  }

  /** A prefix that has as many of both kinds is no shorter. */
  lemma BothKinds(t: seq<SrReq>, sent: seq<SrReq>, n: nat)
    requires sent <= t && n <= |t|
    requires |Writes(t[..n])| <= |Writes(sent)| && |Reads(t[..n])| <= |Reads(sent)|
    ensures t[..n] <= sent
  {
    var k := |sent|;
    if k < n {
      assert sent == t[..k] && t[..k + 1] == t[..k] + [t[k]];
      FilterPush(t[..k], t[k], IsWrite);
      FilterPush(t[..k], t[k], IsRead);
      FilterPrefix(t[..k + 1], t[..n], IsWrite);
      FilterPrefix(t[..k + 1], t[..n], IsRead);
    }
  }

  // Two cycles are enough to send what is in.

  lemma StepHistory(c: Config, calls: seq<Call>, n: nat, y: System, i: Cycle)
    requires AllLegal(calls) && SystemInv(c, calls, y) && KeepsUp(y.h) && |i.answers| == c.apps
    ensures var y' := NextSystem(c, y, i);
            && KeepsUp(y'.h) && Whole(y.h.aws, y.h.ws) <= |Writes(y'.h.sent)|
            && |Reads(y.h.sent)| <= |Reads(y'.h.sent)|
            && (Issued(calls, n, y.h) ==> Issued(calls, n, y'.h))
            && y.h.ars <= y'.h.ars && y.h.beats <= y'.h.beats
  {
    hide WriteSide, ReadSide, BeatSide, Ordered, Credits, Whole, InStep, AwStream, WStream, ArStream, Filter, Next, NextFront;
    KeepsUpStep(c.depths, y.bridge, BridgeIn(y, i), y.h);
    RecordWrites(c.depths, y.bridge, BridgeIn(y, i), y.h);
  }

  lemma ReadStep(c: Config, calls: seq<Call>, n: nat, y: System, i: Cycle)
    requires AllLegal(calls) && SystemInv(c, calls, y) && |i.answers| == c.apps && Issued(calls, n, y.h)
    requires |Reads(y.h.sent)| < ReadsIn(calls, n)
    ensures var y' := NextSystem(c, y, i);
            |Reads(y'.h.sent)| > |Reads(y.h.sent)|
            || (!y'.bridge.rd.submitSel && (WriteReq(y.bridge).Some? || y.bridge.rd.submitSel))
  {
    IssuedCounts(calls, n, y.h);
    hide WriteSide, ReadSide, BeatSide, Ordered, Credits, Whole, InStep, Issued, Filter, Evens, WriteReq, ReadsIn;
    ReadMoves(c.depths, y.bridge, BridgeIn(y, i), y.h);
    hide Next, NextFront, Record;
  }

  /** In the second cycle nothing is in the read's way any more. */
  lemma NothingInTheWay(c: Config, calls: seq<Call>, n: nat, y: System)
    requires AllLegal(calls) && SystemInv(c, calls, y) && Issued(calls, n, y.h) && (exists m: nat :: Follows(calls, m, y.h))
    requires |Reads(y.h.sent)| < ReadsIn(calls, n) && WritesIn(calls, n) <= |Writes(y.h.sent)|
    ensures WriteReq(y.bridge).None? && ReadsIn(calls, n) == |Reads(y.h.sent)| + 1
  {
    hide ReadSide, Ordered, Credits, Filter, AwStream, WStream, ArStream, Follows, WriteReq, Whole;
    IssuedCounts(calls, n, y.h);
    var m: nat :| Follows(calls, m, y.h);
    WhileOpen(calls, m, n, y.h, |Reads(y.h.sent)|);
    WriteWaits(y.bridge, y.h);
    OneOpenRead(c, calls, n, y);
  }

  lemma OpenReads(calls: seq<Call>, m: nat, n: nat, h: Hist, r: nat)
    requires AllLegal(calls) && Follows(calls, m, h) && Issued(calls, n, h) && |h.beats| <= 2 * r
    ensures ReadsIn(calls, n) <= r + 1
  {
    hide AwStream, WStream, ArStream;
    StreamLengths(calls, Upto(calls, m));
    StreamLengths(calls, n);
    assert ReadsIn(calls, m) <= r;
    hide ReadsIn, WritesIn;
    if m < |calls| { OneCall(calls, m); }
  }

  /** `y'` is the state after one well-behaved cycle. */
  ghost predicate Steps(c: Config, calls: seq<Call>, y: System, i: Cycle, y': System)
    requires AllLegal(calls)
  {
    Built(c, y) && |i.answers| == c.apps && y' == NextSystem(c, y, i) && AllEnabled(c, calls) && WellBehaved(c, calls, y, i)
  }

  lemma StepsInv(c: Config, calls: seq<Call>, y: System, i: Cycle, y': System)
    requires AllLegal(calls) && Steps(c, calls, y, i, y') && SystemInv(c, calls, y)
    ensures SystemInv(c, calls, y')
  {
    hide SystemInv, NextSystem, WellBehaved, AllEnabled;
    SystemStep(c, calls, y, i);
  }

  /** The first `n` calls are in. */
  ghost predicate Coming(c: Config, calls: seq<Call>, n: nat, y: System)
    requires AllLegal(calls)
  {
    n <= |calls| && SystemInv(c, calls, y) && KeepsUp(y.h) && Issued(calls, n, y.h)
  }

  /** Their writes are out, and nothing left over from an earlier read stands in a read's way. */
  ghost predicate HalfOut(calls: seq<Call>, n: nat, y: System)
    requires AllLegal(calls)
  {
    n <= |calls| && WritesIn(calls, n) <= |Writes(y.h.sent)|
    && (|Reads(y.h.sent)| < ReadsIn(calls, n) ==> !y.bridge.rd.submitSel)
  }

  lemma ComingStep(c: Config, calls: seq<Call>, n: nat, y: System, i: Cycle, y': System)
    requires AllLegal(calls) && Steps(c, calls, y, i, y') && Coming(c, calls, n, y)
    ensures Coming(c, calls, n, y') && WritesIn(calls, n) <= |Writes(y'.h.sent)| && |Reads(y.h.sent)| <= |Reads(y'.h.sent)|
  {
    StepsInv(c, calls, y, i, y');
    hide NextSystem, SystemInv, WellBehaved, AllEnabled, WritesIn, KeepsUp, Issued, Filter;
    StepHistory(c, calls, n, y, i);
    IssuedCounts(calls, n, y.h);
  }

  lemma FirstCycle(c: Config, calls: seq<Call>, n: nat, y: System, i: Cycle, y': System)
    requires AllLegal(calls) && Steps(c, calls, y, i, y') && Coming(c, calls, n, y)
    ensures Coming(c, calls, n, y') && HalfOut(calls, n, y')
  {
    ComingStep(c, calls, n, y, i, y');
    assert exists m: nat :: Follows(calls, m, y.h);
    hide NextSystem, SystemInv, WellBehaved, AllEnabled, WritesIn, ReadsIn, KeepsUp, Issued, Filter, WriteReq, Built, Follows;
    if |Reads(y'.h.sent)| < ReadsIn(calls, n) {
      OneOpenRead(c, calls, n, y);
      ReadStep(c, calls, n, y, i);
    }
  }

  lemma OneOpenRead(c: Config, calls: seq<Call>, n: nat, y: System)
    requires AllLegal(calls) && SystemInv(c, calls, y) && Issued(calls, n, y.h) && (exists m: nat :: Follows(calls, m, y.h))
    ensures ReadsIn(calls, n) <= |Reads(y.h.sent)| + 1
  {
    var m: nat :| Follows(calls, m, y.h);
    hide ReadSide, WriteSide, Ordered, Credits, Filter, Follows, ReadsIn;
    OpenReads(calls, m, n, y.h, |Reads(y.h.sent)|);
  }

  lemma SecondCycle(c: Config, calls: seq<Call>, n: nat, y: System, i: Cycle, y': System)
    requires AllLegal(calls) && Steps(c, calls, y, i, y') && Coming(c, calls, n, y) && HalfOut(calls, n, y)
    ensures Requests(calls[..n]) <= y'.h.sent <= Requests(calls)
  {
    ComingStep(c, calls, n, y, i, y');
    assert exists m: nat :: Follows(calls, m, y.h);
    hide NextSystem, SystemInv, WellBehaved, AllEnabled, WritesIn, ReadsIn, KeepsUp, Issued, Filter, Follows;
    if |Reads(y.h.sent)| < ReadsIn(calls, n) {
      NothingInTheWay(c, calls, n, y);
      ReadStep(c, calls, n, y, i);
    }
    AllIn(c, calls, n, y');
  }

  lemma AllIn(c: Config, calls: seq<Call>, n: nat, y: System)
    requires AllLegal(calls) && SystemInv(c, calls, y) && n <= |calls|
    requires WritesIn(calls, n) <= |Writes(y.h.sent)| && ReadsIn(calls, n) <= |Reads(y.h.sent)|
    ensures Requests(calls[..n]) <= y.h.sent <= Requests(calls)
  {
    hide Filter, Requests, InStep, AxiLite.Inv;
    RequestsPrefix(calls, n);
    BothKinds(Requests(calls), y.h.sent, n);
  }

  // Over runs.

  lemma {:induction false} KeepsUpAlways(c: Config, logApps: nat, calls: seq<Call>, cycles: seq<Cycle>)
    requires logApps <= 3 && Sane(c) && c.apps == Fifo.Pow2(logApps) && AllLegal(calls) && AllEnabled(c, calls)
    requires Allowed(c, logApps, calls, cycles)
    ensures KeepsUp(After(c, logApps, calls, cycles).h)
  {
    if cycles != [] {
      var before, last := cycles[..|cycles| - 1], cycles[|cycles| - 1];
      KeepsUpAlways(c, logApps, calls, before);
      AfterInv(c, logApps, calls, before);
      StepHistory(c, calls, 0, After(c, logApps, calls, before), last);
    }
  }

  lemma Latest(c: Config, logApps: nat, calls: seq<Call>, cycles: seq<Cycle>, i: Cycle)
    requires logApps <= 3 && Sane(c) && c.apps == Fifo.Pow2(logApps) && AllLegal(calls)
    requires Allowed(c, logApps, calls, cycles + [i])
    requires AllEnabled(c, calls)
    ensures Allowed(c, logApps, calls, cycles)
    ensures Steps(c, calls, After(c, logApps, calls, cycles), i, After(c, logApps, calls, cycles + [i]))
  {
    hide NextSystem;
    assert (cycles + [i])[..|cycles + [i]| - 1] == cycles;
  }

  /** Every call gets through: two cycles after its last beat, every one of the first `n` calls has
      been sent, in order, and nothing but calls. */
  lemma CallsAreSent(c: Config, logApps: nat, calls: seq<Call>, cycles: seq<Cycle>, i: Cycle, j: Cycle, n: nat)
    requires logApps <= 3 && Sane(c) && c.apps == Fifo.Pow2(logApps) && AllLegal(calls) && AllEnabled(c, calls)
    requires Allowed(c, logApps, calls, cycles) && Issued(calls, n, After(c, logApps, calls, cycles).h)
    requires Allowed(c, logApps, calls, cycles + [i] + [j])
    ensures Requests(calls[..n]) <= After(c, logApps, calls, cycles + [i] + [j]).h.sent <= Requests(calls)
  {
    Latest(c, logApps, calls, cycles + [i], j);
    Latest(c, logApps, calls, cycles, i);
    hide Allowed, After, Steps, Coming, HalfOut, Issued, Requests, AllEnabled;
    assert Coming(c, calls, n, After(c, logApps, calls, cycles)) by {
      hide SystemInv, KeepsUp;
      KeepsUpAlways(c, logApps, calls, cycles);
      AfterInv(c, logApps, calls, cycles);
    }
    FirstCycle(c, calls, n, After(c, logApps, calls, cycles), i, After(c, logApps, calls, cycles + [i]));
    SecondCycle(c, calls, n, After(c, logApps, calls, cycles + [i]), j, After(c, logApps, calls, cycles + [i] + [j]));
  }

  /** So each of them has been seen by the application in its slot, and by no other. */
  lemma EveryCallArrives(c: Config, logApps: nat, calls: seq<Call>, cycles: seq<Cycle>, i: Cycle, j: Cycle, n: nat, k: nat, app: nat)
    requires logApps <= 3 && Sane(c) && c.apps == Fifo.Pow2(logApps) && AllLegal(calls) && AllEnabled(c, calls)
    requires Allowed(c, logApps, calls, cycles) && Issued(calls, n, After(c, logApps, calls, cycles).h)
    requires Allowed(c, logApps, calls, cycles + [i] + [j])
    requires k < n && app < c.apps
    ensures var h := After(c, logApps, calls, cycles + [i] + [j]).h;
            k < |h.sent| && k < |calls| && Routed(Some(h.sent[k]), app) == if app == calls[k].slot then Some(Meant(calls[k])) else None
  {
    hide Routed, Meant, Allowed, After, AllEnabled;
    CallsAreSent(c, logApps, calls, cycles, i, j, n);
    assert |Requests(calls[..n])| == n;
    CallsReachTheirApp(c, logApps, calls, cycles + [i] + [j], k, app);
  }

  // Answers come back.

  /** What has been answered but not delivered reaches the bridge in one cycle. */
  lemma AnswerMoves(c: Config, calls: seq<Call>, y: System, i: Cycle, y': System, k: nat)
    requires AllLegal(calls) && Steps(c, calls, y, i, y') && SystemInv(c, calls, y) && k < |y.log|
    ensures k < |y'.h.resps|
  {
    hide AxiLite.Inv, OnlyAsked, Follows, Answer, RespTaken, NextFront, Next, Submitted;
    var m: nat :| Follows(calls, m, y.h);
    RoomForAnswer(c, calls, m, y, i);
    WhatLeaves(y.front, Reads(y.h.sent), y.h.resps, y.log);
  }

  /** An answered read whose addresses are in gives a beat in every cycle the host is ready. */
  lemma BeatReady(s: Bridge, i: In, h: Hist, k: nat)
    requires BeatSide(s, h) && Credits(s, h) && i.rReady
    requires k < |h.resps| && 2 * k + 2 <= |h.ars| <= |h.beats| + 2
    ensures 2 * k <= |h.beats|
    ensures |h.beats| < 2 * k + 2 ==> |Beat(s, i)| == 1
  {
    hide LowHalf, HighHalf, BeatOf;
  }

  lemma BeatMoves(c: Config, calls: seq<Call>, y: System, i: Cycle, y': System, k: nat)
    requires AllLegal(calls) && Steps(c, calls, y, i, y') && SystemInv(c, calls, y) && i.rReady
    requires k < |y.h.resps| && 2 * k + 2 <= |y.h.ars|
    ensures 2 * k <= |y.h.beats|
    ensures |y.h.beats| < 2 * k + 2 ==> |y'.h.beats| == |y.h.beats| + 1
  {
    assert |y.h.ars| <= |y.h.beats| + 2 by {
      var m: nat :| Follows(calls, m, y.h);
      OneOpen(calls, m, y.h);
    }
    assert BeatSide(y.bridge, y.h) && Credits(y.bridge, y.h);
    hide WellBehaved, SystemInv, BeatSide, Credits, Next, NextFront, Beat;
    BeatReady(y.bridge, BridgeIn(y, i), y.h, k);
    hide BridgeIn;
  }

  lemma OneOpen(calls: seq<Call>, m: nat, h: Hist)
    requires AllLegal(calls) && Follows(calls, m, h)
    ensures |h.ars| <= |h.beats| + 2
  {
    hide AwStream, WStream, ArStream;
    StreamLengths(calls, Upto(calls, m));
    assert 2 * ReadsIn(calls, m) <= |h.beats|;
    hide ReadsIn, WritesIn;
    if m < |calls| { OneCall(calls, m); }
  }

  lemma AllGrow(c: Config, calls: seq<Call>, y: System, i: Cycle, y': System)
    requires AllLegal(calls) && Steps(c, calls, y, i, y')
    ensures y.h.ars <= y'.h.ars && y.h.resps <= y'.h.resps && y.h.beats <= y'.h.beats && y.log <= y'.log
  {
    hide Next, NextFront, AwTaken, WTaken, ArTaken, Beat, RespTaken, Submitted;
  }

  /** Every answer comes back: once the k-th read has been answered and both its addresses are in,
      two cycles with the host ready, after one more, bring it the 64 bits answered. */
  lemma AnswersAreDelivered(c: Config, logApps: nat, calls: seq<Call>, cycles: seq<Cycle>, i: Cycle, j: Cycle, l: Cycle, k: nat)
    requires logApps <= 3 && Sane(c) && c.apps == Fifo.Pow2(logApps) && AllLegal(calls) && AllEnabled(c, calls)
    requires Allowed(c, logApps, calls, cycles) && Allowed(c, logApps, calls, cycles + [i] + [j] + [l]) && j.rReady && l.rReady
    requires var y := After(c, logApps, calls, cycles); k < |y.log| && 2 * k + 2 <= |y.h.ars|
    ensures var y, y' := After(c, logApps, calls, cycles), After(c, logApps, calls, cycles + [i] + [j] + [l]);
            && k < |ReadCalls(calls)| && y.log[k].app == ReadCalls(calls)[k].slot
            && 2 * k + 2 <= |y'.h.beats| && Combine(y'.h.beats[2 * k], y'.h.beats[2 * k + 1]) == y.log[k].data
  {
    Latest(c, logApps, calls, cycles + [i] + [j], l);
    Latest(c, logApps, calls, cycles + [i], j);
    Latest(c, logApps, calls, cycles, i);
    hide Allowed, After, Steps, SystemInv, AllEnabled, Combine;
    var y, y1 := After(c, logApps, calls, cycles), After(c, logApps, calls, cycles + [i]);
    var y2, y3 := After(c, logApps, calls, cycles + [i] + [j]), After(c, logApps, calls, cycles + [i] + [j] + [l]);
    AllGrow(c, calls, y, i, y1);
    AllGrow(c, calls, y1, j, y2);
    AllGrow(c, calls, y2, l, y3);
    AfterInv(c, logApps, calls, cycles);
    StepsInv(c, calls, y, i, y1);
    StepsInv(c, calls, y1, j, y2);
    AnswerMoves(c, calls, y, i, y1, k);
    BeatMoves(c, calls, y1, j, y2, k);
    BeatMoves(c, calls, y2, l, y3, k);
    ReadsReturnTheAnswer(c, logApps, calls, cycles + [i] + [j] + [l], k);
  }

  /** Every read the host has finished returned what its application answered. */
  lemma FinishedReads(c: Config, logApps: nat, calls: seq<Call>, cycles: seq<Cycle>, n: nat, k: nat)
    requires logApps <= 3 && Sane(c) && c.apps == Fifo.Pow2(logApps) && AllLegal(calls) && AllEnabled(c, calls)
    requires Allowed(c, logApps, calls, cycles) && Follows(calls, n, After(c, logApps, calls, cycles).h)
    requires k < |ReadCalls(calls[..n])|
    ensures var y := After(c, logApps, calls, cycles);
            && k < |y.log| && k < |ReadCalls(calls)| && y.log[k].app == ReadCalls(calls)[k].slot
            && 2 * k + 1 < |y.h.beats| && Combine(y.h.beats[2 * k], y.h.beats[2 * k + 1]) == y.log[k].data
  {
    hide Combine, Allowed, After, AwStream, WStream, ArStream, ReadCalls, Filter, AllEnabled;
    ReadCallsAre(calls[..n]);
    assert |ReadCalls(calls[..n])| == ReadsIn(calls, n);
    ReadsReturnTheAnswer(c, logApps, calls, cycles, k);
  }
}
