/** Both ways of the PCIe front end move on: packets are taken whenever there is room, keep what they
    carry, and all of them arrive within a bounded time. */
module PcieProgress {
  import opened Streams
  import Fifo
  import opened Arbiter
  import opened Pcie

  // Packets waiting in a row of queues.

  function Total(queues: seq<seq<Packet>>): (n: nat)
    ensures n == 0 <==> forall a :: 0 <= a < |queues| ==> queues[a] == []
  {
    if queues == [] then 0 else Total(queues[..|queues| - 1]) + |queues[|queues| - 1]|
  }

  lemma {:induction false} TotalGrows(x: seq<seq<Packet>>, y: seq<seq<Packet>>, t: nat)
    requires |x| == |y| && forall a :: 0 <= a < |x| ==> |y[a]| <= |x[a]| + (if a == t then 1 else 0)
    ensures Total(y) <= Total(x) + (if t < |x| then 1 else 0)
  {
    if x != [] { TotalGrows(x[..|x| - 1], y[..|y| - 1], t); }
  }

  lemma {:induction false} TotalFalls(x: seq<seq<Packet>>, y: seq<seq<Packet>>, j: nat)
    requires |x| == |y| && j < |x| && |y[j]| < |x[j]| && forall a :: 0 <= a < |x| ==> |y[a]| <= |x[a]|
    ensures Total(y) < Total(x)
  {
    if j < |x| - 1 {
      TotalFalls(x[..|x| - 1], y[..|y| - 1], j);
    } else {
      TotalGrows(x[..|x| - 1], y[..|y| - 1], |x|);
    }
  }

  lemma LastOne<T>(x: seq<T>, y: seq<T>)
    ensures y == [] ==> x + y == x
    ensures y != [] ==> x + y == (x + y[..|y| - 1]) + [y[|y| - 1]]
  {
  }

  // The way in.

  lemma RunInPush(c: Config, inputs: seq<InIn>, i: InIn)
    requires Sane(c) && FitIn(c, inputs) && |i.full| == c.apps
    ensures FitIn(c, inputs + [i])
    ensures var (s, h) := RunIn(c, inputs);
            WiredIn(c, s, i) && |h.received| == c.apps && RunIn(c, inputs + [i]) == (NextIn(c, s, i), RecordIn(c, s, i, h))
  {
    assert (inputs + [i])[..|inputs + [i]| - 1] == inputs;
  }

  /** A packet of the shell is taken whenever there is room for it. */
  lemma InTaken(c: Config, inputs: seq<InIn>, i: InIn)
    requires Sane(c) && FitIn(c, inputs) && |i.full| == c.apps
    ensures (RunInPush(c, inputs, i);
             RunIn(c, inputs + [i]).1.entered
             == RunIn(c, inputs).1.entered
              + (if i.packet.Some? && |RunIn(c, inputs).0.unified| < c.inDepth then [i.packet.value] else []))
  {
    RunInPush(c, inputs, i);
  }

  /** The packets of `entered` that name application `a`: its number in the upper bits of the slot. */
  function Named(c: Config, a: nat): Packet -> bool
    requires c.bits <= 6
  {
    (p: Packet) => p.slot / Fifo.Pow2(6 - c.bits) % Fifo.Pow2(c.bits) == a
  }

  /** What an application receives is the payload, the end mark and the lower slot bits of the
      packets that name it, one by one. */
  lemma ContentsArrive(c: Config, inputs: seq<InIn>, a: nat, k: nat)
    requires Sane(c) && FitIn(c, inputs) && a < c.apps && k < |RunIn(c, inputs).1.received[a]|
    ensures var h := RunIn(c, inputs).1;
            var named := Filter(h.entered, Named(c, a));
            && k < |named|
            && h.received[a][k] == Packet(named[k].slot % Fifo.Pow2(6 - c.bits), named[k].payload, named[k].last)
  {
    PacketsReachTheirApp(c, inputs, a);
    var (s, h) := RunIn(c, inputs);
    hide RunIn;
    FilterAgree(h.entered, Named(c, a), IsTo(c, a));
    var named, rest := Filter(h.entered, IsTo(c, a)), Map(Filter(s.unified, IsTo(c, a)), Strip(c));
    hide Filter;
    assert Map(named, Strip(c))[k] == (h.received[a] + s.queues[a] + rest)[k] == h.received[a][k];
    assert Map(named, Strip(c))[k] == Stripped(c, named[k]);
  }

  /** Nobody is full and nothing new arrives. */
  predicate Draining(c: Config, i: InIn) {
    |i.full| == c.apps && i.packet == None && forall a :: 0 <= a < |i.full| ==> !i.full[a]
  }

  predicate AllDraining(c: Config, more: seq<InIn>) { forall k :: 0 <= k < |more| ==> Draining(c, more[k]) }

  function WorkIn(s: In): nat { 2 * |s.unified| + Total(s.queues) }

  ghost predicate NoStrays(c: Config, unified: seq<Packet>)
    requires c.bits <= 6
  {
    forall k :: 0 <= k < |unified| ==> Target(c, unified[k].slot) < c.apps
  }

  lemma StraysNot(c: Config, s: In, i: InIn)
    requires WiredIn(c, s, i) && Draining(c, i) && NoStrays(c, s.unified)
    ensures NoStrays(c, NextIn(c, s, i).unified)
    ensures s.unified != [] ==> Target(c, s.unified[0].slot) < c.apps
  {
    hide Target;
  }

  lemma NextQueues(c: Config, s: In, i: InIn)
    requires WiredIn(c, s, i) && Draining(c, i) && c.appDepth > 0
    ensures |NextIn(c, s, i).unified| == |s.unified| - (if Moves(c, s).Some? then 1 else 0)
    ensures |NextIn(c, s, i).queues| == |s.queues| == c.apps
    ensures forall a :: 0 <= a < c.apps ==>
              |NextIn(c, s, i).queues[a]| == |s.queues[a]| - (if s.queues[a] != [] then 1 else 0) + (if Moves(c, s) == Some(a) then 1 else 0)
    ensures s.unified != [] && Target(c, s.unified[0].slot) < c.apps && Moves(c, s).None? ==>
              s.queues[Target(c, s.unified[0].slot)] != []
  {
    hide Target, Stripped;
  }

  lemma InStep(c: Config, s: In, i: InIn)
    requires WiredIn(c, s, i) && Draining(c, i) && c.appDepth > 0 && NoStrays(c, s.unified)
    ensures NoStrays(c, NextIn(c, s, i).unified)
    ensures WorkIn(s) > 0 ==> WorkIn(NextIn(c, s, i)) < WorkIn(s)
    ensures WorkIn(s) == 0 ==> WorkIn(NextIn(c, s, i)) == 0
  {
    StraysNot(c, s, i);
    NextQueues(c, s, i);
    var s' := NextIn(c, s, i);
    hide Stripped, Target, NextIn, NoStrays;
    if Moves(c, s).Some? {
      TotalGrows(s.queues, s'.queues, Moves(c, s).value);
    } else {
      TotalGrows(s.queues, s'.queues, |s.queues|);
      if s.unified != [] {
        TotalFalls(s.queues, s'.queues, Target(c, s.unified[0].slot));
      } else if Total(s.queues) > 0 {
        var a :| 0 <= a < |s.queues| && s.queues[a] != [];
        TotalFalls(s.queues, s'.queues, a);
      }
    }
  }

  lemma {:induction false} InDrains(c: Config, inputs: seq<InIn>, more: seq<InIn>)
    requires Sane(c) && FitIn(c, inputs) && AllDraining(c, more) && c.appDepth > 0
    requires NoStrays(c, RunIn(c, inputs).0.unified)
    ensures FitIn(c, inputs + more)
    ensures var s, s' := RunIn(c, inputs).0, RunIn(c, inputs + more).0;
            NoStrays(c, s'.unified) && (WorkIn(s') == 0 || WorkIn(s') + |more| <= WorkIn(s))
    ensures RunIn(c, inputs + more).1.entered == RunIn(c, inputs).1.entered
  {
    hide *;
    LastOne(inputs, more);
    if more != [] {
      var before, i := inputs + more[..|more| - 1], more[|more| - 1];
      LastDraining(c, more);
      InDrains(c, inputs, more[..|more| - 1]);
      RunInPush(c, before, i);
      EnteredStays(c, RunIn(c, before).0, i, RunIn(c, before).1);
      InStep(c, RunIn(c, before).0, i);
    }
  }

  lemma LastDraining(c: Config, more: seq<InIn>)
    requires AllDraining(c, more) && more != []
    ensures AllDraining(c, more[..|more| - 1]) && Draining(c, more[|more| - 1]) && |more[|more| - 1].full| == c.apps
  {
  }

  lemma EnteredStays(c: Config, s: In, i: InIn, h: InHist)
    requires WiredIn(c, s, i) && |h.received| == c.apps && Draining(c, i)
    ensures RecordIn(c, s, i, h).entered == h.entered
  {
  }

  /** Every packet that names an application reaches it: with nobody full and none astray, what has
      entered has all been received once as many cycles have passed as there was work. */
  lemma EveryPacketArrives(c: Config, inputs: seq<InIn>, more: seq<InIn>, a: nat)
    requires Sane(c) && FitIn(c, inputs) && AllDraining(c, more) && c.appDepth > 0 && a < c.apps
    requires NoStrays(c, RunIn(c, inputs).0.unified) && |more| >= 2 * |RunIn(c, inputs).0.unified| + Total(RunIn(c, inputs).0.queues)
    ensures FitIn(c, inputs + more)
    ensures RunIn(c, inputs + more).1.received[a] == Map(Filter(RunIn(c, inputs).1.entered, Named(c, a)), Strip(c))
  {
    InDrains(c, inputs, more);
    PacketsReachTheirApp(c, inputs + more, a);
    var (s, h) := RunIn(c, inputs + more);
    assert |s.queues| == c.apps;
    hide RunIn, AllDraining, NoStrays;
    FilterAgree(h.entered, Named(c, a), IsTo(c, a));
    assert s.unified == [] && s.queues[a] == [];
    assert Map(Filter(s.unified, IsTo(c, a)), Strip(c)) == [];
  }

  lemma EmptyFilter(keep: Packet -> bool)
    ensures Filter([], keep) == []
  {
  }

  // The way out.

  lemma RunOutPush(c: Config, logApps: nat, inputs: seq<OutIn>, i: OutIn)
    requires Boots(c, logApps) && FitAll(c, inputs) && Fit(c, i)
    ensures FitAll(c, inputs + [i])
    ensures var (s, h) := RunOut(c, logApps, inputs);
            Wired(c, s) && |h.entered| == c.apps && RunOut(c, logApps, inputs + [i]) == (NextOut(c, s, i), RecordOut(c, s, i, h))
  {
    assert (inputs + [i])[..|inputs + [i]| - 1] == inputs;
  }

  /** A packet with an application's number above its lower slot bits, and otherwise as it was. */
  function Labelled(c: Config, a: nat, p: Packet): Packet
    requires c.bits <= 6
  {
    Packet(a * Fifo.Pow2(6 - c.bits) + p.slot % Fifo.Pow2(6 - c.bits), p.payload, p.last)
  }

  /** An enabled application's packet is taken whenever its queue has room, with its payload and its
      end mark, and the application's number above its lower slot bits. */
  lemma OutTaken(c: Config, logApps: nat, inputs: seq<OutIn>, i: OutIn, a: nat)
    requires Boots(c, logApps) && FitAll(c, inputs) && Fit(c, i) && a < c.apps
    ensures (RunOutPush(c, logApps, inputs, i);
             var (s, h) := RunOut(c, logApps, inputs);
             RunOut(c, logApps, inputs + [i]).1.entered[a]
             == h.entered[a]
              + (if i.enable[a] && i.offers[a].Some? && |s.queues[a]| < c.appDepth
                 then [Labelled(c, a, i.offers[a].value)] else []))
  {
    hide *;
    RunOutPush(c, logApps, inputs, i);
    var (s, h) := RunOut(c, logApps, inputs);
    EnteredIs(c, s, i, h, a);
  }

  lemma EnteredIs(c: Config, s: Out, i: OutIn, h: Hist, a: nat)
    requires Wired(c, s) && Fit(c, i) && |h.entered| == c.apps && a < c.apps
    ensures c.bits <= 6 && |i.enable| == |i.offers| == |s.queues| == |RecordOut(c, s, i, h).entered| == c.apps
    ensures RecordOut(c, s, i, h).entered[a]
         == h.entered[a]
          + (if i.enable[a] && i.offers[a].Some? && |s.queues[a]| < c.appDepth
             then [Labelled(c, a, i.offers[a].value)] else [])
  {
    hide Rivals, Writer, Written, Width;
  }

  /** The application chosen has a packet waiting, or is in the middle of a message. */
  ghost predicate ActiveHas(s: Out, log: seq<Entry>) {
    s.active.Some? ==>
      && s.active.value < |s.queues|
      && (s.queues[s.active.value] != [] || (log != [] && log[|log| - 1].app == s.active.value && !log[|log| - 1].packet.last))
  }

  lemma ActiveStep(c: Config, s: Out, i: OutIn, h: Hist)
    requires Wired(c, s) && Fit(c, i) && |h.entered| == c.apps && ActiveHas(s, h.log)
    ensures ActiveHas(NextOut(c, s, i), RecordOut(c, s, i, h).log)
  {
    hide Step, ArbReq, Rivals, Tagged;
  }

  lemma {:induction false} ActiveAlways(c: Config, logApps: nat, inputs: seq<OutIn>)
    requires Boots(c, logApps) && FitAll(c, inputs)
    ensures ActiveHas(RunOut(c, logApps, inputs).0, RunOut(c, logApps, inputs).1.log)
  {
    if inputs != [] {
      var n := |inputs| - 1;
      ActiveAlways(c, logApps, inputs[..n]);
      var (s, h) := RunOut(c, logApps, inputs[..n]);
      ActiveStep(c, s, inputs[n], h);
    }
  }

  /** The shell takes, and no application offers. */
  ghost predicate Quiet(c: Config, i: OutIn) {
    Fit(c, i) && i.grant && forall a :: 0 <= a < |i.offers| ==> i.offers[a] == None
  }

  ghost predicate AllQuiet(c: Config, more: seq<OutIn>) { forall k :: 0 <= k < |more| ==> Quiet(c, more[k]) }

  function WorkOut(s: Out): nat { 3 * Total(s.queues) + |s.unified| + (if s.active.None? then 1 else 0) }

  /** Every application's packets so far make up whole messages. */
  ghost predicate WholeMessages(entered: seq<seq<Packet>>) {
    forall a :: 0 <= a < |entered| && entered[a] != [] ==> entered[a][|entered[a]| - 1].last
  }

  lemma LastWritten(s: Out, h: Hist, a: nat)
    requires a < |s.queues| == |h.entered| && Conserved(s, h, a) && s.queues[a] == []
    requires h.log != [] && h.log[|h.log| - 1].app == a
    ensures h.entered[a] != [] && h.entered[a][|h.entered[a]| - 1] == h.log[|h.log| - 1].packet
  {
    var before, e := h.log[..|h.log| - 1], h.log[|h.log| - 1];
    assert h.log == before + [e];
    FilterPush(before, e, By(a));
    MapOne(Filter(before, By(a)), e);
    hide Filter, Map;
    assert h.entered[a] == Map(Filter(before, By(a)), PacketOf) + [e.packet];
  }

  /** With whole messages, the application whose turn it is has a packet. */
  lemma ActiveWaits(c: Config, s: Out, h: Hist)
    requires OutInv(c, s, h) && ActiveHas(s, h.log) && WholeMessages(h.entered) && s.active.Some?
    ensures s.active.value < |s.queues| && s.queues[s.active.value] != []
  {
    var a := s.active.value;
    assert Conserved(s, h, a);
    hide OutInv, Conserved;
    if s.queues[a] == [] { LastWritten(s, h, a); }
  }

  lemma QuietEnters(c: Config, s: Out, i: OutIn, h: Hist)
    requires Wired(c, s) && |h.entered| == c.apps && Quiet(c, i)
    ensures RecordOut(c, s, i, h).entered == h.entered
  {
    hide Rivals, Writer, Written, Width, Tagged;
    var entered := RecordOut(c, s, i, h).entered;
    forall a | 0 <= a < c.apps ensures entered[a] == h.entered[a] { assert i.offers[a] == None; }
  }

  lemma QueuesFall(c: Config, s: Out, i: OutIn)
    requires Wired(c, s) && Quiet(c, i)
    ensures Total(NextOut(c, s, i).queues) <= Total(s.queues) - (if Writer(c, s).Some? then 1 else 0)
  {
    hide Width, Tagged, Step, ArbReq, Choosing, Chosen, Written;
    var queues := NextOut(c, s, i).queues;
    forall a | 0 <= a < c.apps ensures |queues[a]| <= |s.queues[a]| - (if Writer(c, s) == Some(a) then 1 else 0) {
      assert i.offers[a] == None;
    }
    if Writer(c, s).Some? {
      TotalFalls(s.queues, queues, Writer(c, s).value);
    } else {
      TotalGrows(s.queues, queues, |s.queues|);
    }
  }

  lemma OutWorks(c: Config, s: Out, i: OutIn)
    requires Wired(c, s) && Quiet(c, i) && c.outDepth > 0 && (s.active.Some? ==> s.queues[s.active.value] != [])
    ensures var s' := NextOut(c, s, i);
            && (Total(s.queues) + |s.unified| > 0 ==> WorkOut(s') < WorkOut(s))
            && (Total(s.queues) + |s.unified| == 0 ==> Total(s'.queues) + |s'.unified| == 0)
  {
    QueuesFall(c, s, i);
    hide Width, Tagged, Step;
    if s.active.None? && Total(s.queues) > 0 { assert Chosen(c, s).Some?; }
  }

  lemma {:induction false} OutDrains(c: Config, logApps: nat, inputs: seq<OutIn>, more: seq<OutIn>)
    requires Boots(c, logApps) && FitAll(c, inputs) && AllQuiet(c, more) && c.outDepth > 0
    requires WholeMessages(RunOut(c, logApps, inputs).1.entered)
    ensures FitAll(c, inputs + more)
    ensures var (s, h) := RunOut(c, logApps, inputs); var (s', h') := RunOut(c, logApps, inputs + more);
            && h'.entered == h.entered
            && (Total(s'.queues) + |s'.unified| == 0 || WorkOut(s') + |more| <= WorkOut(s))
  {
    hide *;
    LastOne(inputs, more);
    if more != [] {
      var before, i := inputs + more[..|more| - 1], more[|more| - 1];
      LastQuiet(c, more);
      OutDrains(c, logApps, inputs, more[..|more| - 1]);
      RunOutPush(c, logApps, before, i);
      ActiveAlways(c, logApps, before);
      OutWorksHere(c, RunOut(c, logApps, before).0, i, RunOut(c, logApps, before).1);
    }
  }

  lemma LastQuiet(c: Config, more: seq<OutIn>)
    requires AllQuiet(c, more) && more != []
    ensures AllQuiet(c, more[..|more| - 1]) && Quiet(c, more[|more| - 1]) && Fit(c, more[|more| - 1])
  {
  }

  lemma OutWorksHere(c: Config, s: Out, i: OutIn, h: Hist)
    requires OutInv(c, s, h) && ActiveHas(s, h.log) && WholeMessages(h.entered) && Quiet(c, i) && c.outDepth > 0
    ensures Wired(c, s) && Fit(c, i) && |h.entered| == c.apps
    ensures RecordOut(c, s, i, h).entered == h.entered
    ensures var s' := NextOut(c, s, i);
            && (Total(s.queues) + |s.unified| > 0 ==> WorkOut(s') < WorkOut(s))
            && (Total(s.queues) + |s.unified| == 0 ==> Total(s'.queues) + |s'.unified| == 0)
  {
    assert Wired(c, s) && |h.entered| == c.apps;
    hide OutInv, NextOut, RecordOut, WorkOut, Wired;
    if s.active.Some? { ActiveWaits(c, s, h); }
    OutWorks(c, s, i);
    QuietEnters(c, s, i, h);
  }

  lemma WorkIs(s: Out)
    ensures 3 * Total(s.queues) + |s.unified| <= WorkOut(s) <= 3 * Total(s.queues) + |s.unified| + 1
  {
  }

  lemma NoneLeft(c: Config, s: Out, a: nat)
    requires Wired(c, s) && Total(s.queues) + |s.unified| == 0 && a < c.apps
    ensures c.bits <= 6 && |s.queues| == c.apps && s.unified == [] && s.queues[a] == []
  {
  }

  /** Every packet handed in leaves: when the applications have handed in whole messages and the shell
      takes, all of them are with the shell after three cycles a packet and one more. */
  lemma EveryPacketLeaves(c: Config, logApps: nat, inputs: seq<OutIn>, more: seq<OutIn>, a: nat)
    requires Boots(c, logApps) && FitAll(c, inputs) && AllQuiet(c, more) && c.outDepth > 0 && a < c.apps
    requires WholeMessages(RunOut(c, logApps, inputs).1.entered)
    requires |more| > 3 * Total(RunOut(c, logApps, inputs).0.queues) + |RunOut(c, logApps, inputs).0.unified|
    ensures FitAll(c, inputs + more)
    ensures Filter(RunOut(c, logApps, inputs + more).1.shell, IsOf(c, a)) == RunOut(c, logApps, inputs).1.entered[a]
  {
    hide *;
    OutDrains(c, logApps, inputs, more);
    var s := RunOut(c, logApps, inputs + more).0;
    WorkIs(RunOut(c, logApps, inputs).0);
    WorkIs(s);
    WiredAt(c, logApps, inputs + more);
    NoneLeft(c, s, a);
    EachAppInOrder(c, logApps, inputs + more, a);
    EmptyFilter(IsOf(c, a));
  }

  // Turns.

  /** A packet of the application whose turn it is goes into the shared queue whenever there is room,
      and the turn passes when nobody has it or a message ends. */
  lemma WrittenWhen(c: Config, logApps: nat, inputs: seq<OutIn>, i: OutIn)
    requires Boots(c, logApps) && FitAll(c, inputs) && Fit(c, i)
    ensures (RunOutPush(c, logApps, inputs, i);
             var (s, h) := RunOut(c, logApps, inputs);
             var log := RunOut(c, logApps, inputs + [i]).1.log;
             && (s.active.Some? && s.queues[s.active.value] != [] && |s.unified| < c.outDepth ==>
                   |log| == |h.log| + 1 && log[..|h.log|] == h.log
                   && log[|h.log|].app == s.active.value && log[|h.log|].packet == s.queues[s.active.value][0])
             && (!(s.active.Some? && s.queues[s.active.value] != [] && |s.unified| < c.outDepth) ==> log == h.log)
             && (Choosing(c, s) <==> s.active.None? || (|log| > |h.log| && log[|h.log|].packet.last)))
  {
    RunOutPush(c, logApps, inputs, i);
    hide RunOut, NextOut, Rivals, OutInv;
  }

  lemma TurnNears(c: Config, s: Out, i: OutIn, a: nat)
    requires Wired(c, s) && Fit(c, i) && a < c.apps && s.queues[a] != [] && s.active != Some(a)
    ensures var s' := NextOut(c, s, i);
            && s'.queues[a] != []
            && (Choosing(c, s) ==> Chosen(c, s).Some? && (Chosen(c, s) == Some(a) || Rank(s'.tree, a) < Rank(s.tree, a)))
            && (!Choosing(c, s) ==> s'.active == s.active && Rank(s'.tree, a) == Rank(s.tree, a))
  {
    var req := ArbReq(c, s);
    if Choosing(c, s) {
      assert req[a];
      if Chosen(c, s) != Some(a) { PassedOver(s.tree, req, a); }
    } else {
      assert true !in req;
      NobodyAsks(s.tree, req);
    }
    hide Rank, Step, Tagged;
  }

  /** How often the turn has passed from cycle `from` on. */
  ghost function Choices(c: Config, logApps: nat, inputs: seq<OutIn>, from: nat): nat
    requires Boots(c, logApps) && FitAll(c, inputs)
  {
    if |inputs| <= from then 0
    else
      var before := inputs[..|inputs| - 1];
      Choices(c, logApps, before, from) + (if Choosing(c, RunOut(c, logApps, before).0) then 1 else 0)
  }

  /** Application `a` has a packet waiting and the turn does not come to it. */
  ghost predicate Passed(c: Config, logApps: nat, inputs: seq<OutIn>, from: nat, a: nat)
    requires Boots(c, logApps) && FitAll(c, inputs)
  {
    forall k :: from <= k <= |inputs| ==> Outside(RunOut(c, logApps, inputs[..k]).0, a)
  }

  predicate Outside(s: Out, a: nat) { a < |s.queues| && s.queues[a] != [] && s.active != Some(a) }

  lemma PassedBefore(c: Config, logApps: nat, inputs: seq<OutIn>, from: nat, a: nat)
    requires Boots(c, logApps) && FitAll(c, inputs) && from < |inputs| && Passed(c, logApps, inputs, from, a)
    ensures var before := inputs[..|inputs| - 1];
            && FitAll(c, before) && Passed(c, logApps, before, from, a) && before[..from] == inputs[..from]
            && Outside(RunOut(c, logApps, before).0, a) && Outside(RunOut(c, logApps, inputs).0, a)
  {
    hide RunOut, Outside;
    var before := inputs[..|inputs| - 1];
    assert inputs[..|inputs|] == inputs;
    assert forall k :: 0 <= k <= |before| ==> before[..k] == inputs[..k];
  }

  lemma {:induction false} PassedFalls(c: Config, logApps: nat, inputs: seq<OutIn>, from: nat, a: nat)
    requires Boots(c, logApps) && FitAll(c, inputs) && from <= |inputs| && a < c.apps && Passed(c, logApps, inputs, from, a)
    ensures Wired(c, RunOut(c, logApps, inputs).0) && Wired(c, RunOut(c, logApps, inputs[..from]).0)
    ensures Rank(RunOut(c, logApps, inputs).0.tree, a) + Choices(c, logApps, inputs, from)
         <= Rank(RunOut(c, logApps, inputs[..from]).0.tree, a)
  {
    hide *;
    WiredAt(c, logApps, inputs);
    if from == |inputs| {
      assert inputs[..from] == inputs;
      NoChoices(c, logApps, inputs, from);
    } else {
      var before := inputs[..|inputs| - 1];
      PassedBefore(c, logApps, inputs, from, a);
      PassedFalls(c, logApps, before, from, a);
      PassedOnce(c, logApps, inputs, from, a);
    }
  }

  lemma WiredAt(c: Config, logApps: nat, inputs: seq<OutIn>)
    requires Boots(c, logApps) && FitAll(c, inputs)
    ensures Wired(c, RunOut(c, logApps, inputs).0)
  {
    hide RunOut;
  }

  lemma NoChoices(c: Config, logApps: nat, inputs: seq<OutIn>, from: nat)
    requires Boots(c, logApps) && FitAll(c, inputs) && |inputs| <= from
    ensures Choices(c, logApps, inputs, from) == 0
  {
  }

  lemma PassedOnce(c: Config, logApps: nat, inputs: seq<OutIn>, from: nat, a: nat)
    requires Boots(c, logApps) && FitAll(c, inputs) && from < |inputs| && a < c.apps
    requires var before := inputs[..|inputs| - 1];
             FitAll(c, before) && Outside(RunOut(c, logApps, before).0, a) && Outside(RunOut(c, logApps, inputs).0, a)
    ensures var before := inputs[..|inputs| - 1];
            var s, s' := RunOut(c, logApps, before).0, RunOut(c, logApps, inputs).0;
            && Wired(c, s) && Wired(c, s')
            && Rank(s'.tree, a) + Choices(c, logApps, inputs, from) <= Rank(s.tree, a) + Choices(c, logApps, before, from)
  {
    hide *;
    var before, i := inputs[..|inputs| - 1], inputs[|inputs| - 1];
    LastOne([], inputs);
    assert [] + inputs == inputs && [] + before == before;
    ChoicesStep(c, logApps, inputs, from);
    WiredAt(c, logApps, before);
    RunOutPush(c, logApps, before, i);
    TurnOnce(c, RunOut(c, logApps, before).0, i, a);
  }

  lemma ChoicesStep(c: Config, logApps: nat, inputs: seq<OutIn>, from: nat)
    requires Boots(c, logApps) && FitAll(c, inputs) && from < |inputs|
    ensures var before := inputs[..|inputs| - 1];
            && Fit(c, inputs[|inputs| - 1]) && FitAll(c, before)
            && Choices(c, logApps, inputs, from)
               == Choices(c, logApps, before, from) + (if Choosing(c, RunOut(c, logApps, before).0) then 1 else 0)
  {
    hide RunOut, Choosing, Boots, Wired, OutInv;
  }

  lemma TurnOnce(c: Config, s: Out, i: OutIn, a: nat)
    requires Wired(c, s) && Fit(c, i) && a < c.apps && Outside(s, a) && Outside(NextOut(c, s, i), a)
    ensures Wired(c, NextOut(c, s, i))
    ensures Rank(NextOut(c, s, i).tree, a) + (if Choosing(c, s) then 1 else 0) <= Rank(s.tree, a)
  {
    Waiting(s, a);
    Waiting(NextOut(c, s, i), a);
    hide Rank, Choosing, Chosen, Outside, Step, ArbReq, Tagged;
    TurnNears(c, s, i, a);
    ChosenNext(c, s, i);
  }

  lemma Waiting(s: Out, a: nat)
    requires Outside(s, a)
    ensures a < |s.queues| && s.queues[a] != [] && s.active != Some(a)
  {
  }

  lemma ChosenNext(c: Config, s: Out, i: OutIn)
    requires Wired(c, s) && Fit(c, i)
    ensures Choosing(c, s) ==> NextOut(c, s, i).active == Chosen(c, s)
  {
    hide Chosen, Choosing, Step, ArbReq, Tagged;
  }

  lemma {:induction false} TreeStays(c: Config, logApps: nat, inputs: seq<OutIn>)
    requires Boots(c, logApps) && FitAll(c, inputs)
    ensures Complete(RunOut(c, logApps, inputs).0.tree, logApps)
  {
    if inputs != [] {
      var n := |inputs| - 1;
      TreeStays(c, logApps, inputs[..n]);
      var s := RunOut(c, logApps, inputs[..n]).0;
      hide OutInv, Complete;
      StepComplete(s.tree, ArbReq(c, s), true, logApps);
    }
  }

  /** No application starves: one with a packet waiting gets the turn before it has passed to others as
      often as there are applications. */
  lemma TurnComes(c: Config, logApps: nat, inputs: seq<OutIn>, from: nat, a: nat)
    requires Boots(c, logApps) && FitAll(c, inputs) && from <= |inputs| && a < c.apps
    requires Choices(c, logApps, inputs, from) >= c.apps
    ensures !Passed(c, logApps, inputs, from, a)
  {
    if Passed(c, logApps, inputs, from, a) {
      PassedFalls(c, logApps, inputs, from, a);
      assert FitAll(c, inputs[..from]);
      TreeStays(c, logApps, inputs[..from]);
      hide RunOut, Passed, Choices, OutInv;
      CompleteRank(RunOut(c, logApps, inputs[..from]).0.tree, a, logApps);
    }
  }
}
