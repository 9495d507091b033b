/** Runs from boot on two FPGAs that end where the scheduler's choices surprise: a free slot is
    overlooked, and the more loaded FPGA is replaced. */
module HostScenarios {
  import opened Streams
  import opened HostModel
  import opened HostTheorems

  const PAIR := Image("pair", 2, [ImageSlot(0, "a"), ImageSlot(1, "a")])
  const BEE := Image("bee", 1, [ImageSlot(0, "b")])
  const CEE := Image("cee", 1, [ImageSlot(0, "c")])

  function LIBRARY(): seq<Image> { [PAIR, BEE, CEE] }

  lemma ImagesAreFine()
    ensures WellFormed(PAIR) && WellFormed(BEE) && WellFormed(CEE)
    ensures FreshSlots(PAIR) == [Slot("a", None), Slot("a", None)]
    ensures FreshSlots(CEE) == [Slot("c", None)]
  {
    assert PAIR.slots[..1] == [ImageSlot(0, "a")] && BEE.slots[..0] == [] && CEE.slots[..0] == [];
    assert SlotMap(PAIR.slots) == map[0 := "a", 1 := "a"];
    assert SlotMap(BEE.slots) == map[0 := "b"] && SlotMap(CEE.slots) == map[0 := "c"];
  }

  lemma CountFew(x: ImageSlot, y: ImageSlot, app: string)
    ensures Count([x], app) == if x.appId == app then 1 else 0
    ensures Count([x, y], app) == (if x.appId == app then 1 else 0) + (if y.appId == app then 1 else 0)
  {
    assert [x][..0] == [] && [x, y][..1] == [x];
  }

  lemma WhatFits(app: string)
    ensures Fits(PAIR, app) <==> app == "a"
    ensures Fits(BEE, app) <==> app == "b"
    ensures Fits(CEE, app) <==> app == "c"
  {
    CountFew(ImageSlot(0, "a"), ImageSlot(1, "a"), app);
    CountFew(ImageSlot(0, "b"), ImageSlot(0, "b"), app);
    CountFew(ImageSlot(0, "c"), ImageSlot(0, "c"), app);
  }

  /** Each application's image, by its place in the library. */
  lemma Chosen()
    ensures BestFitting(LIBRARY(), "a") == 0 && BestFitting(LIBRARY(), "b") == 1 && BestFitting(LIBRARY(), "c") == 2
  {
    WhatFits("a");
    WhatFits("b");
    WhatFits("c");
    hide Fits;
    var l := LIBRARY();
    assert l[..2] == [PAIR, BEE] && l[..2][..1] == [PAIR] && l[..2][..1][..0] == [];
    assert BestFitting([PAIR], "a") == 0 && BestFitting([PAIR], "b") == 0 && BestFitting([PAIR], "c") == 0;
    assert BestFitting([PAIR, BEE], "a") == 0 && BestFitting([PAIR, BEE], "b") == 1 && BestFitting([PAIR, BEE], "c") == 0;
  }

  function Free(app: string): Session { Session(app, false, NONE, NONE) }
  function At(app: string, f: nat, k: nat): Session { Session(app, true, f, k) }

  /** Two FPGAs with their images, tables and sessions. */
  function Two(c0: Option<Image>, c1: Option<Image>, s0: seq<Slot>, s1: seq<Slot>, sessions: map<nat, Session>): Host {
    Host(LIBRARY(), [c0, c1], [s0, s1], sessions, 4)
  }

  /** With an FPGA unloaded, its image is flashed before the search. */
  lemma PrepareTwo(h: Host, c0: Option<Image>, c1: Option<Image>, app: string)
    requires |h.slots| == 2 && h.current == [c0, c1] && |h.library| > 0
    ensures c0.None? ==> Prepare(h, app) == Flash(h, 0, app)
    ensures c0.Some? && c1.None? ==> Prepare(h, app) == Flash(h, 1, app)
    ensures c0.Some? && c1.Some? && Load(h.slots[0]) > 0 && Load(h.slots[1]) > 0 ==> Prepare(h, app) == h
  {
    assert h.current[..1] == [c0] && [c0][..0] == [];
    assert FirstUnloaded([c0]) == if c0.None? then Some(0) else None;
  }

  lemma ScanTwo(slots: seq<seq<Slot>>, app: string)
    requires |slots| == 2
    ensures Scan(slots, app, 2)
         == ScanSlots(slots[1], app, 1, Load(slots[1]), 0, ScanSlots(slots[0], app, 0, Load(slots[0]), 0, NOTHING))
  {
    assert Scan(slots, app, 1) == ScanSlots(slots[0], app, 0, Load(slots[0]), 0, Scan(slots, app, 0));
  }

  lemma Loads(a: Slot, b: Slot)
    ensures Load([]) == 0
    ensures Load([a]) == if a.who.Some? then 1 else 0
    ensures Load([a, b]) == (if a.who.Some? then 1 else 0) + (if b.who.Some? then 1 else 0)
  {
    assert [a][..0] == [] && [a, b][..1] == [a];
  }

  // The first scenario: three sessions of "a" leave one slot of FPGA 1 free.

  function Who(w: Option<nat>): Slot { Slot("a", w) }

  /** Sessions 1, 3 and 2 get their slots in that order. */
  function Started(): Host {
    Two(None, None, [], [], map[0 := Free("a"), 1 := Free("a"), 2 := Free("a"), 3 := Free("a")])
  }

  function OneBound(): Host {
    Two(Some(PAIR), None, [Who(Some(1)), Who(None)], [],
        map[0 := Free("a"), 1 := At("a", 0, 0), 2 := Free("a"), 3 := Free("a")])
  }

  function TwoBound(): Host {
    Two(Some(PAIR), Some(PAIR), [Who(Some(1)), Who(None)], [Who(Some(3)), Who(None)],
        map[0 := Free("a"), 1 := At("a", 0, 0), 2 := Free("a"), 3 := At("a", 1, 0)])
  }

  function FullButOne(): Host {
    Two(Some(PAIR), Some(PAIR), [Who(Some(1)), Who(Some(2))], [Who(Some(3)), Who(None)],
        map[0 := Free("a"), 1 := At("a", 0, 0), 2 := At("a", 0, 1), 3 := At("a", 1, 0)])
  }

  /** A free slot found is bound. */
  lemma ScheduleFree(h: Host, id: nat, ready: Host, f: nat, k: nat, load: nat)
    requires Shape(h) && |h.library| > 0 && id in h.sessions && ready == Prepare(h, h.sessions[id].app)
    requires Scan(ready.slots, h.sessions[id].app, |ready.slots|) == Search(true, true, f, k, load)
    ensures InSlots(ready, f, k) && id in ready.sessions && Schedule(h, id) == (Bind(ready, id, f, k), true)
  {
  }

  lemma PutTwo(a: seq<Slot>, b: seq<Slot>, k: nat, who: Option<nat>)
    ensures k < |a| ==> Put([a, b], 0, k, who) == [a[k := Slot(a[k].app, who)], b]
    ensures k < |b| ==> Put([a, b], 1, k, who) == [a, b[k := Slot(b[k].app, who)]]
  {
  }

  lemma PairUpdate(x: Slot, y: Slot, z: Slot)
    ensures [x, y][0 := z] == [z, y] && [x, y][1 := z] == [x, z]
  {
  }

  lemma FlashTwo(c0: Option<Image>, c1: Option<Image>, s0: seq<Slot>, s1: seq<Slot>, sessions: map<nat, Session>, app: string)
    ensures var image := LIBRARY()[BestFitting(LIBRARY(), app)]; var h := Two(c0, c1, s0, s1, sessions);
            && Flash(h, 0, app) == Two(Some(image), c1, FreshSlots(image), s1, sessions)
            && Flash(h, 1, app) == Two(c0, Some(image), s0, FreshSlots(image), sessions)
  {
    hide BestFitting, FreshSlots;
    var image := LIBRARY()[BestFitting(LIBRARY(), app)];
    assert [c0, c1][0 := Some(image)] == [Some(image), c1] && [c0, c1][1 := Some(image)] == [c0, Some(image)];
    assert [s0, s1][0 := FreshSlots(image)] == [FreshSlots(image), s1] && [s0, s1][1 := FreshSlots(image)] == [s0, FreshSlots(image)];
  }

  lemma BindTwo(c0: Option<Image>, c1: Option<Image>, s0: seq<Slot>, s1: seq<Slot>, sessions: map<nat, Session>, id: nat, k: nat)
    requires id in sessions
    ensures var h := Two(c0, c1, s0, s1, sessions);
            && (k < |s0| ==>
                  Bind(h, id, 0, k)
                  == Two(c0, c1, s0[k := Slot(s0[k].app, Some(id))], s1, sessions[id := At(sessions[id].app, 0, k)]))
            && (k < |s1| ==>
                  Bind(h, id, 1, k)
                  == Two(c0, c1, s0, s1[k := Slot(s1[k].app, Some(id))], sessions[id := At(sessions[id].app, 1, k)]))
  {
    PutTwo(s0, s1, k, Some(id));
    hide Put;
  }

  // The accesses, one by one.

  lemma FirstAccess()
    ensures Schedule(Started(), 1) == (OneBound(), true)
  {
    var bound, blank := Started().sessions, [Who(None), Who(None)];
    var ready := Two(Some(PAIR), None, blank, [], bound);
    assert Prepare(Started(), "a") == ready by { FirstReady(); }
    assert Scan(ready.slots, "a", 2) == Search(true, true, 0, 0, 0) by { ScanFirst(); }
    ScheduleFree(Started(), 1, ready, 0, 0, 0);
    hide Schedule, Scan, Prepare, Bind;
    BindTwo(Some(PAIR), None, blank, [], bound, 1, 0);
    PairUpdate(Who(None), Who(None), Who(Some(1)));
    assert bound[1 := At("a", 0, 0)] == OneBound().sessions;
  }

  lemma FirstReady()
    ensures Prepare(Started(), "a") == Two(Some(PAIR), None, [Who(None), Who(None)], [], Started().sessions)
  {
    ImagesAreFine();
    Chosen();
    PrepareTwo(Started(), None, None, "a");
    FlashTwo(None, None, [], [], Started().sessions, "a");
    hide BestFitting, FreshSlots, Flash, Prepare;
  }

  lemma ScanFirst()
    ensures Scan([[Who(None), Who(None)], []], "a", 2) == Search(true, true, 0, 0, 0)
  {
    Loads(Who(None), Who(None));
    ScanTwo([[Who(None), Who(None)], []], "a");
  }

  lemma SecondAccess()
    ensures Schedule(OneBound(), 3) == (TwoBound(), true)
  {
    var bound, s0, blank := OneBound().sessions, OneBound().slots[0], [Who(None), Who(None)];
    var ready := Two(Some(PAIR), Some(PAIR), s0, blank, bound);
    assert Prepare(OneBound(), "a") == ready by {
      ImagesAreFine();
      Chosen();
      PrepareTwo(OneBound(), Some(PAIR), None, "a");
      FlashTwo(Some(PAIR), None, s0, [], bound, "a");
      hide BestFitting, FreshSlots, Flash, Prepare;
    }
    assert Scan(ready.slots, "a", 2) == Search(true, true, 1, 0, 0) by { ScanSecond(); }
    ScheduleFree(OneBound(), 3, ready, 1, 0, 0);
    hide Schedule, Scan, Prepare, Bind;
    BindTwo(Some(PAIR), Some(PAIR), s0, blank, bound, 3, 0);
    PairUpdate(Who(None), Who(None), Who(Some(3)));
    assert bound[3 := At("a", 1, 0)] == TwoBound().sessions;
  }

  lemma ScanSecond()
    ensures Scan([[Who(Some(1)), Who(None)], [Who(None), Who(None)]], "a", 2) == Search(true, true, 1, 0, 0)
  {
    Loads(Who(None), Who(None));
    Loads(Who(Some(1)), Who(None));
    ScanTwo([[Who(Some(1)), Who(None)], [Who(None), Who(None)]], "a");
  }

  lemma ThirdAccess()
    ensures Schedule(TwoBound(), 2) == (FullButOne(), true)
  {
    var bound, s0, s1 := TwoBound().sessions, TwoBound().slots[0], TwoBound().slots[1];
    assert Prepare(TwoBound(), "a") == TwoBound() by {
      Loads(Who(Some(1)), Who(None));
      Loads(Who(Some(3)), Who(None));
      PrepareTwo(TwoBound(), Some(PAIR), Some(PAIR), "a");
    }
    assert Scan(TwoBound().slots, "a", 2) == Search(true, true, 0, 1, 1) by { ScanThird(); }
    ScheduleFree(TwoBound(), 2, TwoBound(), 0, 1, 1);
    hide Schedule, Scan, Prepare, Bind;
    BindTwo(Some(PAIR), Some(PAIR), s0, s1, bound, 2, 1);
    PairUpdate(Who(Some(1)), Who(None), Who(Some(2)));
    assert bound[2 := At("a", 0, 1)] == FullButOne().sessions;
  }

  lemma ScanThird()
    ensures Scan(TwoBound().slots, "a", 2) == Search(true, true, 0, 1, 1)
  {
    Loads(Who(Some(1)), Who(None));
    Loads(Who(Some(3)), Who(None));
    ScanTwo(TwoBound().slots, "a");
  }

  // From boot to the first access: the library, then four sessions.

  /** The first `n` sessions have been started, nothing is loaded. */
  function Begun(apps: seq<string>, n: nat): Host
    requires n <= |apps|
  {
    Host(LIBRARY(), [None, None], [[], []], map k: nat | k < n :: Free(apps[k]), n)
  }

  lemma Adding()
    ensures Parse([], LIBRARY()) == LIBRARY()
  {
    var l := LIBRARY();
    assert l[..2] == [PAIR, BEE] && l[..2][..1] == [PAIR] && l[..2][..1][..0] == [];
    assert Parse([], [PAIR]) == [PAIR];
    assert AgfiKnown([PAIR], "pair") && !AgfiKnown([PAIR], "bee");
    assert Parse([], [PAIR, BEE]) == [PAIR, BEE];
  }

  lemma StartStep(apps: seq<string>, n: nat)
    requires n < |apps| && apps[n] in {"a", "b", "c"}
    ensures Initiate(Begun(apps, n), apps[n]).0 == Begun(apps, n + 1)
  {
    WhatFits(apps[n]);
    assert LIBRARY()[0] == PAIR && LIBRARY()[1] == BEE && LIBRARY()[2] == CEE;
    hide Fits;
  }

  /** A command after a run. */
  lemma {:induction false} ThenLast(h: Host, commands: seq<Command>, last: Command, next: Host)
    requires Reachable(h) && AllowedRun(h, commands)
    requires Allowed(RunOf(h, commands), last) && Do(RunOf(h, commands), last) == next
    ensures Reachable(next)
    ensures AllowedRun(h, commands + [last]) && RunOf(h, commands + [last]) == next
    decreases |commands|
  {
    hide Reachable, Allowed, Do;
    var all := commands + [last];
    DoKeeps(RunOf(h, commands), last);
    if commands == [] {
      assert all[0] == last && all[1..] == [];
    } else {
      assert all[0] == commands[0] && all[1..] == commands[1..] + [last];
      DoKeeps(h, commands[0]);
      ThenLast(Do(h, commands[0]), commands[1..], last, next);
    }
  }

  /** A command after a run from boot. */
  lemma Extend(commands: seq<Command>, last: Command, next: Host)
    requires AllowedFromBoot(2, commands) && Allowed(RunFromBoot(2, commands), last)
    requires Do(RunFromBoot(2, commands), last) == next
    ensures AllowedFromBoot(2, commands + [last]) && RunFromBoot(2, commands + [last]) == next
  {
    BootIsReachable(2);
    hide Reachable, Allowed, Do;
    ThenLast(Boot(2), commands, last, next);
  }

  /** An access after a run from boot. */
  lemma ExtendAccess(commands: seq<Command>, id: nat, before: Host, next: Host)
    requires AllowedFromBoot(2, commands) && RunFromBoot(2, commands) == before
    requires id in before.sessions && !before.sessions[id].active && Shape(before) && |before.library| > 0
    requires Schedule(before, id).0 == next
    ensures AllowedFromBoot(2, commands + [Access(id)]) && RunFromBoot(2, commands + [Access(id)]) == next
  {
    hide AllowedFromBoot, RunFromBoot, Schedule;
    assert Reachable(before);
    assert Allowed(before, Access(id)) && Do(before, Access(id)) == next by { hide Reachable; }
    hide Reachable, Allowed, Do;
    Extend(commands, Access(id), next);
  }

  function Opening(apps: seq<string>, n: nat): seq<Command>
    requires n <= |apps|
  {
    if n == 0 then [AddImages(LIBRARY())] else Opening(apps, n - 1) + [Start(apps[n - 1])]
  }

  lemma {:induction false} Opens(apps: seq<string>, n: nat)
    requires n <= |apps| && forall k :: 0 <= k < n ==> apps[k] in {"a", "b", "c"}
    ensures AllowedFromBoot(2, Opening(apps, n)) && RunFromBoot(2, Opening(apps, n)) == Begun(apps, n)
  {
    hide AllowedFromBoot, RunFromBoot, Begun;
    if n == 0 {
      OpensLibrary(apps);
    } else {
      Opens(apps, n - 1);
      StartStep(apps, n - 1);
      Extend(Opening(apps, n - 1), Start(apps[n - 1]), Begun(apps, n));
    }
  }

  lemma OpensLibrary(apps: seq<string>)
    ensures AllowedFromBoot(2, Opening(apps, 0)) && RunFromBoot(2, Opening(apps, 0)) == Begun(apps, 0)
  {
    BootsTwo(apps);
    assert Allowed(Boot(2), AddImages(LIBRARY())) by { ImagesAreFine(); }
    BootIsReachable(2);
    assert Do(Boot(2), AddImages(LIBRARY())) == Begun(apps, 0) by {
      hide Reachable;
      Adding();
    }
    hide AllowedFromBoot, RunFromBoot, Begun, Allowed, Do, Reachable, Boot;
    Extend([], AddImages(LIBRARY()), Begun(apps, 0));
    assert [] + [AddImages(LIBRARY())] == Opening(apps, 0);
  }

  lemma BootsTwo(apps: seq<string>)
    ensures AllowedFromBoot(2, []) && RunFromBoot(2, []) == Boot(2)
    ensures Boot(2).(library := LIBRARY()) == Begun(apps, 0)
  {
    BootIsReachable(2);
    assert Boot(2).current == [None, None] && Boot(2).slots == [[], []];
    assert Begun(apps, 0).sessions == map[];
  }

  // First scenario, from boot.

  const FOUR := ["a", "a", "a", "a"]

  function ToFullButOne(): seq<Command> { Opening(FOUR, 4) + [Access(1)] + [Access(3)] + [Access(2)] }

  lemma BegunIsStarted()
    ensures Begun(FOUR, 4) == Started()
  {
    assert Begun(FOUR, 4).sessions == Started().sessions;
  }

  lemma ReachFullButOne()
    ensures AllowedFromBoot(2, ToFullButOne()) && RunFromBoot(2, ToFullButOne()) == FullButOne()
  {
    Opens(FOUR, 4);
    BegunIsStarted();
    FirstAccess();
    SecondAccess();
    ThirdAccess();
    hide AllowedFromBoot, RunFromBoot, Schedule, Opening, Begun;
    var c := Opening(FOUR, 4);
    ExtendAccess(c, 1, Started(), OneBound());
    ExtendAccess(c + [Access(1)], 3, OneBound(), TwoBound());
    ExtendAccess(c + [Access(1)] + [Access(3)], 2, TwoBound(), FullButOne());
  }

  lemma FullButOneLoads()
    ensures Load(FullButOne().slots[0]) == 2 && Load(FullButOne().slots[1]) == 1
  {
    Loads(Who(Some(1)), Who(Some(2)));
    Loads(Who(Some(3)), Who(None));
  }

  /** In a state reached from boot, FPGA 1 has a free slot for "a", and a session is evicted all the
      same when one is scheduled. */
  lemma FreeSlotOverlooked()
    ensures AllowedFromBoot(2, ToFullButOne())
    ensures var h := RunFromBoot(2, ToFullButOne());
            && Schedulable(h, 0) && h.sessions[0].app == "a" && |h.slots| == 2 && HasFree(h.slots[1], "a")
            && exists j :: j in h.sessions && j != 0 && Evicted(h, Schedule(h, 0).0, j)
  {
    ReachFullButOne();
    hide ToFullButOne, AllowedFromBoot, Schedule, Evicted, HasFree;
    assert Schedulable(FullButOne(), 0) by { KnownToBeFits(RunFromBoot(2, ToFullButOne()), 0); }
    Overlooked();
  }

  lemma Overlooked()
    requires Schedulable(FullButOne(), 0)
    ensures HasFree(FullButOne().slots[1], "a")
    ensures exists j :: j in FullButOne().sessions && j != 0 && Evicted(FullButOne(), Schedule(FullButOne(), 0).0, j)
  {
    var h := FullButOne();
    FullButOneLoads();
    assert h.slots[1][1] == Who(None);
    assert FirstMatch(h.slots[0], "a", 0) == 0 && FirstMatch(h.slots[1], "a", 0) == 0;
    assert Matching(h.slots, "a", 0) && !HasFree(h.slots[0], "a") && Hidden(h.slots, "a", 1);
    hide Schedule, Schedulable;
    EvictsUnlessVisible(h, 0);
  }

  /** A reachable state's sessions can be scheduled while they are not bound. */
  lemma KnownToBeFits(h: Host, id: nat)
    requires Reachable(h) && id in h.sessions && !h.sessions[id].active
    ensures Schedulable(h, id)
  {
    assert AppKnown(h.library, h.sessions[id].app);
  }

  // Second scenario: "c" runs on FPGA 0, two sessions of "a" on FPGA 1, and "b" needs an image.

  const MIXED := ["b", "c", "a", "a"]

  function Mixed(): Host {
    Two(None, None, [], [], map[0 := Free("b"), 1 := Free("c"), 2 := Free("a"), 3 := Free("a")])
  }

  function MixedOne(): Host {
    Two(Some(CEE), None, [Slot("c", Some(1))], [], map[0 := Free("b"), 1 := At("c", 0, 0), 2 := Free("a"), 3 := Free("a")])
  }

  function MixedTwo(): Host {
    Two(Some(CEE), Some(PAIR), [Slot("c", Some(1))], [Who(Some(2)), Who(None)],
        map[0 := Free("b"), 1 := At("c", 0, 0), 2 := At("a", 1, 0), 3 := Free("a")])
  }

  function Lopsided(): Host {
    Two(Some(CEE), Some(PAIR), [Slot("c", Some(1))], [Who(Some(2)), Who(Some(3))],
        map[0 := Free("b"), 1 := At("c", 0, 0), 2 := At("a", 1, 0), 3 := At("a", 1, 1)])
  }

  lemma MixedFirst()
    ensures Schedule(Mixed(), 1) == (MixedOne(), true)
  {
    var bound := Mixed().sessions;
    var ready := Two(Some(CEE), None, [Slot("c", None)], [], bound);
    assert Prepare(Mixed(), "c") == ready by { MixedFirstReady(); }
    assert Scan(ready.slots, "c", 2) == Search(true, true, 0, 0, 0) by {
      Loads(Slot("c", None), Slot("c", None));
      ScanTwo(ready.slots, "c");
    }
    ScheduleFree(Mixed(), 1, ready, 0, 0, 0);
    hide Schedule, Scan, Prepare, Bind;
    BindTwo(Some(CEE), None, [Slot("c", None)], [], bound, 1, 0);
    assert [Slot("c", None)][0 := Slot("c", Some(1))] == [Slot("c", Some(1))];
    assert bound[1 := At("c", 0, 0)] == MixedOne().sessions;
  }

  lemma MixedFirstReady()
    ensures Prepare(Mixed(), "c") == Two(Some(CEE), None, [Slot("c", None)], [], Mixed().sessions)
  {
    ImagesAreFine();
    Chosen();
    PrepareTwo(Mixed(), None, None, "c");
    FlashTwo(None, None, [], [], Mixed().sessions, "c");
    hide BestFitting, FreshSlots, Flash, Prepare;
  }

  lemma MixedSecond()
    ensures Schedule(MixedOne(), 2) == (MixedTwo(), true)
  {
    var bound, s0, blank := MixedOne().sessions, MixedOne().slots[0], [Who(None), Who(None)];
    var ready := Two(Some(CEE), Some(PAIR), s0, blank, bound);
    assert Prepare(MixedOne(), "a") == ready by { MixedSecondReady(); }
    assert Scan(ready.slots, "a", 2) == Search(true, true, 1, 0, 0) by { ScanMixedSecond(); }
    ScheduleFree(MixedOne(), 2, ready, 1, 0, 0);
    hide Schedule, Scan, Prepare, Bind;
    BindTwo(Some(CEE), Some(PAIR), s0, blank, bound, 2, 0);
    PairUpdate(Who(None), Who(None), Who(Some(2)));
    assert bound[2 := At("a", 1, 0)] == MixedTwo().sessions;
  }

  lemma MixedSecondReady()
    ensures Prepare(MixedOne(), "a")
         == Two(Some(CEE), Some(PAIR), MixedOne().slots[0], [Who(None), Who(None)], MixedOne().sessions)
  {
    ImagesAreFine();
    Chosen();
    PrepareTwo(MixedOne(), Some(CEE), None, "a");
    FlashTwo(Some(CEE), None, MixedOne().slots[0], [], MixedOne().sessions, "a");
    hide BestFitting, FreshSlots, Flash, Prepare;
  }

  lemma ScanMixedSecond()
    ensures Scan([[Slot("c", Some(1))], [Who(None), Who(None)]], "a", 2) == Search(true, true, 1, 0, 0)
  {
    Loads(Slot("c", Some(1)), Who(None));
    Loads(Who(None), Who(None));
    ScanTwo([[Slot("c", Some(1))], [Who(None), Who(None)]], "a");
  }

  lemma MixedThird()
    ensures Schedule(MixedTwo(), 3) == (Lopsided(), true)
  {
    var bound, s0, s1 := MixedTwo().sessions, MixedTwo().slots[0], MixedTwo().slots[1];
    assert Prepare(MixedTwo(), "a") == MixedTwo() by {
      Loads(Slot("c", Some(1)), Who(None));
      Loads(Who(Some(2)), Who(None));
      PrepareTwo(MixedTwo(), Some(CEE), Some(PAIR), "a");
    }
    assert Scan(MixedTwo().slots, "a", 2) == Search(true, true, 1, 1, 1) by { ScanMixed(); }
    ScheduleFree(MixedTwo(), 3, MixedTwo(), 1, 1, 1);
    hide Schedule, Scan, Prepare, Bind;
    BindTwo(Some(CEE), Some(PAIR), s0, s1, bound, 3, 1);
    PairUpdate(Who(Some(2)), Who(None), Who(Some(3)));
    assert bound[3 := At("a", 1, 1)] == Lopsided().sessions;
  }

  lemma ScanMixed()
    ensures Scan(MixedTwo().slots, "a", 2) == Search(true, true, 1, 1, 1)
  {
    Loads(Slot("c", Some(1)), Who(None));
    Loads(Who(Some(2)), Who(None));
    ScanTwo(MixedTwo().slots, "a");
  }

  function ToLopsided(): seq<Command> { Opening(MIXED, 4) + [Access(1)] + [Access(2)] + [Access(3)] }

  lemma BegunIsMixed()
    ensures Begun(MIXED, 4) == Mixed()
  {
    assert Begun(MIXED, 4).sessions == Mixed().sessions;
  }

  lemma ReachLopsided()
    ensures AllowedFromBoot(2, ToLopsided()) && RunFromBoot(2, ToLopsided()) == Lopsided()
  {
    Opens(MIXED, 4);
    BegunIsMixed();
    MixedFirst();
    MixedSecond();
    MixedThird();
    hide AllowedFromBoot, RunFromBoot, Schedule, Opening, Begun;
    var c := Opening(MIXED, 4);
    ExtendAccess(c, 1, Mixed(), MixedOne());
    ExtendAccess(c + [Access(1)], 2, MixedOne(), MixedTwo());
    ExtendAccess(c + [Access(1)] + [Access(2)], 3, MixedTwo(), Lopsided());
  }

  /** In a state reached from boot FPGA 0 holds one session and FPGA 1 two, and both of those are
      unbound to make room for "b". */
  lemma MoreLoadedIsReplaced()
    ensures AllowedFromBoot(2, ToLopsided())
    ensures var h := RunFromBoot(2, ToLopsided());
            && Schedulable(h, 0) && |h.slots| == 2
            && |On(h, 0)| == 1 && |On(h, 1)| == 2 && Unbound(h, Schedule(h, 0).0) == On(h, 1)
  {
    ReachLopsided();
    hide ToLopsided, AllowedFromBoot, Schedule, On, Unbound;
    assert Schedulable(Lopsided(), 0) by { KnownToBeFits(RunFromBoot(2, ToLopsided()), 0); }
    FullerReplaced();
  }

  lemma FullerReplaced()
    requires Schedulable(Lopsided(), 0)
    ensures |On(Lopsided(), 0)| == 1 && |On(Lopsided(), 1)| == 2
    ensures Unbound(Lopsided(), Schedule(Lopsided(), 0).0) == On(Lopsided(), 1)
  {
    var h := Lopsided();
    Loads(Slot("c", Some(1)), Who(None));
    Loads(Who(Some(2)), Who(Some(3)));
    assert FirstMatch(h.slots[0], "b", 0) == 1 && FirstMatch(h.slots[1], "b", 0) == 2;
    hide Schedule, On, Unbound;
    LoadIsSessions(h, 0);
    LoadIsSessions(h, 1);
    ReplacementCost(h, 0);
  }
}
