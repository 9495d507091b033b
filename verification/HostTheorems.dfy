/** What the scheduler promises: its two indices stay inverse, scheduling always succeeds, and
    whom it disturbs. */
module HostTheorems {
  import opened Streams
  import opened HostModel

  // The invariant, operation by operation.

  lemma BindKeeps(h: Host, id: nat, f: nat, k: nat)
    requires Inv(h) && InSlots(h, f, k) && id in h.sessions && !h.sessions[id].active
    requires h.slots[f][k] == Slot(h.sessions[id].app, None)
    ensures Inv(Bind(h, id, f, k))
  {
    var h' := Bind(h, id, f, k);
    forall g | 0 <= g < |h'.slots| ensures TableOf(h', g) { assert TableOf(h, g); }
    forall g: nat, j: nat | InSlots(h', g, j) ensures SlotAgrees(h', g, j) { assert InSlots(h, g, j) && SlotAgrees(h, g, j); }
    forall x | x in h'.sessions ensures SessionAgrees(h', x) { assert SessionAgrees(h, x); }
  }

  lemma UnbindKeeps(h: Host, f: nat, k: nat)
    requires Inv(h) && InSlots(h, f, k)
    ensures Inv(Unbind(h, f, k))
  {
    var h' := Unbind(h, f, k);
    assert SlotAgrees(h, f, k);
    forall g | 0 <= g < |h'.slots| ensures TableOf(h', g) { assert TableOf(h, g); }
    forall g: nat, j: nat | InSlots(h', g, j) ensures SlotAgrees(h', g, j) { assert InSlots(h, g, j) && SlotAgrees(h, g, j); }
    forall x | x in h'.sessions ensures SessionAgrees(h', x) { assert SessionAgrees(h, x); }
  }

  lemma {:induction false} UnbindFirstKeeps(h: Host, f: nat, n: nat)
    requires Inv(h) && f < |h.slots| && n <= |h.slots[f]|
    ensures Inv(UnbindFirst(h, f, n))
  {
    if n > 0 {
      UnbindFirstKeeps(h, f, n - 1);
      UnbindKeeps(UnbindFirst(h, f, n - 1), f, n - 1);
    }
  }

  /** Unbinding the first slots of an FPGA empties them and leaves every other slot alone. */
  lemma {:induction false} UnbindFirstSlots(h: Host, f: nat, n: nat, g: nat, k: nat)
    requires f < |h.slots| && n <= |h.slots[f]| && InSlots(h, g, k)
    ensures UnbindFirst(h, f, n).nextId == h.nextId
    ensures UnbindFirst(h, f, n).slots[g][k] == if g == f && k < n then Slot(h.slots[f][k].app, None) else h.slots[g][k]
  {
    if n > 0 {
      UnbindFirstSlots(h, f, n - 1, g, k);
    }
  }

  lemma UnbindSession(h: Host, f: nat, k: nat, id: nat)
    requires InSlots(h, f, k) && id in h.sessions
    ensures Unbind(h, f, k).sessions[id]
         == if h.slots[f][k].who == Some(id) then Session(h.sessions[id].app, false, NONE, NONE) else h.sessions[id]
  {
  }

  /** It releases the sessions of those slots and no other. */
  lemma {:induction false} UnbindFirstSessions(h: Host, f: nat, n: nat, id: nat)
    requires f < |h.slots| && n <= |h.slots[f]| && id in h.sessions && SessionAgrees(h, id)
    requires forall k :: 0 <= k < n ==> SlotAgrees(h, f, k)
    ensures UnbindFirst(h, f, n).sessions[id]
         == if h.sessions[id].active && h.sessions[id].fpga == f && h.sessions[id].slot < n
            then Session(h.sessions[id].app, false, NONE, NONE) else h.sessions[id]
  {
    if n > 0 {
      UnbindFirstSessions(h, f, n - 1, id);
      var u := UnbindFirst(h, f, n - 1);
      assert u.slots[f][n - 1] == h.slots[f][n - 1] by { UnbindFirstSlots(h, f, n - 1, f, n - 1); }
      UnbindSession(u, f, n - 1, id);
      assert h.slots[f][n - 1].who == Some(id)
        <==> h.sessions[id].active && h.sessions[id].fpga == f && h.sessions[id].slot == n - 1 by {
        assert SlotAgrees(h, f, n - 1);
      }
    }
  }

  /** Loading an image leaves the indices inverse exactly when nothing was running on that FPGA. */
  lemma SwitchKeeps(h: Host, f: nat, image: Image)
    requires Inv(h) && f < |h.slots| && image in h.library
    ensures Inv(Switch(h, f, image)) <==> Load(h.slots[f]) == 0
  {
    var h' := Switch(h, f, image);
    LoadZero(h.slots[f]);
    if Load(h.slots[f]) == 0 {
      forall g | 0 <= g < |h'.slots| ensures TableOf(h', g) { assert g != f ==> TableOf(h, g); }
      forall g: nat, j: nat | InSlots(h', g, j) ensures SlotAgrees(h', g, j) {
        if g != f { assert InSlots(h, g, j) && SlotAgrees(h, g, j); }
      }
      forall x | x in h'.sessions ensures SessionAgrees(h', x) { assert SessionAgrees(h, x); }
    } else {
      var k :| 0 <= k < |h.slots[f]| && h.slots[f][k].who.Some?;
      assert InSlots(h, f, k) && SlotAgrees(h, f, k);
      assert !SessionAgrees(h', h.slots[f][k].who.value);
    }
  }

  lemma InitiateKeeps(h: Host, app: string)
    requires Inv(h)
    ensures Inv(Initiate(h, app).0)
    ensures Initiate(h, app).1.Some? <==> exists i :: 0 <= i < |h.library| && Fits(h.library[i], app)
  {
    var h' := Initiate(h, app).0;
    forall g | 0 <= g < |h'.slots| ensures TableOf(h', g) { assert TableOf(h, g); }
    forall g: nat, j: nat | InSlots(h', g, j) ensures SlotAgrees(h', g, j) {
      assert InSlots(h, g, j) && SlotAgrees(h, g, j);
      if h.slots[g][j].who.Some? {
        var id := h.slots[g][j].who.value;
        assert SessionAgrees(h, id);
      }
    }
    forall x | x in h'.sessions ensures SessionAgrees(h', x) { assert x in h.sessions ==> SessionAgrees(h, x); }
  }

  /** The id answered is a new one and names the new session; nothing else changes. */
  lemma InitiateCreates(h: Host, app: string)
    requires Inv(h)
    ensures var (h', id) := Initiate(h, app);
            && (id.None? ==> h' == h)
            && (id.Some? ==>
                  && id.value !in h.sessions && h'.sessions.Keys == h.sessions.Keys + {id.value}
                  && h'.sessions[id.value] == Session(app, false, 0xFFFF_FFFF_FFFF_FFFF, 0xFFFF_FFFF_FFFF_FFFF)
                  && (forall j :: j in h.sessions ==> h'.sessions[j] == h.sessions[j])
                  && h'.slots == h.slots && h'.current == h.current && h'.library == h.library)
  {
    assert h.nextId in h.sessions ==> SessionAgrees(h, h.nextId);
  }

  lemma EndSessionKeeps(h: Host, id: nat)
    requires Inv(h) && id in h.sessions
    ensures SessionAgrees(h, id)
    ensures Inv(EndSession(h, id))
    ensures id !in EndSession(h, id).sessions
    ensures forall j :: j in h.sessions && j != id ==> j in EndSession(h, id).sessions && EndSession(h, id).sessions[j] == h.sessions[j]
  {
    assert SessionAgrees(h, id);
    var s := h.sessions[id];
    if s.active { UnbindKeeps(h, s.fpga, s.slot); }
    var u := if s.active then Unbind(h, s.fpga, s.slot) else h;
    var h' := EndSession(h, id);
    forall g | 0 <= g < |h'.slots| ensures TableOf(h', g) { assert TableOf(u, g); }
    forall g: nat, j: nat | InSlots(h', g, j) ensures SlotAgrees(h', g, j) { assert InSlots(u, g, j) && SlotAgrees(u, g, j); }
    forall x | x in h'.sessions ensures SessionAgrees(h', x) { assert SessionAgrees(u, x); }
  }

  // The search.

  /** The first slot built for the application is free. */
  function FirstMatch(slots: seq<Slot>, app: string, k: nat): (m: nat)
    requires k <= |slots|
    ensures k <= m <= |slots|
    ensures m < |slots| ==> slots[m].app == app
    ensures forall j :: k <= j < m ==> slots[j].app != app
    decreases |slots| - k
  {
    if k == |slots| || slots[k].app == app then k else FirstMatch(slots, app, k + 1)
  }

  predicate FirstMatchFree(slots: seq<Slot>, app: string, k: nat)
    requires k <= |slots|
  {
    var m := FirstMatch(slots, app, k);
    m < |slots| && slots[m].who.None?
  }

  predicate FreeFrom(slots: seq<Slot>, app: string, k: nat) {
    exists j :: 0 <= j < |slots| && k <= j && slots[j].app == app && slots[j].who.None?
  }

  predicate HasFree(slots: seq<Slot>, app: string) { FreeFrom(slots, app, 0) }

  /** What the inner loop finds, case by case. */
  lemma {:induction false} ScanSlotsFinds(slots: seq<Slot>, app: string, f: nat, load: nat, k: nat, p: Search)
    requires k <= |slots| && (p.free ==> p.found)
    ensures var r := ScanSlots(slots, app, f, load, k, p);
            && (r.found <==> p.found || FirstMatch(slots, app, k) < |slots|)
            && (p.free ==> r.free && r.load <= p.load && (FreeFrom(slots, app, k) ==> r.load <= load))
            && (!p.free && r.free ==> r.load == load)
            && (!p.free && !p.found ==> (r.free <==> FreeFrom(slots, app, k)))
            && (!p.free && p.found && p.load <= load ==> (r.free <==> FreeFrom(slots, app, k)))
            && (!p.free && p.found && p.load > load ==> (r.free <==> FirstMatchFree(slots, app, k)))
            && (!r.free ==> r.load <= p.load || !p.found)
            && (!r.free && FirstMatch(slots, app, k) < |slots| ==> r.load <= load)
    decreases |slots| - k
  {
    if k < |slots| {
      var next := if slots[k].app == app && slots[k].who.Some? && !p.found then Search(true, false, f, k, load) else p;
      ScanSlotsFinds(slots, app, f, load, k + 1, next);
      if slots[k].app == app && slots[k].who.None? {
        assert FreeFrom(slots, app, k);
      }
      assert FreeFrom(slots, app, k) <==> FreeFrom(slots, app, k + 1) || (slots[k].app == app && slots[k].who.None?);
    }
  }

  predicate Matching(slots: seq<seq<Slot>>, app: string, g: nat)
    requires g < |slots|
  {
    FirstMatch(slots[g], app, 0) < |slots[g]|
  }

  /** The search overlooks the free slots of an FPGA: its first matching slot is taken, and it is
      less loaded than every matching FPGA before it, of which there is one. */
  ghost predicate Hidden(slots: seq<seq<Slot>>, app: string, g: nat)
    requires g < |slots|
  {
    !FirstMatchFree(slots[g], app, 0) && LessThanAll(slots, app, g)
  }

  ghost predicate LessThanAll(slots: seq<seq<Slot>>, app: string, g: nat)
    requires g < |slots|
  {
    && (exists e :: 0 <= e < g && Matching(slots, app, e))
    && (forall e :: 0 <= e < g && Matching(slots, app, e) ==> Load(slots[e]) > Load(slots[g]))
  }

  ghost predicate Visible(slots: seq<seq<Slot>>, app: string, g: nat)
    requires g < |slots|
  {
    HasFree(slots[g], app) && !Hidden(slots, app, g)
  }

  lemma {:induction false} ScanFound(slots: seq<seq<Slot>>, app: string, n: nat)
    requires n <= |slots|
    ensures Scan(slots, app, n).free ==> Scan(slots, app, n).found
    ensures Scan(slots, app, n).found <==> exists g :: 0 <= g < n && Matching(slots, app, g)
  {
    if n > 0 {
      ScanFound(slots, app, n - 1);
      ScanSlotsFinds(slots[n - 1], app, n - 1, Load(slots[n - 1]), 0, Scan(slots, app, n - 1));
      assert Matching(slots, app, n - 1) ==> Scan(slots, app, n).found;
    }
  }

  /** Until a free slot is found, the slot remembered is on a least loaded matching FPGA. */
  lemma {:induction false} ScanLeastLoaded(slots: seq<seq<Slot>>, app: string, n: nat, g: nat)
    requires g < n <= |slots| && Matching(slots, app, g)
    requires !Scan(slots, app, n).free
    ensures Scan(slots, app, n).load <= Load(slots[g])
  {
    ScanFound(slots, app, n - 1);
    RowLeastLoaded(slots[n - 1], app, n - 1, Load(slots[n - 1]), Scan(slots, app, n - 1));
    if g < n - 1 {
      ScanLeastLoaded(slots, app, n - 1, g);
    }
  }

  lemma RowLeastLoaded(row: seq<Slot>, app: string, f: nat, load: nat, p: Search)
    requires (p.free ==> p.found) && !ScanSlots(row, app, f, load, 0, p).free
    ensures !p.free && (p.found ==> ScanSlots(row, app, f, load, 0, p).load <= p.load)
    ensures FirstMatch(row, app, 0) < |row| ==> ScanSlots(row, app, f, load, 0, p).load <= load
  {
    ScanSlotsFinds(row, app, f, load, 0, p);
  }

  /** A free first match is never missed, and only a no more loaded FPGA is preferred to it. */
  lemma {:induction false} ScanPrefersFree(slots: seq<seq<Slot>>, app: string, n: nat, g: nat)
    requires g < n <= |slots| && FirstMatchFree(slots[g], app, 0)
    ensures Scan(slots, app, n).free && Scan(slots, app, n).load <= Load(slots[g])
  {
    if g < n - 1 {
      ScanPrefersFree(slots, app, n - 1, g);
    }
    ScanFound(slots, app, n - 1);
    RowPrefersFree(slots[n - 1], app, n - 1, Load(slots[n - 1]), Scan(slots, app, n - 1));
  }

  lemma RowPrefersFree(row: seq<Slot>, app: string, f: nat, load: nat, p: Search)
    requires p.free ==> p.found
    ensures p.free ==> ScanSlots(row, app, f, load, 0, p).free && ScanSlots(row, app, f, load, 0, p).load <= p.load
    ensures FirstMatchFree(row, app, 0) ==> ScanSlots(row, app, f, load, 0, p).free && ScanSlots(row, app, f, load, 0, p).load <= load
  {
    ScanSlotsFinds(row, app, f, load, 0, p);
    assert FirstMatchFree(row, app, 0) ==> FreeFrom(row, app, 0);
  }

  /** One FPGA's turn, when nothing free has been found before it. */
  lemma RowTurn(row: seq<Slot>, app: string, f: nat, load: nat, p: Search)
    requires !p.free
    ensures ScanSlots(row, app, f, load, 0, p).free
       <==> HasFree(row, app) && (p.found && p.load > load ==> FirstMatchFree(row, app, 0))
  {
    ScanSlotsFinds(row, app, f, load, 0, p);
  }

  lemma RememberedIsLeast(slots: seq<seq<Slot>>, app: string, g: nat)
    requires g < |slots| && !Scan(slots, app, g).free
    ensures Scan(slots, app, g).found && Scan(slots, app, g).load > Load(slots[g]) <==> LessThanAll(slots, app, g)
  {
    var p, load := Scan(slots, app, g), Load(slots[g]);
    assert p.found <==> exists e :: 0 <= e < g && Matching(slots, app, e) by { ScanFound(slots, app, g); }
    assert p.found ==> Matching(slots, app, p.fpga);
    forall e | 0 <= e < g && Matching(slots, app, e) ensures Load(slots[e]) >= p.load {
      ScanLeastLoaded(slots, app, g, e);
    }
  }

  lemma ScanTurn(slots: seq<seq<Slot>>, app: string, n: nat)
    requires 0 < n <= |slots| && !Scan(slots, app, n - 1).free
    ensures Scan(slots, app, n).free <==> Visible(slots, app, n - 1)
  {
    RememberedIsLeast(slots, app, n - 1);
    RowTurn(slots[n - 1], app, n - 1, Load(slots[n - 1]), Scan(slots, app, n - 1));
  }

  /** A free matching slot is found exactly when one is not hidden. */
  lemma {:induction false} FoundUnlessHidden(slots: seq<seq<Slot>>, app: string, n: nat)
    requires n <= |slots|
    ensures Scan(slots, app, n).free <==> exists g :: 0 <= g < n && Visible(slots, app, g)
  {
    if n > 0 {
      FoundUnlessHidden(slots, app, n - 1);
      if Scan(slots, app, n - 1).free {
        StaysFree(slots, app, n);
        var g :| 0 <= g < n - 1 && Visible(slots, app, g);
        assert 0 <= g < n && Visible(slots, app, g);
      } else {
        ScanTurn(slots, app, n);
      }
    }
  }

  lemma StaysFree(slots: seq<seq<Slot>>, app: string, n: nat)
    requires 0 < n <= |slots| && Scan(slots, app, n - 1).free
    ensures Scan(slots, app, n).free
  {
    ScanFound(slots, app, n - 1);
    ScanSlotsFinds(slots[n - 1], app, n - 1, Load(slots[n - 1]), 0, Scan(slots, app, n - 1));
  }

  // Scheduling.

  /** The session is known, not bound, and some image holds its application. */
  ghost predicate Schedulable(h: Host, id: nat) {
    && Inv(h) && id in h.sessions && !h.sessions[id].active
    && exists i :: 0 <= i < |h.library| && Fits(h.library[i], h.sessions[id].app)
  }

  lemma EmptyHasNoLoad(h: Host)
    requires Inv(h)
    ensures EmptyFpga(h).Some? ==> Load(h.slots[EmptyFpga(h).value]) == 0
    ensures EmptyFpga(h).None? ==> forall f :: 0 <= f < |h.slots| ==> Load(h.slots[f]) > 0
  {
    var f := FirstUnloaded(h.current);
    if f.Some? {
      assert TableOf(h, f.value);
    }
  }

  lemma FlashKeeps(h: Host, f: nat, app: string)
    requires Inv(h) && f < |h.slots| && Load(h.slots[f]) == 0
    requires exists i :: 0 <= i < |h.library| && Fits(h.library[i], app)
    ensures Inv(Flash(h, f, app))
    ensures Load(Flash(h, f, app).slots[f]) == 0 && HasApp(Flash(h, f, app).slots[f], app)
  {
    BestFittingFits(h.library, app);
    var image := h.library[BestFitting(h.library, app)];
    SwitchKeeps(h, f, image);
    FittingImageHasApp(image, app);
    LoadZero(FreshSlots(image));
  }

  /** A slot for the application on an FPGA without sessions is a free first match. */
  lemma IdleHasFreeMatch(slots: seq<Slot>, app: string)
    requires Load(slots) == 0 && HasApp(slots, app)
    ensures FirstMatchFree(slots, app, 0) && FirstFree(slots, app).Some?
  {
    LoadZero(slots);
  }

  lemma PrepareKeeps(h: Host, id: nat)
    requires Schedulable(h, id)
    ensures Schedulable(Prepare(h, h.sessions[id].app), id)
    ensures forall g :: 0 <= g < |h.slots| ==> Load(Prepare(h, h.sessions[id].app).slots[g]) == Load(h.slots[g])
  {
    EmptyHasNoLoad(h);
    var f := EmptyFpga(h);
    if f.Some? { FlashKeeps(h, f.value, h.sessions[id].app); }
  }

  lemma BindSearched(h: Host, id: nat, p: Search)
    requires Schedulable(h, id) && p == Scan(h.slots, h.sessions[id].app, |h.slots|) && p.found
    ensures p.free ==> Inv(Bind(h, id, p.fpga, p.slot))
    ensures !p.free ==> Inv(Bind(Unbind(h, p.fpga, p.slot), id, p.fpga, p.slot))
  {
    if p.free {
      BindKeeps(h, id, p.fpga, p.slot);
    } else {
      UnbindKeeps(h, p.fpga, p.slot);
      assert SlotAgrees(h, p.fpga, p.slot);
      BindKeeps(Unbind(h, p.fpga, p.slot), id, p.fpga, p.slot);
    }
  }

  lemma UnbindAllIdle(h: Host, f: nat)
    requires Inv(h) && f < |h.slots|
    ensures Inv(UnbindAll(h, f)) && Load(UnbindAll(h, f).slots[f]) == 0
  {
    UnbindFirstKeeps(h, f, |h.slots[f]|);
    var u := UnbindAll(h, f);
    forall k | 0 <= k < |u.slots[f]| ensures u.slots[f][k].who == None {
      UnbindFirstSlots(h, f, |h.slots[f]|, f, k);
    }
    LoadZero(u.slots[f]);
  }

  lemma UnbindAllSessions(h: Host, f: nat, id: nat)
    requires Inv(h) && f < |h.slots| && id in h.sessions
    ensures UnbindAll(h, f).sessions[id]
         == if h.sessions[id].active && h.sessions[id].fpga == f then Session(h.sessions[id].app, false, NONE, NONE) else h.sessions[id]
  {
    forall k | 0 <= k < |h.slots[f]| ensures SlotAgrees(h, f, k) { assert InSlots(h, f, k); }
    assert SessionAgrees(h, id);
    UnbindFirstSessions(h, f, |h.slots[f]|, id);
  }

  lemma ReplaceSucceeds(h: Host, id: nat)
    requires Schedulable(h, id)
    ensures var r := Replace(h, id, h.sessions[id].app);
            r.1 && Inv(r.0) && r.0.sessions[id].active && r.0.sessions[id].fpga == |h.slots| - 1
            && r.0.sessions[id].app == h.sessions[id].app
  {
    var f, app := |h.slots| - 1, h.sessions[id].app;
    UnbindAllIdle(h, f);
    UnbindAllSessions(h, f, id);
    var u := UnbindAll(h, f);
    FlashKeeps(u, f, app);
    var flashed := Flash(u, f, app);
    IdleHasFreeMatch(flashed.slots[f], app);
    BindKeeps(flashed, id, f, FirstFree(flashed.slots[f], app).value);
  }

  /** Scheduling always succeeds: the session ends up bound, to a slot of the loaded image built
      for its application, and the indices are still inverse. */
  lemma SchedulingSucceeds(h: Host, id: nat)
    requires Schedulable(h, id)
    ensures var (h', ok) := Schedule(h, id);
            && ok && Inv(h') && h'.sessions.Keys == h.sessions.Keys
            && var s := h'.sessions[id];
               s.active && s.app == h.sessions[id].app && InSlots(h', s.fpga, s.slot)
               && h'.slots[s.fpga][s.slot] == Slot(s.app, Some(id))
  {
    Binds(h, id);
    BoundSlot(Schedule(h, id).0, id);
  }

  lemma BoundSlot(h: Host, id: nat)
    requires Inv(h) && id in h.sessions && h.sessions[id].active
    ensures var s := h.sessions[id]; InSlots(h, s.fpga, s.slot) && h.slots[s.fpga][s.slot] == Slot(s.app, Some(id))
  {
  }

  lemma Binds(h: Host, id: nat)
    requires Schedulable(h, id)
    ensures var (h', ok) := Schedule(h, id);
            && ok && Inv(h') && h'.sessions.Keys == h.sessions.Keys
            && h'.sessions[id].active && h'.sessions[id].app == h.sessions[id].app
  {
    var app := h.sessions[id].app;
    var ready := Prepare(h, app);
    assert Schedulable(ready, id) by { PrepareKeeps(h, id); }
    var p := Scan(ready.slots, app, |ready.slots|);
    assert p.free ==> p.found by { ScanFound(ready.slots, app, |ready.slots|); }
    if p.found { BindSearched(ready, id, p); } else { ReplaceSucceeds(ready, id); }
  }

  // Whom it disturbs.

  datatype Effect = NoOne | One(victim: nat) | AllOn(fpga: nat)

  /** What an effect does to a session. */
  function After(e: Effect, j: nat, s: Session): Session {
    if (e.One? && j == e.victim) || (e.AllOn? && s.active && s.fpga == e.fpga) then Session(s.app, false, NONE, NONE) else s
  }

  function EffectOf(h: Host, id: nat): Effect
    requires Shape(h) && |h.library| > 0 && id in h.sessions
  {
    var ready := Prepare(h, h.sessions[id].app);
    var p := Scan(ready.slots, h.sessions[id].app, |ready.slots|);
    if p.free then NoOne
    else if p.found then (match ready.slots[p.fpga][p.slot].who case Some(v) => One(v) case None => NoOne)
    else AllOn(|h.slots| - 1)
  }

  lemma EffectIs(h: Host, id: nat, j: nat)
    requires Schedulable(h, id) && j in h.sessions && j != id
    ensures j in Schedule(h, id).0.sessions && Schedule(h, id).0.sessions[j] == After(EffectOf(h, id), j, h.sessions[j])
  {
    var app := h.sessions[id].app;
    var ready := Prepare(h, app);
    assert Schedulable(ready, id) by { PrepareKeeps(h, id); }
    var p := Scan(ready.slots, app, |ready.slots|);
    assert p.free ==> p.found by { ScanFound(ready.slots, app, |ready.slots|); }
    if p.found {
      assert InSlots(ready, p.fpga, p.slot) && SlotAgrees(ready, p.fpga, p.slot);
    } else {
      ReplaceEffect(ready, id, j);
    }
  }

  lemma ReplaceEffect(h: Host, id: nat, j: nat)
    requires Schedulable(h, id) && j in h.sessions && j != id
    ensures var h' := Replace(h, id, h.sessions[id].app).0;
            j in h'.sessions && h'.sessions[j] == After(AllOn(|h.slots| - 1), j, h.sessions[j])
  {
    assert UnbindAll(h, |h.slots| - 1).sessions[j] == After(AllOn(|h.slots| - 1), j, h.sessions[j]) by {
      UnbindAllSessions(h, |h.slots| - 1, j);
    }
  }

  /** Every session but the scheduled one is left alone, or lost its slot as the effect says: no
      one, the one session whose slot was taken over, or all of those on the last FPGA. */
  lemma SchedulingDisturbs(h: Host, id: nat)
    requires Schedulable(h, id)
    ensures var h', e := Schedule(h, id).0, EffectOf(h, id);
            && (forall j :: j in h.sessions && j != id ==> j in h'.sessions && h'.sessions[j] == After(e, j, h.sessions[j]))
            && (e.One? ==> e.victim in h.sessions && e.victim != id && h.sessions[e.victim].active
                           && h.sessions[e.victim].app == h.sessions[id].app
                           && (h'.sessions[id].fpga, h'.sessions[id].slot) == (h.sessions[e.victim].fpga, h.sessions[e.victim].slot))
            && (e.AllOn? ==> e.fpga == |h.slots| - 1 && h'.sessions[id].fpga == e.fpga)
  {
    var h', e := Schedule(h, id).0, EffectOf(h, id);
    SchedulingSucceeds(h, id);
    PrepareKeeps(h, id);
    forall j | j in h.sessions && j != id ensures h'.sessions[j] == After(e, j, h.sessions[j]) { EffectIs(h, id, j); }
    var ready := Prepare(h, h.sessions[id].app);
    var p := Scan(ready.slots, h.sessions[id].app, |ready.slots|);
    ScanFound(ready.slots, h.sessions[id].app, |ready.slots|);
    if p.found {
      assert InSlots(ready, p.fpga, p.slot) && SlotAgrees(ready, p.fpga, p.slot);
    } else {
      ReplaceSucceeds(ready, id);
    }
  }

  /** With an FPGA that has no image or no session, nobody is disturbed and the session lands on
      an FPGA that had no session. */
  lemma IdleMeansNoEviction(h: Host, id: nat, f: nat)
    requires Schedulable(h, id) && f < |h.slots| && (h.current[f].None? || Load(h.slots[f]) == 0)
    ensures EffectOf(h, id) == NoOne
    ensures Schedule(h, id).0.sessions[id].fpga < |h.slots| && Load(h.slots[Schedule(h, id).0.sessions[id].fpga]) == 0
  {
    assert TableOf(h, f);
    EmptyHasNoLoad(h);
    var g, app := EmptyFpga(h).value, h.sessions[id].app;
    PrepareKeeps(h, id);
    FlashKeeps(h, g, app);
    var ready := Prepare(h, app);
    IdleHasFreeMatch(ready.slots[g], app);
    ScanPrefersFree(ready.slots, app, |ready.slots|, g);
    ScanFound(ready.slots, app, |ready.slots|);
  }

  ghost predicate Busy(h: Host)
    requires Shape(h)
  {
    forall f :: 0 <= f < |h.slots| ==> h.current[f].Some? && Load(h.slots[f]) > 0
  }

  /** A session that is evicted when no free slot is found. */
  lemma Victim(h: Host, id: nat) returns (j: nat)
    requires Schedulable(h, id) && Busy(h) && EffectOf(h, id) != NoOne
    ensures j in h.sessions && j != id && h.sessions[j].active
    ensures After(EffectOf(h, id), j, h.sessions[j]) != h.sessions[j]
  {
    EmptyHasNoLoad(h);
    var p := Scan(h.slots, h.sessions[id].app, |h.slots|);
    var g := if p.found then p.fpga else |h.slots| - 1;
    var k := if p.found then p.slot else BusySlot(h.slots[g]);
    assert InSlots(h, g, k) && SlotAgrees(h, g, k);
    j := h.slots[g][k].who.value;
  }

  lemma BusyEffect(h: Host, id: nat)
    requires Schedulable(h, id) && Busy(h)
    ensures EffectOf(h, id) == NoOne <==> Scan(h.slots, h.sessions[id].app, |h.slots|).free
  {
  }

  /** On busy FPGAs somebody loses a slot exactly when every free slot for the application is
      overlooked by the search. */
  lemma EvictsUnlessVisible(h: Host, id: nat)
    requires Schedulable(h, id) && Busy(h)
    ensures (exists j :: j in h.sessions && j != id && Evicted(h, Schedule(h, id).0, j))
       <==> !exists g :: 0 <= g < |h.slots| && Visible(h.slots, h.sessions[id].app, g)
  {
    BusyEffect(h, id);
    FoundUnlessHidden(h.slots, h.sessions[id].app, |h.slots|);
    if EffectOf(h, id) == NoOne {
      forall j | j in h.sessions && j != id ensures !Evicted(h, Schedule(h, id).0, j) { EffectIs(h, id, j); }
    } else {
      var j := Victim(h, id);
      EffectIs(h, id, j);
      assert Evicted(h, Schedule(h, id).0, j);
    }
  }

  predicate Evicted(h: Host, h': Host, j: nat) {
    j in h.sessions && h.sessions[j].active && j in h'.sessions && !h'.sessions[j].active
  }

  function BusySlot(slots: seq<Slot>): (k: nat)
    requires Load(slots) > 0
    ensures k < |slots| && slots[k].who.Some?
  {
    if slots[|slots| - 1].who.Some? then |slots| - 1 else BusySlot(slots[..|slots| - 1])
  }

  // What a replacement costs.

  /** The sessions bound on an FPGA. */
  ghost function On(h: Host, f: nat): set<nat> {
    set j | j in h.sessions && h.sessions[j].active && h.sessions[j].fpga == f
  }

  ghost function OnFirst(h: Host, f: nat, n: nat): set<nat> {
    set j | j in h.sessions && h.sessions[j].active && h.sessions[j].fpga == f && h.sessions[j].slot < n
  }

  ghost function Unbound(h: Host, h': Host): set<nat> {
    set j | j in h.sessions && Evicted(h, h', j)
  }

  /** The load of an FPGA is the number of sessions bound there. */
  lemma {:induction false} LoadCounts(h: Host, f: nat, n: nat)
    requires Inv(h) && f < |h.slots| && n <= |h.slots[f]|
    ensures |OnFirst(h, f, n)| == Load(h.slots[f][..n])
  {
    if n == 0 {
      assert OnFirst(h, f, 0) == {};
    } else {
      LoadCounts(h, f, n - 1);
      assert h.slots[f][..n][..n - 1] == h.slots[f][..n - 1];
      OneSlotMore(h, f, n);
    }
  }

  lemma OneSlotMore(h: Host, f: nat, n: nat)
    requires Inv(h) && f < |h.slots| && 0 < n <= |h.slots[f]|
    ensures |OnFirst(h, f, n)| == |OnFirst(h, f, n - 1)| + (if h.slots[f][n - 1].who.Some? then 1 else 0)
  {
    var who, fewer := h.slots[f][n - 1].who, OnFirst(h, f, n - 1);
    forall j | j in h.sessions
      ensures h.sessions[j].active && h.sessions[j].fpga == f && h.sessions[j].slot == n - 1 <==> who == Some(j)
    {
      assert SessionAgrees(h, j) && InSlots(h, f, n - 1) && SlotAgrees(h, f, n - 1);
    }
    assert InSlots(h, f, n - 1) && SlotAgrees(h, f, n - 1);
    if who.Some? {
      assert OnFirst(h, f, n) == fewer + {who.value} && who.value !in fewer;
    } else {
      assert OnFirst(h, f, n) == fewer;
    }
  }

  lemma LoadIsSessions(h: Host, f: nat)
    requires Inv(h) && f < |h.slots|
    ensures |On(h, f)| == Load(h.slots[f])
  {
    LoadCounts(h, f, |h.slots[f]|);
    assert h.slots[f][..|h.slots[f]|] == h.slots[f];
    forall j | j in On(h, f) ensures j in OnFirst(h, f, |h.slots[f]|) { assert SessionAgrees(h, j); }
    assert On(h, f) == OnFirst(h, f, |h.slots[f]|);
  }

  /** When no busy FPGA has a slot for the application, the sessions unbound are those of the last
      FPGA; they are the fewest any replacement would unbind exactly when that FPGA's load is the
      least. */
  lemma ReplacementCost(h: Host, id: nat)
    requires Schedulable(h, id) && Busy(h)
    requires forall g :: 0 <= g < |h.slots| ==> !Matching(h.slots, h.sessions[id].app, g)
    ensures var unbound, last := Unbound(h, Schedule(h, id).0), |h.slots| - 1;
            && unbound == On(h, last) && |unbound| == Load(h.slots[last]) > 0
            && ((forall f :: 0 <= f < |h.slots| ==> |unbound| <= |On(h, f)|)
                <==> forall f :: 0 <= f < |h.slots| ==> Load(h.slots[last]) <= Load(h.slots[f]))
  {
    EmptyHasNoLoad(h);
    ScanFound(h.slots, h.sessions[id].app, |h.slots|);
    var h', last := Schedule(h, id).0, |h.slots| - 1;
    assert EffectOf(h, id) == AllOn(last);
    SchedulingSucceeds(h, id);
    forall j | j in h.sessions ensures j in Unbound(h, h') <==> j in On(h, last) {
      if j != id { EffectIs(h, id, j); }
    }
    assert Unbound(h, h') == On(h, last);
    forall f | 0 <= f < |h.slots| ensures |On(h, f)| == Load(h.slots[f]) { LoadIsSessions(h, f); }
  }

  // Runs of the daemon.

  /** What clients make the daemon do. An access binds its session first when it must; images may
      be added at any time. */
  datatype Command = AddImages(images: seq<Image>) | Start(app: string) | Access(id: nat) | End(id: nat)

  /** Images whose id is already known are skipped. */
  function Parse(library: seq<Image>, images: seq<Image>): (r: seq<Image>) {
    if images == [] then library
    else
      var before, image := Parse(library, images[..|images| - 1]), images[|images| - 1];
      if AgfiKnown(before, image.agfi) then before else before + [image]
  }

  predicate AgfiKnown(library: seq<Image>, agfi: string) {
    exists i :: 0 <= i < |library| && library[i].agfi == agfi
  }

  lemma {:induction false} ParseKeeps(library: seq<Image>, images: seq<Image>)
    requires GoodLibrary(library) && forall i :: 0 <= i < |images| ==> WellFormed(images[i])
    ensures GoodLibrary(Parse(library, images)) && library <= Parse(library, images)
  {
    if images != [] {
      ParseKeeps(library, images[..|images| - 1]);
    }
  }

  /** Every image offered is known afterwards. */
  lemma {:induction false} ParseKnows(library: seq<Image>, images: seq<Image>, i: nat)
    requires i < |images|
    ensures AgfiKnown(Parse(library, images), images[i].agfi)
  {
    var before, image := images[..|images| - 1], images[|images| - 1];
    var parsed := Parse(library, before);
    if i < |before| {
      ParseKnows(library, before, i);
      var j :| 0 <= j < |parsed| && parsed[j].agfi == before[i].agfi;
      assert Parse(library, images)[j] == parsed[j];
    } else if !AgfiKnown(parsed, image.agfi) {
      assert Parse(library, images)[|parsed|].agfi == image.agfi;
    }
  }

  lemma {:induction false} ParseGrows(library: seq<Image>, images: seq<Image>)
    ensures library <= Parse(library, images)
  {
    if images != [] { ParseGrows(library, images[..|images| - 1]); }
  }

  /** The first image with its id is the one kept, and nothing else is added. */
  lemma {:induction false} ParseAdds(library: seq<Image>, images: seq<Image>, k: nat)
    requires |library| <= k < |Parse(library, images)|
    ensures FirstOffered(library, images, Parse(library, images)[k])
  {
    ParseGrows(library, images);
    if images != [] {
      var before := images[..|images| - 1];
      if k < |Parse(library, before)| {
        ParseAdds(library, before, k);
        hide Parse;
        assert FirstOffered(library, before, Parse(library, before)[k]);
      } else {
        ParseGrows(library, before);
        forall i | 0 <= i < |before| ensures AgfiKnown(Parse(library, before), before[i].agfi) { ParseKnows(library, before, i); }
        NotOffered(library, before, images[|images| - 1].agfi);
      }
    }
  }

  /** The image is the first of those offered with its id, which the library did not have. */
  ghost predicate FirstOffered(library: seq<Image>, images: seq<Image>, image: Image) {
    !AgfiKnown(library, image.agfi)
    && exists i :: 0 <= i < |images| && images[i] == image && forall j :: 0 <= j < i ==> images[j].agfi != image.agfi
  }

  lemma NotOffered(library: seq<Image>, images: seq<Image>, agfi: string)
    requires library <= Parse(library, images) && !AgfiKnown(Parse(library, images), agfi)
    requires forall i :: 0 <= i < |images| ==> AgfiKnown(Parse(library, images), images[i].agfi)
    ensures !AgfiKnown(library, agfi) && forall i :: 0 <= i < |images| ==> images[i].agfi != agfi
  {
    assert forall k :: 0 <= k < |library| ==> Parse(library, images)[k] == library[k];
  }

  function Boot(fpgas: nat): Host {
    Host([], seq(fpgas, _ => None), seq(fpgas, _ => []), map[], 0)
  }

  ghost predicate Allowed(h: Host, c: Command) {
    match c
    case AddImages(images) => forall i :: 0 <= i < |images| ==> WellFormed(images[i])
    case Start(_) => true
    case Access(_) => true
    case End(id) => id in h.sessions
  }

  ghost function Do(h: Host, c: Command): Host
    requires Reachable(h) && Allowed(h, c)
  {
    match c
    case AddImages(images) => h.(library := Parse(h.library, images))
    case Start(app) => Initiate(h, app).0
    case Access(id) => if id in h.sessions && !h.sessions[id].active then Schedule(h, id).0 else h
    case End(id) =>
      assert SessionAgrees(h, id);
      EndSession(h, id)
  }

  /** The invariant of every run: the indices are inverse, and every session's application is in
      some image. */
  ghost predicate Reachable(h: Host) {
    && Inv(h)
    && (forall id :: id in h.sessions ==> AppKnown(h.library, h.sessions[id].app))
    && (h.sessions != map[] ==> |h.library| > 0)
  }

  ghost predicate AppKnown(library: seq<Image>, app: string) {
    exists i :: 0 <= i < |library| && Fits(library[i], app)
  }

  lemma GrowKeeps(h: Host, library: seq<Image>)
    requires Reachable(h) && GoodLibrary(library) && h.library <= library
    ensures Reachable(h.(library := library))
  {
    var h' := h.(library := library);
    forall f | 0 <= f < |h'.slots| ensures TableOf(h', f) { assert TableOf(h, f); }
    forall f: nat, k: nat | InSlots(h', f, k) ensures SlotAgrees(h', f, k) { assert InSlots(h, f, k) && SlotAgrees(h, f, k); }
    forall id | id in h'.sessions ensures SessionAgrees(h', id) && AppKnown(library, h.sessions[id].app) {
      assert SessionAgrees(h, id) && AppKnown(h.library, h.sessions[id].app);
      var i :| 0 <= i < |h.library| && Fits(h.library[i], h.sessions[id].app);
      assert library[i] == h.library[i];
    }
  }

  lemma AccessKeeps(h: Host, id: nat)
    requires Reachable(h) && id in h.sessions && !h.sessions[id].active
    ensures Reachable(Schedule(h, id).0)
    ensures Schedule(h, id).1 && Schedule(h, id).0.sessions[id].active
  {
    assert AppKnown(h.library, h.sessions[id].app);
    SchedulingSucceeds(h, id);
    var h' := Schedule(h, id).0;
    ScheduleKeepsLibrary(h, id);
    forall j | j in h'.sessions ensures AppKnown(h'.library, h'.sessions[j].app) {
      if j != id { EffectIs(h, id, j); }
      assert AppKnown(h.library, h.sessions[j].app);
    }
  }

  lemma ScheduleKeepsLibrary(h: Host, id: nat)
    requires Shape(h) && |h.library| > 0 && id in h.sessions
    ensures Schedule(h, id).0.library == h.library
  {
  }

  lemma DoKeeps(h: Host, c: Command)
    requires Reachable(h) && Allowed(h, c)
    ensures Reachable(Do(h, c))
  {
    match c
    case AddImages(images) =>
      ParseKeeps(h.library, images);
      GrowKeeps(h, Parse(h.library, images));
    case Start(app) =>
      InitiateKeeps(h, app);
      forall id | id in Do(h, c).sessions ensures AppKnown(h.library, Do(h, c).sessions[id].app) {
        assert id in h.sessions ==> AppKnown(h.library, h.sessions[id].app);
      }
    case Access(id) =>
      if id in h.sessions && !h.sessions[id].active { AccessKeeps(h, id); }
    case End(id) =>
      EndSessionKeeps(h, id);
      forall j | j in Do(h, c).sessions ensures AppKnown(h.library, Do(h, c).sessions[j].app) {
        assert AppKnown(h.library, h.sessions[j].app);
      }
  }

  ghost predicate AllowedRun(h: Host, cs: seq<Command>)
    requires Reachable(h)
    decreases |cs|
  {
    cs == [] || (Allowed(h, cs[0]) && (DoKeeps(h, cs[0]); AllowedRun(Do(h, cs[0]), cs[1..])))
  }

  ghost function RunOf(h: Host, cs: seq<Command>): (h': Host)
    requires Reachable(h) && AllowedRun(h, cs)
    ensures Reachable(h')
    decreases |cs|
  {
    if cs == [] then h
    else
      DoKeeps(h, cs[0]);
      RunOf(Do(h, cs[0]), cs[1..])
  }

  // Session ids.

  /** What a client is answered: the new session's id when it starts one. */
  ghost function IdAnswered(h: Host, c: Command): Option<nat> {
    if c.Start? then Initiate(h, c.app).1 else None
  }

  /** The ids answered along a run. */
  ghost function IdsAnswered(h: Host, cs: seq<Command>): (ids: seq<nat>)
    requires Reachable(h) && AllowedRun(h, cs)
    decreases |cs|
  {
    if cs == [] then []
    else
      DoKeeps(h, cs[0]);
      Opt(IdAnswered(h, cs[0])) + IdsAnswered(Do(h, cs[0]), cs[1..])
  }

  /** Ids only go up. */
  lemma NextIdGrows(h: Host, c: Command)
    requires Reachable(h) && Allowed(h, c)
    ensures h.nextId <= Do(h, c).nextId
    ensures IdAnswered(h, c).Some? ==> h.nextId <= IdAnswered(h, c).value < Do(h, c).nextId
  {
    match c
    case AddImages(_) =>
    case Start(_) =>
    case Access(id) => if id in h.sessions && !h.sessions[id].active { SchedulingKeepsIds(h, id); }
    case End(id) => assert SessionAgrees(h, id);
  }

  lemma {:induction false} UnbindFirstKeepsIds(h: Host, f: nat, n: nat)
    requires f < |h.slots| && n <= |h.slots[f]|
    ensures UnbindFirst(h, f, n).nextId == h.nextId
  {
    if n > 0 { UnbindFirstKeepsIds(h, f, n - 1); }
  }

  lemma SchedulingKeepsIds(h: Host, id: nat)
    requires Shape(h) && |h.library| > 0 && id in h.sessions
    ensures Schedule(h, id).0.nextId == h.nextId
  {
    var ready := Prepare(h, h.sessions[id].app);
    UnbindFirstKeepsIds(ready, |ready.slots| - 1, |ready.slots[|ready.slots| - 1]|);
  }

  lemma {:induction false} IdsAbove(h: Host, cs: seq<Command>)
    requires Reachable(h) && AllowedRun(h, cs)
    ensures forall i :: 0 <= i < |IdsAnswered(h, cs)| ==> h.nextId <= IdsAnswered(h, cs)[i]
    ensures forall i, j :: 0 <= i < j < |IdsAnswered(h, cs)| ==> IdsAnswered(h, cs)[i] < IdsAnswered(h, cs)[j]
    decreases |cs|
  {
    if cs != [] {
      hide Reachable, Allowed, Do, IdAnswered;
      DoKeeps(h, cs[0]);
      NextIdGrows(h, cs[0]);
      IdsAbove(Do(h, cs[0]), cs[1..]);
    }
  }

  /** No id is ever answered twice, not even after its session has ended. */
  lemma IdsAreDistinct(fpgas: nat, cs: seq<Command>, i: nat, j: nat)
    requires fpgas > 0 && AllowedFromBoot(fpgas, cs)
    ensures (BootIsReachable(fpgas); var ids := IdsAnswered(Boot(fpgas), cs); i < j < |ids| ==> ids[i] != ids[j])
  {
    BootIsReachable(fpgas);
    IdsAbove(Boot(fpgas), cs);
  }

  lemma BootIsReachable(fpgas: nat)
    requires fpgas > 0
    ensures Reachable(Boot(fpgas))
  {
  }

  ghost predicate AllowedFromBoot(fpgas: nat, cs: seq<Command>)
    requires fpgas > 0
  {
    BootIsReachable(fpgas);
    AllowedRun(Boot(fpgas), cs)
  }

  ghost function RunFromBoot(fpgas: nat, cs: seq<Command>): (h: Host)
    requires fpgas > 0 && AllowedFromBoot(fpgas, cs)
    ensures Reachable(h)
  {
    BootIsReachable(fpgas);
    RunOf(Boot(fpgas), cs)
  }

  /** From boot, after any run of commands on known sessions, the two indices are inverse: a bound
      session's slot points back to it and was built for its application, a slot's session says it
      is there, and every slot table is the one of the loaded image. */
  lemma BindingIsABijection(fpgas: nat, cs: seq<Command>, id: nat, f: nat, k: nat)
    requires fpgas > 0 && AllowedFromBoot(fpgas, cs)
    ensures var h := RunFromBoot(fpgas, cs);
            && (id in h.sessions && InSlots(h, f, k) ==>
                  ((h.sessions[id].active && h.sessions[id].fpga == f && h.sessions[id].slot == k)
                   <==> h.slots[f][k].who == Some(id)))
            && (id in h.sessions && h.sessions[id].active ==>
                  InSlots(h, h.sessions[id].fpga, h.sessions[id].slot)
                  && h.slots[h.sessions[id].fpga][h.sessions[id].slot].app == h.sessions[id].app)
            && (f < |h.slots| && h.current[f].Some? ==> SameApps(h.slots[f], FreshSlots(h.current[f].value)))
  {
    var h := RunFromBoot(fpgas, cs);
    if id in h.sessions {
      assert SessionAgrees(h, id);
      if h.sessions[id].active { assert SlotAgrees(h, h.sessions[id].fpga, h.sessions[id].slot); }
      if InSlots(h, f, k) { assert SlotAgrees(h, f, k); }
    }
    if f < |h.slots| { assert TableOf(h, f); }
  }

  predicate SameApps(a: seq<Slot>, b: seq<Slot>) {
    |a| == |b| && forall k :: 0 <= k < |a| ==> a[k].app == b[k].app
  }
}
