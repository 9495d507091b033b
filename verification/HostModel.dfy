/** The host scheduler's state as values, and what each of its operations does to it. */
module HostModel {
  import opened Streams

  datatype ImageSlot = ImageSlot(slotId: nat, appId: string)

  /** An FPGA image of the library. */
  datatype Image = Image(agfi: string, numSlots: nat, slots: seq<ImageSlot>)

  datatype Session = Session(app: string, active: bool, fpga: nat, slot: nat)

  /** A slot of a loaded image: the application built into it and the session using it. */
  datatype Slot = Slot(app: string, who: Option<nat>)

  datatype Host = Host(
    library: seq<Image>,
    current: seq<Option<Image>>,
    slots: seq<seq<Slot>>,
    sessions: map<nat, Session>,
    nextId: nat)

  const NONE: nat := 0xFFFF_FFFF_FFFF_FFFF

  // Images.

  function SlotMap(slots: seq<ImageSlot>): (m: map<nat, string>) {
    if slots == [] then map[]
    else SlotMap(slots[..|slots| - 1])[slots[|slots| - 1].slotId := slots[|slots| - 1].appId]
  }

  function Count(slots: seq<ImageSlot>, app: string): (n: nat) {
    if slots == [] then 0
    else Count(slots[..|slots| - 1], app) + (if slots[|slots| - 1].appId == app then 1 else 0)
  }

  /** Slot ids run from 0, each once; the count is read into 32 bits. */
  ghost predicate WellFormed(image: Image) {
    && |image.slots| == image.numSlots < 0x1_0000_0000
    && (forall i, j :: 0 <= i < j < |image.slots| ==> image.slots[i].slotId != image.slots[j].slotId)
    && (forall k: nat :: k in SlotMap(image.slots) <==> k < image.numSlots)
  }

  ghost predicate GoodLibrary(library: seq<Image>) {
    && (forall i :: 0 <= i < |library| ==> WellFormed(library[i]))
    && (forall i, j :: 0 <= i < j < |library| ==> library[i].agfi != library[j].agfi)
  }

  lemma {:induction false} SlotMapHas(slots: seq<ImageSlot>, i: nat)
    requires i < |slots|
    requires forall i, j :: 0 <= i < j < |slots| ==> slots[i].slotId != slots[j].slotId
    ensures slots[i].slotId in SlotMap(slots) && SlotMap(slots)[slots[i].slotId] == slots[i].appId
  {
    if i < |slots| - 1 {
      SlotMapHas(slots[..|slots| - 1], i);
    }
  }

  lemma {:induction false} SlotMapFrom(slots: seq<ImageSlot>, k: nat) returns (i: nat)
    requires k in SlotMap(slots)
    ensures i < |slots| && slots[i].slotId == k && slots[i].appId == SlotMap(slots)[k]
  {
    if slots[|slots| - 1].slotId == k {
      i := |slots| - 1;
    } else {
      i := SlotMapFrom(slots[..|slots| - 1], k);
    }
  }

  lemma {:induction false} CountFinds(slots: seq<ImageSlot>, app: string) returns (i: nat)
    requires Count(slots, app) > 0
    ensures i < |slots| && slots[i].appId == app
  {
    if slots[|slots| - 1].appId == app {
      i := |slots| - 1;
    } else {
      i := CountFinds(slots[..|slots| - 1], app);
    }
  }

  lemma {:induction false} CountOf(slots: seq<ImageSlot>, app: string, i: nat)
    requires i < |slots| && slots[i].appId == app
    ensures Count(slots, app) > 0
  {
    if i < |slots| - 1 {
      CountOf(slots[..|slots| - 1], app, i);
    }
  }

  predicate Fits(image: Image, app: string) { Count(image.slots, app) >= 1 }

  /** The first of the fitting images with the most slots; image 0 when none fits. */
  function BestFitting(library: seq<Image>, app: string): (idx: nat)
    ensures |library| > 0 ==> idx < |library|
  {
    if library == [] then 0
    else
      var before, n := library[..|library| - 1], |library| - 1;
      var best := BestFitting(before, app);
      var bestSlots := if before != [] && Fits(before[best], app) then before[best].numSlots else 0;
      if Fits(library[n], app) && library[n].numSlots > bestSlots then n else best
  }

  /** When some image holds the application, the chosen one does too and none has more slots. */
  lemma {:induction false} BestFittingFits(library: seq<Image>, app: string)
    requires forall i :: 0 <= i < |library| ==> WellFormed(library[i])
    requires exists i :: 0 <= i < |library| && Fits(library[i], app)
    ensures Fits(library[BestFitting(library, app)], app)
    ensures forall i :: 0 <= i < |library| && Fits(library[i], app) ==>
              library[i].numSlots <= library[BestFitting(library, app)].numSlots
  {
    var before, n := library[..|library| - 1], |library| - 1;
    if Fits(library[n], app) {
      var k := CountFinds(library[n].slots, app);
      assert library[n].numSlots > 0;
    }
    if i :| 0 <= i < n && Fits(library[i], app) {
      assert Fits(before[i], app);
      BestFittingFits(before, app);
    } else {
      NoneFits(before, app);
    }
  }

  /** Among those with the most slots it is the first. */
  lemma {:induction false} BestFittingIsFirst(library: seq<Image>, app: string, i: nat)
    requires forall i :: 0 <= i < |library| ==> WellFormed(library[i])
    requires i < BestFitting(library, app) && |library| > 0 && Fits(library[i], app)
    ensures library[i].numSlots < library[BestFitting(library, app)].numSlots
  {
    var before, n := library[..|library| - 1], |library| - 1;
    var k := CountFinds(library[i].slots, app);
    if BestFitting(library, app) == n && i < n {
      assert Fits(before[i], app);
      BestFittingFits(before, app);
    } else {
      BestFittingIsFirst(before, app, i);
    }
  }

  lemma {:induction false} NoneFits(library: seq<Image>, app: string)
    requires forall i :: 0 <= i < |library| ==> !Fits(library[i], app)
    ensures BestFitting(library, app) == 0
  {
    if library != [] {
      NoneFits(library[..|library| - 1], app);
    }
  }

  function FreshSlots(image: Image): (r: seq<Slot>)
    ensures |r| == image.numSlots
    ensures forall k :: 0 <= k < |r| ==> r[k].who == None
  {
    seq(image.numSlots, k requires 0 <= k < image.numSlots =>
      Slot(if k in SlotMap(image.slots) then SlotMap(image.slots)[k] else "", None))
  }

  predicate HasApp(slots: seq<Slot>, app: string) {
    exists k :: 0 <= k < |slots| && slots[k].app == app
  }

  lemma FittingImageHasApp(image: Image, app: string)
    requires WellFormed(image)
    ensures Fits(image, app) <==> HasApp(FreshSlots(image), app)
  {
    if Fits(image, app) {
      var i := CountFinds(image.slots, app);
      SlotMapHas(image.slots, i);
      assert FreshSlots(image)[image.slots[i].slotId].app == app;
    }
    if k :| 0 <= k < image.numSlots && FreshSlots(image)[k].app == app {
      var i := SlotMapFrom(image.slots, k);
      CountOf(image.slots, app, i);
    }
  }

  // Slots and sessions.

  function Load(slots: seq<Slot>): (n: nat)
    ensures n <= |slots|
  {
    if slots == [] then 0
    else Load(slots[..|slots| - 1]) + (if slots[|slots| - 1].who.Some? then 1 else 0)
  }

  lemma {:induction false} LoadZero(slots: seq<Slot>)
    ensures Load(slots) == 0 <==> forall k :: 0 <= k < |slots| ==> slots[k].who == None
  {
    if slots != [] {
      LoadZero(slots[..|slots| - 1]);
    }
  }

  predicate Shape(h: Host) {
    && |h.slots| == |h.current| > 0
  }

  predicate InSlots(h: Host, f: nat, k: nat) {
    f < |h.slots| && k < |h.slots[f]|
  }

  /** The two indices are inverse to each other and agree with the loaded images. */
  ghost predicate Inv(h: Host) {
    && Shape(h)
    && GoodLibrary(h.library)
    && (forall f :: 0 <= f < |h.slots| ==> TableOf(h, f))
    && (forall f, k :: InSlots(h, f, k) ==> SlotAgrees(h, f, k))
    && (forall id :: id in h.sessions ==> SessionAgrees(h, id))
  }

  /** The slot table of an FPGA is the one of its loaded image. */
  ghost predicate TableOf(h: Host, f: nat)
    requires Shape(h) && f < |h.slots|
  {
    match h.current[f]
    case None => h.slots[f] == []
    case Some(image) =>
      && image in h.library
      && |h.slots[f]| == image.numSlots
      && forall k :: 0 <= k < |h.slots[f]| ==> h.slots[f][k].app == FreshSlots(image)[k].app
  }

  ghost predicate SlotAgrees(h: Host, f: nat, k: nat)
    requires InSlots(h, f, k)
  {
    h.slots[f][k].who.Some? ==>
      var id := h.slots[f][k].who.value;
      id in h.sessions && h.sessions[id] == Session(h.slots[f][k].app, true, f, k)
  }

  ghost predicate SessionAgrees(h: Host, id: nat)
    requires id in h.sessions
  {
    && id < h.nextId
    && var s := h.sessions[id];
       if s.active then InSlots(h, s.fpga, s.slot) && h.slots[s.fpga][s.slot].who == Some(id)
       else s.fpga == s.slot == NONE
  }

  // Operations.

  function Put(slots: seq<seq<Slot>>, f: nat, k: nat, who: Option<nat>): (r: seq<seq<Slot>>)
    requires f < |slots| && k < |slots[f]|
  {
    slots[f := slots[f][k := Slot(slots[f][k].app, who)]]
  }

  function Bind(h: Host, id: nat, f: nat, k: nat): Host
    requires InSlots(h, f, k) && id in h.sessions
  {
    h.(slots := Put(h.slots, f, k, Some(id)), sessions := h.sessions[id := Session(h.sessions[id].app, true, f, k)])
  }

  function Release(sessions: map<nat, Session>, id: nat): (r: map<nat, Session>)
    ensures r.Keys == sessions.Keys
  {
    if id in sessions then sessions[id := Session(sessions[id].app, false, NONE, NONE)] else sessions
  }

  function Unbind(h: Host, f: nat, k: nat): (h': Host)
    requires InSlots(h, f, k)
    ensures h'.library == h.library && h'.current == h.current && h'.sessions.Keys == h.sessions.Keys
    ensures |h'.slots| == |h.slots| && forall g :: 0 <= g < |h.slots| ==> |h'.slots[g]| == |h.slots[g]|
  {
    if h.slots[f][k].who.None? then h
    else h.(slots := Put(h.slots, f, k, None), sessions := Release(h.sessions, h.slots[f][k].who.value))
  }

  /** Unbind the first `n` slots of an FPGA. */
  function UnbindFirst(h: Host, f: nat, n: nat): (h': Host)
    requires f < |h.slots| && n <= |h.slots[f]|
    ensures h'.library == h.library && h'.current == h.current && h'.sessions.Keys == h.sessions.Keys
    ensures |h'.slots| == |h.slots| && forall g :: 0 <= g < |h.slots| ==> |h'.slots[g]| == |h.slots[g]|
  {
    if n == 0 then h else Unbind(UnbindFirst(h, f, n - 1), f, n - 1)
  }

  function UnbindAll(h: Host, f: nat): (h': Host)
    requires f < |h.slots|
    ensures h'.library == h.library && h'.current == h.current && h'.sessions.Keys == h.sessions.Keys
    ensures |h'.slots| == |h.slots|
  {
    UnbindFirst(h, f, |h.slots[f]|)
  }

  function Switch(h: Host, f: nat, image: Image): Host
    requires Shape(h) && f < |h.slots|
  {
    h.(current := h.current[f := Some(image)], slots := h.slots[f := FreshSlots(image)])
  }

  /** A session is created only for an application some image holds. */
  function Initiate(h: Host, app: string): (r: (Host, Option<nat>)) {
    if exists i :: 0 <= i < |h.library| && Fits(h.library[i], app) then
      (h.(sessions := h.sessions[h.nextId := Session(app, false, NONE, NONE)], nextId := h.nextId + 1), Some(h.nextId))
    else (h, None)
  }

  function EndSession(h: Host, id: nat): Host
    requires Shape(h) && id in h.sessions
    requires h.sessions[id].active ==> InSlots(h, h.sessions[id].fpga, h.sessions[id].slot)
  {
    var s := h.sessions[id];
    var h' := if s.active then Unbind(h, s.fpga, s.slot) else h;
    h'.(sessions := h'.sessions - {id})
  }

  // Scheduling.

  function FirstUnloaded(current: seq<Option<Image>>): (f: Option<nat>)
    ensures f.Some? ==> f.value < |current| && current[f.value].None? && forall g :: 0 <= g < f.value ==> current[g].Some?
    ensures f.None? ==> forall g :: 0 <= g < |current| ==> current[g].Some?
  {
    if current == [] then None
    else
      var before := FirstUnloaded(current[..|current| - 1]);
      if before.Some? then before else if current[|current| - 1].None? then Some(|current| - 1) else None
  }

  function FirstIdle(slots: seq<seq<Slot>>): (f: Option<nat>)
    ensures f.Some? ==> f.value < |slots| && Load(slots[f.value]) == 0 && forall g :: 0 <= g < f.value ==> Load(slots[g]) > 0
    ensures f.None? ==> forall g :: 0 <= g < |slots| ==> Load(slots[g]) > 0
  {
    if slots == [] then None
    else
      var before := FirstIdle(slots[..|slots| - 1]);
      if before.Some? then before else if Load(slots[|slots| - 1]) == 0 then Some(|slots| - 1) else None
  }

  /** The first FPGA without an image, else the first without a session. */
  function EmptyFpga(h: Host): (f: Option<nat>)
    requires Shape(h)
    ensures f.Some? ==> f.value < |h.slots|
  {
    if FirstUnloaded(h.current).Some? then FirstUnloaded(h.current) else FirstIdle(h.slots)
  }

  /** The state of the search over all slots: whether a matching slot has been seen, whether the
      one remembered is free, where it is and that FPGA's load. */
  datatype Search = Search(found: bool, free: bool, fpga: nat, slot: nat, load: nat)

  const NOTHING := Search(false, false, NONE, NONE, NONE)

  /** The inner loop from slot `k` on; a remembered slot can end it early. */
  function ScanSlots(slots: seq<Slot>, app: string, f: nat, load: nat, k: nat, p: Search): (r: Search)
    requires k <= |slots|
    ensures r == p || (r.found && r.fpga == f && r.load == load && k <= r.slot < |slots|
                       && slots[r.slot].app == app && (r.free <==> slots[r.slot].who.None?))
    decreases |slots| - k
  {
    if k == |slots| then p
    else if slots[k].app != app then ScanSlots(slots, app, f, load, k + 1, p)
    else if slots[k].who.None? then
      if !p.free || p.load > load then Search(true, true, f, k, load)
      else ScanSlots(slots, app, f, load, k + 1, p)
    else if !p.found then ScanSlots(slots, app, f, load, k + 1, Search(true, false, f, k, load))
    else if !p.free && p.load > load then Search(true, false, f, k, load)
    else ScanSlots(slots, app, f, load, k + 1, p)
  }

  /** The outer loop over the first `n` FPGAs. */
  function Scan(slots: seq<seq<Slot>>, app: string, n: nat): (r: Search)
    requires n <= |slots|
    ensures !r.found ==> r == NOTHING
    ensures r.found ==>
              && r.fpga < n && r.slot < |slots[r.fpga]| && r.load == Load(slots[r.fpga])
              && slots[r.fpga][r.slot].app == app && (r.free <==> slots[r.fpga][r.slot].who.None?)
  {
    if n == 0 then NOTHING
    else ScanSlots(slots[n - 1], app, n - 1, Load(slots[n - 1]), 0, Scan(slots, app, n - 1))
  }

  function FirstFree(slots: seq<Slot>, app: string): (k: Option<nat>)
    ensures k.Some? ==> k.value < |slots| && slots[k.value].app == app && slots[k.value].who.None?
    ensures k.Some? ==> forall j :: 0 <= j < k.value && slots[j].app == app ==> slots[j].who.Some?
    ensures k.None? ==> forall j :: 0 <= j < |slots| && slots[j].app == app ==> slots[j].who.Some?
  {
    if slots == [] then None
    else
      var n := |slots| - 1;
      var before := FirstFree(slots[..n], app);
      if before.Some? then before else if slots[n].app == app && slots[n].who.None? then Some(n) else None
  }

  function Flash(h: Host, f: nat, app: string): Host
    requires Shape(h) && f < |h.slots| && |h.library| > 0
  {
    Switch(h, f, h.library[BestFitting(h.library, app)])
  }

  /** An unloaded or idle FPGA is flashed first. */
  function Prepare(h: Host, app: string): (h': Host)
    requires Shape(h) && |h.library| > 0
    ensures Shape(h') && h'.library == h.library && h'.sessions == h.sessions && |h'.slots| == |h.slots|
  {
    var f := EmptyFpga(h);
    if f.Some? then Flash(h, f.value, app) else h
  }

  /** Replace the image of the last FPGA, whatever runs on it. */
  function Replace(h: Host, id: nat, app: string): (Host, bool)
    requires Shape(h) && |h.library| > 0 && id in h.sessions
  {
    var f := |h.slots| - 1;
    var flashed := Flash(UnbindAll(h, f), f, app);
    var k := FirstFree(flashed.slots[f], app);
    if k.Some? then (Bind(flashed, id, f, k.value), true) else (flashed, false)
  }

  function Schedule(h: Host, id: nat): (r: (Host, bool))
    requires Shape(h) && |h.library| > 0 && id in h.sessions
  {
    var app := h.sessions[id].app;
    var ready := Prepare(h, app);
    var p := Scan(ready.slots, app, |ready.slots|);
    if p.free then (Bind(ready, id, p.fpga, p.slot), true)
    else if p.found then (Bind(Unbind(ready, p.fpga, p.slot), id, p.fpga, p.slot), true)
    else Replace(ready, id, app)
  }
}
