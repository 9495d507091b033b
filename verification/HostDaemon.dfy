/** The daemon's objects: sessions, the image scheduler and the host that binds one to the other,
    each method tied to the operation of HostModel it performs. */
module HostDaemon {
  import opened Streams
  import opened HostModel
  import HostTheorems

  class AppSession {
    const appId: string
    const sessionId: nat
    var activeSlot: bool
    var fpgaId: nat
    var fpgaSlot: nat

    constructor (appId: string, sessionId: nat)
      ensures this.appId == appId && this.sessionId == sessionId
      ensures State() == Session(appId, false, NONE, NONE)
    {
      this.appId, this.sessionId := appId, sessionId;
      activeSlot, fpgaId, fpgaSlot := false, NONE, NONE;
    }

    function State(): Session
      reads this
    {
      Session(appId, activeSlot, fpgaId, fpgaSlot)
    }

    method UnbindFromSlot()
      modifies this
      ensures State() == Session(appId, false, NONE, NONE)
    {
      activeSlot, fpgaId, fpgaSlot := false, NONE, NONE;
    }

    method BindToSlot(fpga: nat, slot: nat)
      modifies this
      ensures State() == Session(appId, true, fpga, slot)
    {
      activeSlot, fpgaId, fpgaSlot := true, fpga, slot;
    }
  }

  /** Which applications an image holds, and how many slots of each. */
  ghost predicate IsTuples(m: map<string, nat>, slots: seq<ImageSlot>) {
    forall app :: (app in m <==> Count(slots, app) > 0) && (app in m ==> m[app] == Count(slots, app))
  }

  /** The image holds at least the wanted number of slots of every application wanted. */
  ghost predicate Satisfies(image: Image, need: map<string, nat>) {
    forall app :: app in need ==> Count(image.slots, app) > 0 && Count(image.slots, app) >= need[app]
  }

  class AosScheduler {
    const numFpga: nat
    var imageLibrary: seq<Image>
    var currentImage: seq<Option<Image>>

    constructor (numFpga: nat)
      ensures this.numFpga == numFpga && imageLibrary == []
      ensures currentImage == seq(numFpga, _ => None)
    {
      this.numFpga := numFpga;
      imageLibrary := [];
      currentImage := seq(numFpga, _ => None);
    }

    method AgfiExists(agfi: string) returns (r: bool)
      ensures r <==> HostTheorems.AgfiKnown(imageLibrary, agfi)
    {
      for i := 0 to |imageLibrary|
        invariant forall j :: 0 <= j < i ==> imageLibrary[j].agfi != agfi
      {
        if imageLibrary[i].agfi == agfi { return true; }
      }
      return false;
    }

    method ParseImages(images: seq<Image>)
      modifies this`imageLibrary
      ensures imageLibrary == HostTheorems.Parse(old(imageLibrary), images)
    {
      for i := 0 to |images|
        invariant imageLibrary == HostTheorems.Parse(old(imageLibrary), images[..i])
      {
        assert images[..i + 1][..i] == images[..i];
        var known := AgfiExists(images[i].agfi);
        if !known {
          imageLibrary := imageLibrary + [images[i]];
        }
      }
      assert images[..|images|] == images;
    }

    method GetImageByAgfi(agfi: string) returns (r: Option<Image>)
      ensures r.Some? ==> r.value in imageLibrary && r.value.agfi == agfi
      ensures r.None? <==> !HostTheorems.AgfiKnown(imageLibrary, agfi)
    {
      for i := 0 to |imageLibrary|
        invariant forall j :: 0 <= j < i ==> imageLibrary[j].agfi != agfi
      {
        if imageLibrary[i].agfi == agfi { return Some(imageLibrary[i]); }
      }
      return None;
    }

    static method ConvertImageToAppTuples(image: Image) returns (m: map<string, nat>)
      ensures IsTuples(m, image.slots)
    {
      m := map[];
      for i := 0 to |image.slots|
        invariant IsTuples(m, image.slots[..i])
      {
        assert image.slots[..i + 1][..i] == image.slots[..i];
        var app := image.slots[i].appId;
        m := m[app := if app in m then m[app] + 1 else 1];
      }
      assert image.slots[..|image.slots|] == image.slots;
    }

    static method CanImageSatisfyNeed(image: Image, need: map<string, nat>) returns (r: bool)
      ensures r <==> Satisfies(image, need)
    {
      var tuples := ConvertImageToAppTuples(image);
      var left := need.Keys;
      while left != {}
        invariant left <= need.Keys
        invariant forall app :: app in need && app !in left ==> app in tuples && tuples[app] >= need[app]
        decreases |left|
      {
        var app :| app in left;
        if app !in tuples || tuples[app] < need[app] { return false; }
        left := left - {app};
      }
      return true;
    }

    method GetFittingImageIdx(need: map<string, nat>) returns (index: int)
      ensures -1 <= index < |imageLibrary|
      ensures index >= 0 ==> Satisfies(imageLibrary[index], need)
      ensures forall i :: 0 <= i < (if index >= 0 then index else |imageLibrary|) ==> !Satisfies(imageLibrary[i], need)
    {
      for i := 0 to |imageLibrary|
        invariant forall j :: 0 <= j < i ==> !Satisfies(imageLibrary[j], need)
      {
        var fits := CanImageSatisfyNeed(imageLibrary[i], need);
        if fits { return i; }
      }
      return -1;
    }

    /** The positions of all fitting images, in library order. */
    method GetAllFittingImages(need: map<string, nat>) returns (indices: seq<nat>)
      ensures forall k :: 0 <= k < |indices| ==> indices[k] < |imageLibrary| && Satisfies(imageLibrary[indices[k]], need)
      ensures forall k, l :: 0 <= k < l < |indices| ==> indices[k] < indices[l]
      ensures forall i: nat :: i < |imageLibrary| && Satisfies(imageLibrary[i], need) ==> i in indices
    {
      indices := [];
      for i := 0 to |imageLibrary|
        invariant forall k :: 0 <= k < |indices| ==> indices[k] < i && Satisfies(imageLibrary[indices[k]], need)
        invariant forall k, l :: 0 <= k < l < |indices| ==> indices[k] < indices[l]
        invariant forall j: nat :: j < i && Satisfies(imageLibrary[j], need) ==> j in indices
      {
        var fits := CanImageSatisfyNeed(imageLibrary[i], need);
        if fits { indices := indices + [i]; }
      }
    }

    method GetImageIdx(image: Image) returns (index: int)
      ensures -1 <= index < |imageLibrary|
      ensures index >= 0 ==> imageLibrary[index].agfi == image.agfi
      ensures forall i :: 0 <= i < (if index >= 0 then index else |imageLibrary|) ==> imageLibrary[i].agfi != image.agfi
    {
      for i := 0 to |imageLibrary|
        invariant forall j :: 0 <= j < i ==> imageLibrary[j].agfi != image.agfi
      {
        if imageLibrary[i].agfi == image.agfi { return i; }
      }
      return -1;
    }

    static method GetSlotAppIdMap(image: Image) returns (m: map<nat, string>)
      ensures m == SlotMap(image.slots)
    {
      m := map[];
      for i := 0 to |image.slots|
        invariant m == SlotMap(image.slots[..i])
      {
        assert image.slots[..i + 1][..i] == image.slots[..i];
        m := m[image.slots[i].slotId := image.slots[i].appId];
      }
      assert image.slots[..|image.slots|] == image.slots;
    }

    method AppIdExists(app: string) returns (r: bool)
      ensures r <==> exists i :: 0 <= i < |imageLibrary| && Fits(imageLibrary[i], app)
    {
      var idx := GetFittingImageIdx(map[app := 1]);
      forall i | 0 <= i < |imageLibrary|
        ensures Satisfies(imageLibrary[i], map[app := 1]) <==> Fits(imageLibrary[i], app)
      {
        assert app in map[app := 1];
      }
      return idx != -1;
    }

    method ClearImage(fpga: nat)
      requires fpga < |currentImage|
      modifies this`currentImage
      ensures currentImage == old(currentImage)[fpga := None]
    {
      currentImage := currentImage[fpga := None];
    }

    /** The guard lets the index one past the end through to an undefined access, so that index is
        the caller's to avoid. */
    method LoadImage(fpga: nat, idx: nat)
      requires fpga < |currentImage| && idx != |imageLibrary|
      modifies this`currentImage
      ensures currentImage == if idx > |imageLibrary| then old(currentImage) else old(currentImage)[fpga := Some(imageLibrary[idx])]
    {
      if idx > |imageLibrary| { return; }
      currentImage := currentImage[fpga := Some(imageLibrary[idx])];
    }
  }

  // The host's tables as values.

  function WhoIs(p: AppSession?): Option<nat> {
    if p == null then None else Some(p.sessionId)
  }

  /** The session and application tables of one FPGA, both numbered from zero, as its slots. */
  function SlotsIn(ss: map<nat, AppSession?>, sa: map<nat, string>): (r: seq<Slot>)
    ensures |r| == |ss|
  {
    seq(|ss|, k requires 0 <= k =>
      Slot(if k in sa then sa[k] else "", if k in ss then WhoIs(ss[k]) else None))
  }

  ghost predicate Numbered(ss: map<nat, AppSession?>, sa: map<nat, string>) {
    && (forall k: nat :: k in ss <==> k < |ss|)
    && (forall k: nat :: k in sa <==> k < |ss|)
    && |ss| < NONE
  }

  function AllSlots(slotSession: seq<map<nat, AppSession?>>, slotApp: seq<map<nat, string>>): (r: seq<seq<Slot>>)
    requires |slotSession| == |slotApp|
  {
    seq(|slotSession|, f requires 0 <= f < |slotSession| => SlotsIn(slotSession[f], slotApp[f]))
  }

  function Point(slotSession: seq<map<nat, AppSession?>>, f: nat, k: nat, p: AppSession?): seq<map<nat, AppSession?>>
    requires f < |slotSession|
  {
    var row: map<nat, AppSession?> := slotSession[f];
    slotSession[f := row[k := p]]
  }

  lemma SlotsPut(slotSession: seq<map<nat, AppSession?>>, slotApp: seq<map<nat, string>>, f: nat, k: nat, p: AppSession?)
    requires |slotSession| == |slotApp| && f < |slotSession| && k < |slotSession[f]|
    requires Numbered(slotSession[f], slotApp[f])
    ensures Numbered(Point(slotSession, f, k, p)[f], slotApp[f])
    ensures AllSlots(Point(slotSession, f, k, p), slotApp) == Put(AllSlots(slotSession, slotApp), f, k, WhoIs(p))
  {
    assert k in slotSession[f];
    var row := Point(slotSession, f, k, p)[f];
    assert |row| == |slotSession[f]|;
    assert SlotsIn(row, slotApp[f]) == SlotsIn(slotSession[f], slotApp[f])[k := Slot(slotApp[f][k], WhoIs(p))];
  }

  /** The search for an image looks at the fitting ones only. */
  lemma {:induction false} SkipUnfit(library: seq<Image>, i: nat, j: nat, app: string)
    requires i <= j <= |library|
    requires forall n :: i <= n < j ==> !Fits(library[n], app)
    ensures BestFitting(library[..j], app) == BestFitting(library[..i], app)
    decreases j
  {
    if i < j {
      assert library[..j][..j - 1] == library[..j - 1];
      SkipUnfit(library, i, j - 1, app);
    }
  }

  /** Every table is numbered from zero and every pointer leads to a known session. */
  ghost predicate Linked(slotSession: seq<map<nat, AppSession?>>, slotApp: seq<map<nat, string>>, sessions: map<nat, AppSession>)
    requires |slotSession| == |slotApp|
  {
    && (forall f :: 0 <= f < |slotSession| ==> Numbered(slotSession[f], slotApp[f]))
    && (forall f, k :: 0 <= f < |slotSession| && k in slotSession[f] ==> Known(slotSession[f][k], sessions))
    && (forall id :: id in sessions ==> sessions[id].sessionId == id)
  }

  ghost predicate Known(p: AppSession?, sessions: map<nat, AppSession>) {
    p != null ==> p.sessionId in sessions && sessions[p.sessionId] == p
  }

  lemma LinkedPut(slotSession: seq<map<nat, AppSession?>>, slotApp: seq<map<nat, string>>, sessions: map<nat, AppSession>,
                  f: nat, k: nat, p: AppSession?)
    requires |slotSession| == |slotApp| && f < |slotSession| && k < |slotSession[f]|
    requires Linked(slotSession, slotApp, sessions) && Known(p, sessions)
    ensures Linked(Point(slotSession, f, k, p), slotApp, sessions)
    ensures AllSlots(Point(slotSession, f, k, p), slotApp) == Put(AllSlots(slotSession, slotApp), f, k, WhoIs(p))
  {
    SlotsPut(slotSession, slotApp, f, k, p);
  }

  lemma KnownAt(slotSession: seq<map<nat, AppSession?>>, slotApp: seq<map<nat, string>>, sessions: map<nat, AppSession>, f: nat, k: nat)
    requires |slotSession| == |slotApp| && Linked(slotSession, slotApp, sessions)
    requires f < |AllSlots(slotSession, slotApp)| && k < |AllSlots(slotSession, slotApp)[f]|
    ensures f < |slotSession| && k < |slotSession[f]| && k in slotSession[f]
    ensures Known(slotSession[f][k], sessions) && Known(null, sessions)
    ensures AllSlots(slotSession, slotApp)[f][k].who == WhoIs(slotSession[f][k])
    ensures forall id :: id in sessions ==> sessions[id].sessionId == id
    ensures slotSession[f][k] != null ==>
              slotSession[f][k].sessionId in sessions && sessions[slotSession[f][k].sessionId] == slotSession[f][k]
  {
  }

  lemma LinkedReset(slotSession: seq<map<nat, AppSession?>>, slotApp: seq<map<nat, string>>, sessions: map<nat, AppSession>,
                    f: nat, ss: map<nat, AppSession?>, sa: map<nat, string>)
    requires |slotSession| == |slotApp| && f < |slotSession|
    requires Linked(slotSession, slotApp, sessions) && Numbered(ss, sa) && forall k :: k in ss ==> ss[k] == null
    ensures Linked(slotSession[f := ss], slotApp[f := sa], sessions)
    ensures AllSlots(slotSession[f := ss], slotApp[f := sa]) == AllSlots(slotSession, slotApp)[f := SlotsIn(ss, sa)]
  {
  }

  ghost predicate Unused(h: Host, id: nat) {
    forall f: nat, k: nat :: InSlots(h, f, k) ==> h.slots[f][k].who != Some(id)
  }

  lemma UnbindFrees(h: Host, id: nat)
    requires Inv(h) && id in h.sessions && SessionAgrees(h, id)
    ensures Unused(if h.sessions[id].active then Unbind(h, h.sessions[id].fpga, h.sessions[id].slot) else h, id)
  {
    forall f: nat, k: nat | InSlots(h, f, k) && h.slots[f][k].who == Some(id)
      ensures h.sessions[id] == Session(h.slots[f][k].app, true, f, k)
    {
      assert SlotAgrees(h, f, k);
    }
  }

  lemma LinkedForget(slotSession: seq<map<nat, AppSession?>>, slotApp: seq<map<nat, string>>, sessions: map<nat, AppSession>, id: nat)
    requires |slotSession| == |slotApp| && Linked(slotSession, slotApp, sessions)
    requires forall f: nat, k: nat :: f < |slotSession| && k < |slotSession[f]| ==>
               AllSlots(slotSession, slotApp)[f][k].who != Some(id)
    ensures Linked(slotSession, slotApp, sessions - {id})
  {
    forall f: nat, k: nat | f < |slotSession| && k in slotSession[f]
      ensures Known(slotSession[f][k], sessions - {id})
    {
      assert Numbered(slotSession[f], slotApp[f]);
      assert AllSlots(slotSession, slotApp)[f][k].who == WhoIs(slotSession[f][k]);
    }
  }

  /** How many images the first `v` fitting ones account for. */
  function Seen(fitting: seq<nat>, v: nat): nat
    requires v <= |fitting|
  {
    if v == 0 then 0 else fitting[v - 1] + 1
  }

  /** The positions listed are those of the fitting images, in order. */
  ghost predicate FittingOnly(fitting: seq<nat>, library: seq<Image>, app: string) {
    && (forall k :: 0 <= k < |fitting| ==> fitting[k] < |library| && Fits(library[fitting[k]], app))
    && (forall k, l :: 0 <= k < l < |fitting| ==> fitting[k] < fitting[l])
    && (forall i: nat :: i < |library| && Fits(library[i], app) ==> i in fitting)
  }

  /** The slot count the search for a replacement has to beat. */
  function SlotsWon(library: seq<Image>, app: string): nat {
    if library != [] && Fits(library[BestFitting(library, app)], app) then library[BestFitting(library, app)].numSlots else 0
  }

  lemma NoneBetween(fitting: seq<nat>, library: seq<Image>, app: string, v: nat, n: nat)
    requires FittingOnly(fitting, library, app) && v <= |fitting|
    requires Seen(fitting, v) <= n < (if v < |fitting| then fitting[v] else |library|)
    ensures !Fits(library[n], app)
  {
  }

  lemma NextFitting(fitting: seq<nat>, library: seq<Image>, app: string, v: nat)
    requires FittingOnly(fitting, library, app) && v < |fitting|
    ensures var n := fitting[v]; var won := SlotsWon(library[..Seen(fitting, v)], app);
            && n < |library|
            && (library[n].numSlots > won ==>
                  BestFitting(library[..n + 1], app) == n && SlotsWon(library[..n + 1], app) == library[n].numSlots)
            && (library[n].numSlots <= won ==>
                  BestFitting(library[..n + 1], app) == BestFitting(library[..Seen(fitting, v)], app)
                  && SlotsWon(library[..n + 1], app) == won)
  {
    var n, i := fitting[v], Seen(fitting, v);
    assert i <= n;
    forall m | i <= m < n ensures !Fits(library[m], app) { NoneBetween(fitting, library, app, v, m); }
    SkipUnfit(library, i, n, app);
    assert library[..n + 1][..n] == library[..n];
    assert BestFitting(library[..n], app) == BestFitting(library[..i], app);
    assert SlotsWon(library[..n], app) == SlotsWon(library[..i], app);
  }

  lemma NoneFitsYet(library: seq<Image>, app: string)
    ensures BestFitting(library[..0], app) == 0 && SlotsWon(library[..0], app) == 0
  {
  }

  lemma LastFitting(fitting: seq<nat>, library: seq<Image>, app: string)
    requires FittingOnly(fitting, library, app)
    ensures BestFitting(library[..Seen(fitting, |fitting|)], app) == BestFitting(library, app)
  {
    var i := Seen(fitting, |fitting|);
    forall m | i <= m < |library| ensures !Fits(library[m], app) { NoneBetween(fitting, library, app, |fitting|, m); }
    SkipUnfit(library, i, |library|, app);
    assert library[..|library|] == library;
  }

  lemma FittingOne(library: seq<Image>, app: string)
    ensures forall i :: 0 <= i < |library| ==> (Satisfies(library[i], map[app := 1]) <==> Fits(library[i], app))
  {
  }

  lemma {:induction false} FirstUnloadedPrefix(current: seq<Option<Image>>, n: nat)
    requires n <= |current| && FirstUnloaded(current[..n]).Some?
    ensures FirstUnloaded(current) == FirstUnloaded(current[..n])
  {
    if n < |current| {
      assert current[..|current| - 1][..n] == current[..n];
      FirstUnloadedPrefix(current[..|current| - 1], n);
    } else {
      assert current[..n] == current;
    }
  }

  lemma {:induction false} FirstFreePrefix(slots: seq<Slot>, app: string, n: nat)
    requires n <= |slots| && FirstFree(slots[..n], app).Some?
    ensures FirstFree(slots, app) == FirstFree(slots[..n], app)
  {
    if n < |slots| {
      assert slots[..|slots| - 1][..n] == slots[..n];
      FirstFreePrefix(slots[..|slots| - 1], app, n);
    } else {
      assert slots[..n] == slots;
    }
  }

  lemma {:induction false} FirstIdlePrefix(slots: seq<seq<Slot>>, n: nat)
    requires n <= |slots| && FirstIdle(slots[..n]).Some?
    ensures FirstIdle(slots) == FirstIdle(slots[..n])
  {
    if n < |slots| {
      assert slots[..|slots| - 1][..n] == slots[..n];
      FirstIdlePrefix(slots[..|slots| - 1], n);
    } else {
      assert slots[..n] == slots;
    }
  }

  lemma SucceedsWhen(h: Host, id: nat)
    ensures HostTheorems.Schedulable(h, id) ==> Inv(h) && |h.library| > 0 && Schedule(h, id).1 && Inv(Schedule(h, id).0)
  {
    if HostTheorems.Schedulable(h, id) { HostTheorems.SchedulingSucceeds(h, id); }
  }

  class AosHost {
    const numFpga: nat
    const isDummy: bool
    const sched: AosScheduler
    var nextSessionId: nat
    var sessions: map<nat, AppSession>
    var slotSession: seq<map<nat, AppSession?>>
    var slotApp: seq<map<nat, string>>
    var interfacesEnabled: seq<bool>

    constructor (numFpga: nat, isDummy: bool)
      requires numFpga > 0
      ensures Valid() && fresh(Repr()) && State() == HostTheorems.Boot(numFpga)
      ensures this.numFpga == numFpga && this.isDummy == isDummy
    {
      this.numFpga, this.isDummy := numFpga, isDummy;
      sched := new AosScheduler(numFpga);
      nextSessionId, sessions := 0, map[];
      slotSession, slotApp := seq(numFpga, _ => map[]), seq(numFpga, _ => map[]);
      interfacesEnabled := seq(numFpga, _ => false);
    }

    ghost function SessionObjects(): set<AppSession>
      reads this
    {
      set id | id in sessions :: sessions[id]
    }

    ghost function Repr(): set<object>
      reads this
    {
      {this, sched} + SessionObjects()
    }

    /** The tables are linked, and an FPGA's interfaces are on while it has an image. */
    ghost predicate Valid()
      reads this, sched
    {
      && numFpga > 0
      && |slotSession| == |slotApp| == |interfacesEnabled| == |sched.currentImage| == numFpga
      && Linked(slotSession, slotApp, sessions)
      && (forall f :: 0 <= f < numFpga ==> (interfacesEnabled[f] <==> sched.currentImage[f].Some?))
    }

    ghost function SessionStates(): (m: map<nat, Session>)
      reads this, SessionObjects()
      ensures m.Keys == sessions.Keys
    {
      map id | id in sessions :: sessions[id].State()
    }

    ghost function State(): (h: Host)
      requires Valid()
      reads this, sched, SessionObjects()
      ensures Shape(h) && |h.slots| == numFpga && h.library == sched.imageLibrary
      ensures h.sessions.Keys == sessions.Keys && forall id :: id in sessions ==> h.sessions[id] == sessions[id].State()
    {
      Host(sched.imageLibrary, sched.currentImage, AllSlots(slotSession, slotApp), SessionStates(), nextSessionId)
    }

    method BindAppToSlot(id: nat, f: nat, k: nat)
      requires Valid() && id in sessions && InSlots(State(), f, k)
      modifies this`slotSession, sessions[id]
      ensures Valid() && State() == Bind(old(State()), id, f, k)
    {
      LinkedPut(slotSession, slotApp, sessions, f, k, sessions[id]);
      slotSession := Point(slotSession, f, k, sessions[id]);
      sessions[id].BindToSlot(f, k);
      assert SessionStates() == old(SessionStates())[id := Session(sessions[id].appId, true, f, k)];
    }

    method UnbindAppFromSlot(f: nat, k: nat)
      requires Valid() && InSlots(State(), f, k)
      modifies this`slotSession, SessionObjects()
      ensures Valid() && State() == Unbind(old(State()), f, k)
    {
      hide Linked, Numbered, Known, SlotsIn, AllSlots;
      KnownAt(slotSession, slotApp, sessions, f, k);
      var session := slotSession[f][k];
      if session == null { return; }
      LinkedPut(slotSession, slotApp, sessions, f, k, null);
      slotSession := Point(slotSession, f, k, null);
      ReleaseSession(session);
    }

    /** Releasing a known session changes no other. */
    method ReleaseSession(session: AppSession)
      requires (forall id :: id in sessions ==> sessions[id].sessionId == id) && Known(session, sessions)
      modifies session
      ensures SessionStates() == Release(old(SessionStates()), session.sessionId)
    {
      session.UnbindFromSlot();
      forall id | id in sessions ensures SessionStates()[id] == Release(old(SessionStates()), session.sessionId)[id] {
        assert sessions[id] == session <==> id == session.sessionId;
      }
    }

    method NumSlots(f: nat) returns (n: nat)
      requires Valid() && f < numFpga
      ensures n == |State().slots[f]|
      ensures Valid() && State() == old(State())
    {
      n := |slotSession[f]|;
    }

    method UnbindAllApps(f: nat)
      requires Valid() && f < numFpga
      modifies this`slotSession, SessionObjects()
      ensures Valid() && State() == UnbindAll(old(State()), f)
    {
      hide State, Valid, Unbind;
      ghost var h := State();
      var numSlots := NumSlots(f);
      assert State() == UnbindFirst(h, f, 0);
      for k := 0 to numSlots
        invariant Valid() && numSlots == |h.slots[f]| && f < |h.slots|
        invariant State() == UnbindFirst(h, f, k)
      {
        UnbindAppFromSlot(f, k);
      }
    }

    method DetachFromImage(f: nat)
      requires f < |interfacesEnabled| && interfacesEnabled[f]
      modifies this`interfacesEnabled
      ensures interfacesEnabled == old(interfacesEnabled)[f := false]
    {
      interfacesEnabled := interfacesEnabled[f := false];
    }

    method AttachToImage(f: nat)
      requires f < |interfacesEnabled| && !interfacesEnabled[f]
      modifies this`interfacesEnabled
      ensures interfacesEnabled == old(interfacesEnabled)[f := true]
    {
      interfacesEnabled := interfacesEnabled[f := true];
    }

    /** The tables of a freshly loaded image. */
    static method FreshTables(image: Image) returns (ss: map<nat, AppSession?>, sa: map<nat, string>)
      requires WellFormed(image)
      ensures Numbered(ss, sa) && SlotsIn(ss, sa) == FreshSlots(image)
      ensures forall k :: k in ss ==> ss[k] == null
    {
      ss := map[];
      for k := 0 to image.numSlots
        invariant |ss| == k
        invariant forall j: nat :: (j in ss <==> j < k) && (j in ss ==> ss[j] == null)
      {
        ss := ss[k := null];
      }
      sa := AosScheduler.GetSlotAppIdMap(image);
    }

    method SwitchBitstream(f: nat, image: Image)
      requires f < |interfacesEnabled| == |sched.currentImage|
      requires interfacesEnabled[f] <==> sched.currentImage[f].Some?
      requires GoodLibrary(sched.imageLibrary) && image in sched.imageLibrary
      modifies this`interfacesEnabled, sched`currentImage
      ensures interfacesEnabled == old(interfacesEnabled)[f := true]
      ensures sched.currentImage == old(sched.currentImage)[f := Some(image)]
    {
      if interfacesEnabled[f] { DetachFromImage(f); }
      var idx := sched.GetImageIdx(image);
      sched.ClearImage(f);
      sched.LoadImage(f, idx);
      AttachToImage(f);
    }

    method SwitchImage(f: nat, image: Image)
      requires Valid() && f < numFpga && GoodLibrary(sched.imageLibrary) && image in sched.imageLibrary
      modifies this`slotSession, this`slotApp, this`interfacesEnabled, sched`currentImage
      ensures Valid() && State() == Switch(old(State()), f, image)
    {
      var ss, sa := FreshTables(image);
      LinkedReset(slotSession, slotApp, sessions, f, ss, sa);
      slotSession, slotApp := slotSession[f := ss], slotApp[f := sa];
      SwitchBitstream(f, image);
      assert SessionStates() == old(SessionStates());
    }

    /** Of the fitting images, the first with the most slots. */
    static method SelectImage(library: seq<Image>, fitting: seq<nat>, app: string) returns (selected: nat)
      requires FittingOnly(fitting, library, app) && |library| > 0
      ensures selected == BestFitting(library, app)
    {
      NoneFitsYet(library, app);
      hide Fits, BestFitting, SlotsWon;
      selected := 0;
      var highest := 0;
      for v := 0 to |fitting|
        invariant selected < |library|
        invariant selected == BestFitting(library[..Seen(fitting, v)], app)
        invariant highest == SlotsWon(library[..Seen(fitting, v)], app)
      {
        NextFitting(fitting, library, app, v);
        var numSlots := library[fitting[v]].numSlots;
        if numSlots > highest {
          selected, highest := fitting[v], numSlots;
        }
      }
      LastFitting(fitting, library, app);
    }

    method GetReplacementImage(app: string) returns (image: Image)
      requires |sched.imageLibrary| > 0
      ensures image == sched.imageLibrary[BestFitting(sched.imageLibrary, app)]
    {
      var fitting := sched.GetAllFittingImages(map[app := 1]);
      assert FittingOnly(fitting, sched.imageLibrary, app) by { FittingOne(sched.imageLibrary, app); }
      var selected := SelectImage(sched.imageLibrary, fitting, app);
      image := sched.imageLibrary[selected];
    }

    method CalcFPGALoad(f: nat) returns (load: nat)
      requires Valid() && f < numFpga
      ensures load == Load(State().slots[f])
      ensures Valid() && State() == old(State())
    {
      var ss := slotSession[f];
      ghost var row := SlotsIn(ss, slotApp[f]);
      load := 0;
      for k := 0 to |ss|
        invariant load == Load(row[..k])
      {
        assert row[..k + 1][..k] == row[..k];
        if ss[k] != null { load := load + 1; }
      }
      assert row[..|ss|] == row;
    }

    method FindUnloaded() returns (f: Option<nat>)
      requires Valid()
      ensures f == FirstUnloaded(sched.currentImage)
    {
      ghost var current := sched.currentImage;
      for i := 0 to numFpga
        invariant FirstUnloaded(current[..i]) == None
      {
        assert current[..i + 1][..i] == current[..i];
        if sched.currentImage[i].None? {
          FirstUnloadedPrefix(current, i + 1);
          return Some(i);
        }
      }
      assert current[..numFpga] == current;
      return None;
    }

    method FindIdle() returns (f: Option<nat>)
      requires Valid()
      ensures f == FirstIdle(State().slots)
    {
      ghost var slots := State().slots;
      for i := 0 to numFpga
        invariant FirstIdle(slots[..i]) == None
      {
        assert slots[..i + 1][..i] == slots[..i];
        var load := CalcFPGALoad(i);
        if load == 0 {
          FirstIdlePrefix(slots, i + 1);
          return Some(i);
        }
      }
      assert slots[..numFpga] == slots;
      return None;
    }

    /** The first FPGA without an image, else the first without a session. */
    method FindEmptyFpga() returns (empty: Option<nat>)
      requires Valid()
      ensures empty == EmptyFpga(State())
      ensures Valid() && State() == old(State())
    {
      hide FirstUnloaded, FirstIdle;
      empty := FindUnloaded();
      if empty.None? { empty := FindIdle(); }
    }

    /** The inner loop of the search: the slots of one FPGA. */
    static method SearchSlots(ss: map<nat, AppSession?>, sa: map<nat, string>, app: string, f: nat, load: nat, start: Search)
      returns (p: Search)
      requires Numbered(ss, sa) && (start.free ==> start.found)
      ensures p == ScanSlots(SlotsIn(ss, sa), app, f, load, 0, start)
    {
      ghost var row := SlotsIn(ss, sa);
      p := start;
      var k := 0;
      while k < |ss|
        invariant 0 <= k <= |row| == |ss| && (p.free ==> p.found)
        invariant ScanSlots(row, app, f, load, k, p) == ScanSlots(row, app, f, load, 0, start)
      {
        if sa[k] == app {
          if ss[k] == null {
            if !p.free {
              return Search(true, true, f, k, load);
            } else if p.load > load {
              return p.(fpga := f, slot := k, load := load);
            }
          } else if !p.found {
            p := p.(found := true, fpga := f, slot := k, load := load);
          } else if !p.free && p.load > load {
            return p.(fpga := f, slot := k, load := load);
          }
        }
        k := k + 1;
      }
    }

    method SearchFpga(app: string, f: nat, start: Search) returns (p: Search)
      requires Valid() && f < numFpga && (start.free ==> start.found)
      ensures p == ScanSlots(State().slots[f], app, f, Load(State().slots[f]), 0, start)
      ensures Valid() && State() == old(State())
    {
      hide ScanSlots, SlotsIn, Load;
      var load := CalcFPGALoad(f);
      p := SearchSlots(slotSession[f], slotApp[f], app, f, load, start);
    }

    method FindSlot(app: string) returns (p: Search)
      requires Valid()
      ensures p == Scan(State().slots, app, |State().slots|)
      ensures Valid() && State() == old(State())
    {
      hide State, Valid, ScanSlots, Load;
      p := NOTHING;
      for f := 0 to numFpga
        invariant Valid() && State() == old(State())
        invariant p == Scan(State().slots, app, f)
      {
        p := SearchFpga(app, f, p);
      }
    }

    /** The first free slot of an FPGA built for the application. */
    method FindFreeSlot(app: string, f: nat) returns (slot: Option<nat>)
      requires Valid() && f < numFpga
      ensures slot == FirstFree(State().slots[f], app)
      ensures Valid() && State() == old(State())
    {
      var ss, sa := slotSession[f], slotApp[f];
      ghost var row := SlotsIn(ss, sa);
      for k := 0 to |ss|
        invariant FirstFree(row[..k], app) == None
      {
        assert row[..k + 1][..k] == row[..k];
        if sa[k] == app && ss[k] == null {
          FirstFreePrefix(row, app, k + 1);
          return Some(k);
        }
      }
      assert row[..|ss|] == row;
      return None;
    }

    /** The load to beat is never lowered, so the last FPGA is always the victim. */
    method FindVictim() returns (victim: nat)
      requires Valid()
      ensures victim == numFpga - 1
      ensures Valid() && State() == old(State())
    {
      victim := NONE;
      var maxLoad := NONE;
      for f := 0 to numFpga
        invariant f > 0 ==> victim == f - 1
      {
        var load := CalcFPGALoad(f);
        if load < maxLoad { victim := f; }
      }
    }

    method FlashFpga(f: nat, app: string)
      requires Valid() && f < numFpga && GoodLibrary(sched.imageLibrary) && |sched.imageLibrary| > 0
      modifies this`slotSession, this`slotApp, this`interfacesEnabled, sched`currentImage
      ensures Valid() && State() == Flash(old(State()), f, app)
    {
      var image := GetReplacementImage(app);
      SwitchImage(f, image);
    }

    /** Bind a session to the slot found, after releasing the session that holds it. */
    method TakeSlot(id: nat, p: Search)
      requires Valid() && id in sessions && InSlots(State(), p.fpga, p.slot)
      modifies this`slotSession, SessionObjects()
      ensures Valid() && State() == Bind(if p.free then old(State()) else Unbind(old(State()), p.fpga, p.slot), id, p.fpga, p.slot)
    {
      hide State, Valid;
      if !p.free { UnbindAppFromSlot(p.fpga, p.slot); }
      BindAppToSlot(id, p.fpga, p.slot);
    }

    method ReplaceImageAndBind(id: nat) returns (ok: bool)
      requires Valid() && id in sessions && GoodLibrary(sched.imageLibrary) && |sched.imageLibrary| > 0
      modifies this`slotSession, this`slotApp, this`interfacesEnabled, sched`currentImage, SessionObjects()
      ensures Valid() && (State(), ok) == Replace(old(State()), id, sessions[id].appId)
    {
      hide State, Valid;
      var app := sessions[id].appId;
      var victim := FindVictim();
      UnbindAllApps(victim);
      FlashFpga(victim, app);
      var slot := FindFreeSlot(app, victim);
      if slot.None? { return false; }
      BindAppToSlot(id, victim, slot.value);
      return true;
    }

    /** The steps of scheduling: flash an empty FPGA, search all slots, or replace an image. */
    method RunScheduling(id: nat) returns (ok: bool)
      requires Valid() && id in sessions && !sessions[id].activeSlot
      requires GoodLibrary(sched.imageLibrary) && |sched.imageLibrary| > 0
      modifies this`slotSession, this`slotApp, this`interfacesEnabled, sched`currentImage, SessionObjects()
      ensures Valid() && (State(), ok) == Schedule(old(State()), id)
    {
      hide State, Valid, Flash, Scan, Replace, Bind, Unbind, EmptyFpga;
      var app := sessions[id].appId;
      var empty := FindEmptyFpga();
      if empty.Some? { FlashFpga(empty.value, app); }
      var p := FindSlot(app);
      if p.found {
        TakeSlot(id, p);
        ok := true;
      } else {
        ok := ReplaceImageAndBind(id);
      }
    }

    /** Schedules a session that is not bound; one that could be scheduled always is. */
    method HandleScheduling(id: nat) returns (ok: bool)
      requires Valid() && id in sessions && !sessions[id].activeSlot
      requires GoodLibrary(sched.imageLibrary) && |sched.imageLibrary| > 0
      modifies this`slotSession, this`slotApp, this`interfacesEnabled, sched`currentImage, SessionObjects()
      ensures Valid() && (State(), ok) == if isDummy then (old(State()), true) else Schedule(old(State()), id)
      ensures HostTheorems.Schedulable(old(State()), id) ==> ok && Inv(State())
    {
      SucceedsWhen(State(), id);
      hide State, Valid, Schedule, Inv, HostTheorems.Schedulable;
      if isDummy { return true; }
      ok := RunScheduling(id);
    }

    /** A session is created for a known application only. */
    method HandleInitiateSession(app: string) returns (id: Option<nat>)
      requires Valid() && nextSessionId !in sessions
      modifies this`sessions, this`nextSessionId
      ensures Valid() && (State(), id) == Initiate(old(State()), app)
      ensures id.Some? ==> id.value !in old(sessions) && id.value in sessions
      ensures id.Some? ==> sessions[id.value].appId == app && sessions[id.value].sessionId == id.value
    {
      ghost var h := State();
      assert h.library == sched.imageLibrary;
      var known := sched.AppIdExists(app);
      if !known {
        assert Initiate(h, app) == (h, None);
        assert State() == h;
        return None;
      }
      var session := new AppSession(app, nextSessionId);
      sessions := sessions[nextSessionId := session];
      id := Some(nextSessionId);
      nextSessionId := nextSessionId + 1;
      assert SessionStates() == h.sessions[h.nextId := Session(app, false, NONE, NONE)];
    }

    method HandleEndSession(id: nat)
      requires Valid() && id in sessions && Inv(State())
      modifies this`slotSession, this`sessions, SessionObjects()
      ensures Valid() && State() == EndSession(old(State()), id) && Inv(State())
    {
      ghost var h := State();
      assert SessionAgrees(h, id);
      HostTheorems.EndSessionKeeps(h, id);
      if sessions[id].activeSlot {
        UnbindAppFromSlot(sessions[id].fpgaId, sessions[id].fpgaSlot);
      }
      assert Unused(State(), id) by { UnbindFrees(h, id); }
      Forget(id);
    }

    method Forget(id: nat)
      requires Valid() && Unused(State(), id)
      modifies this`sessions
      ensures Valid() && State() == old(State()).(sessions := old(State()).sessions - {id})
    {
      LinkedForget(slotSession, slotApp, sessions, id);
      sessions := sessions - {id};
      assert SessionStates() == old(SessionStates()) - {id};
    }
  }
}
