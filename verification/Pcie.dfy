/** The PCIe front end: packets from the shell are handed to the application their slot names;
    packets of the applications share one way out, a whole message at a time. */
module Pcie {
  import opened Streams
  import opened Arithmetic
  import Fifo
  import opened Arbiter

  /** A packet; `last` ends a message. */
  datatype Packet = Packet(slot: nat, payload: int, last: bool)

  /** Applications (a power of two), the slot bits that name one, and queue capacities. */
  datatype Config = Config(apps: nat, bits: nat, appDepth: nat, outDepth: nat, inDepth: nat)

  ghost predicate Sane(c: Config) {
    1 <= c.bits <= 6 && 1 <= c.apps <= Fifo.Pow2(c.bits)
  }

  // Slots: six bits, the upper ones naming the application.

  function Below(c: Config): nat
    requires c.bits <= 6
  {
    Fifo.Pow2(6 - c.bits)
  }

  function Tagged(c: Config, app: nat, p: Packet): Packet
    requires c.bits <= 6
  {
    p.(slot := app * Below(c) + p.slot % Below(c))
  }

  function Target(c: Config, slot: nat): nat
    requires c.bits <= 6
  {
    slot / Below(c) % Fifo.Pow2(c.bits)
  }

  function Stripped(c: Config, p: Packet): Packet
    requires c.bits <= 6
  {
    p.(slot := p.slot % Below(c))
  }

  /** What an application's packet carries out is what leads a packet back to it. */
  lemma TagsComeBack(c: Config, app: nat, p: Packet)
    requires Sane(c) && app < Fifo.Pow2(c.bits)
    ensures Target(c, Tagged(c, app, p).slot) == app
    ensures Stripped(c, Tagged(c, app, p)) == Stripped(c, p)
  {
    DivModUnique(app, p.slot % Below(c), Below(c));
    assert app % Fifo.Pow2(c.bits) == app by { DivModUnique(0, app, Fifo.Pow2(c.bits)); }
    assert (p.slot % Below(c)) % Below(c) == p.slot % Below(c) by { DivModUnique(0, p.slot % Below(c), Below(c)); }
  }

  // The way out.

  datatype Out = Out(tree: Tree, queues: seq<seq<Packet>>, active: Option<nat>, unified: seq<Packet>)

  ghost predicate Wired(c: Config, s: Out) {
    && Sane(c) && |s.queues| == Width(s.tree) == c.apps
    && (s.active.Some? ==> s.active.value < c.apps)
  }

  datatype OutIn = OutIn(enable: seq<bool>, offers: seq<Option<Packet>>, grant: bool)

  ghost predicate Fit(c: Config, i: OutIn) { |i.enable| == |i.offers| == c.apps }

  /** What application `a` gets into its queue. */
  function Entering(c: Config, s: Out, i: OutIn, a: nat): Option<Packet>
    requires a < |s.queues| && a < |i.enable| && a < |i.offers| && c.bits <= 6
  {
    if i.enable[a] && i.offers[a].Some? && |s.queues[a]| < c.appDepth then Some(Tagged(c, a, i.offers[a].value)) else None
  }

  /** The application that writes into the shared queue. */
  function Writer(c: Config, s: Out): (w: Option<nat>)
    ensures w.Some? ==> w == s.active && w.value < |s.queues| && s.queues[w.value] != [] && |s.unified| < c.outDepth
  {
    if s.active.Some? && s.active.value < |s.queues| && s.queues[s.active.value] != [] && |s.unified| < c.outDepth then s.active
    else None
  }

  function Written(c: Config, s: Out): (p: Option<Packet>)
    ensures p.Some? <==> Writer(c, s).Some?
  {
    if Writer(c, s).Some? then Some(s.queues[Writer(c, s).value][0]) else None
  }

  /** A new application is chosen when none writes or its message ends. */
  predicate Choosing(c: Config, s: Out) {
    s.active.None? || (Written(c, s).Some? && Written(c, s).value.last)
  }

  /** Requests of the choice: never the application that has just finished. */
  function ArbReq(c: Config, s: Out): (r: seq<bool>)
    ensures |r| == |s.queues|
  {
    seq(|s.queues|, a requires 0 <= a < |s.queues| => Choosing(c, s) && s.queues[a] != [] && s.active != Some(a))
  }

  function Chosen(c: Config, s: Out): (g: Option<nat>)
    requires |s.queues| == Width(s.tree)
    ensures g.Some? ==> g.value < |s.queues| && s.queues[g.value] != [] && s.active != g
    ensures g.None? && Choosing(c, s) ==> forall a :: 0 <= a < |s.queues| && s.active != Some(a) ==> s.queues[a] == []
  {
    assert forall a :: 0 <= a < |s.queues| && ArbReq(c, s)[a] ==> true in ArbReq(c, s);
    assert forall a :: 0 <= a < |s.queues| ==>
             (ArbReq(c, s)[a] <==> Choosing(c, s) && s.queues[a] != [] && s.active != Some(a));
    Pick(s.tree, ArbReq(c, s))
  }

  function NextOut(c: Config, s: Out, i: OutIn): Out
    requires Wired(c, s) && Fit(c, i)
  {
    Out(Step(s.tree, ArbReq(c, s), true),
        seq(c.apps, a requires 0 <= a < c.apps && Wired(c, s) && Fit(c, i) =>
          Fifo.Next(s.queues[a], c.appDepth, Entering(c, s, i, a), Writer(c, s) == Some(a))),
        if Choosing(c, s) then Chosen(c, s) else s.active,
        Fifo.Next(s.unified, c.outDepth, Written(c, s), i.grant))
  }

  /** An entry of the shared queue: who wrote it, and whether anyone else had a packet waiting. */
  datatype Entry = Entry(app: nat, packet: Packet, rivals: bool)

  predicate Rivals(s: Out, app: nat) {
    exists b :: 0 <= b < |s.queues| && b != app && s.queues[b] != []
  }

  /** What entered per application, what was written into the shared queue, what the shell got. */
  datatype Hist = Hist(entered: seq<seq<Packet>>, log: seq<Entry>, shell: seq<Packet>)

  function RecordOut(c: Config, s: Out, i: OutIn, h: Hist): Hist
    requires Wired(c, s) && Fit(c, i) && |h.entered| == c.apps
  {
    var w := Writer(c, s);
    Hist(seq(c.apps, a requires 0 <= a < c.apps && Wired(c, s) && Fit(c, i) && |h.entered| == c.apps =>
           h.entered[a] + Opt(Entering(c, s, i, a))),
         h.log + (if w.Some? then [Entry(w.value, Written(c, s).value, Rivals(s, w.value))] else []),
         h.shell + Fifo.Given(s.unified, i.grant))
  }

  function By(app: nat): Entry -> bool { (e: Entry) => e.app == app }
  function PacketOf(e: Entry): Packet { e.packet }

  /** An application's packets are what it wrote, in order, and what still waits. */
  ghost predicate Conserved(s: Out, h: Hist, a: nat)
    requires a < |s.queues| == |h.entered|
  {
    h.entered[a] == Map(Filter(h.log, By(a)), PacketOf) + s.queues[a]
  }

  /** The packet carries the application's number. */
  predicate Bears(c: Config, a: nat, p: Packet)
    requires c.bits <= 6
  {
    p.slot / Below(c) == a
  }

  /** Entry `k` follows entry `k - 1` properly: another application only after the end of a message,
      the same one after it only when nobody else was waiting. */
  ghost predicate Follows(log: seq<Entry>, k: nat)
    requires 0 < k < |log|
  {
    && (log[k].app != log[k - 1].app ==> log[k - 1].packet.last)
    && (log[k].app == log[k - 1].app && log[k - 1].packet.last ==> !log[k - 1].rivals)
  }

  ghost predicate OutInv(c: Config, s: Out, h: Hist) {
    && Wired(c, s) && |h.entered| == c.apps
    && (forall a :: 0 <= a < c.apps ==> Conserved(s, h, a))
    && (forall k :: 0 <= k < |h.log| ==> h.log[k].app < c.apps && Bears(c, h.log[k].app, h.log[k].packet))
    && (forall a, j :: 0 <= a < c.apps && 0 <= j < |s.queues[a]| ==> Bears(c, a, s.queues[a][j]))
    && (forall k :: 0 < k < |h.log| ==> Follows(h.log, k))
    && Turn(s, h.log)
    && Map(h.log, PacketOf) == h.shell + s.unified
  }

  /** Whose turn it is after what was written last. */
  ghost predicate Turn(s: Out, log: seq<Entry>) {
    log != [] ==>
      var e := log[|log| - 1];
      && (!e.packet.last ==> s.active == Some(e.app))
      && (e.packet.last && e.rivals ==> s.active.Some? && s.active != Some(e.app))
  }

  // Every clock edge keeps it.

  lemma ConservedStep(c: Config, s: Out, i: OutIn, h: Hist, a: nat)
    requires Wired(c, s) && Fit(c, i) && |h.entered| == c.apps && a < c.apps && Conserved(s, h, a)
    ensures Conserved(NextOut(c, s, i), RecordOut(c, s, i, h), a)
  {
    hide Filter, Map, Step, ArbReq, Choosing, Chosen, Rivals, Tagged;
    var w, h' := Writer(c, s), RecordOut(c, s, i, h);
    if w.Some? {
      var e := Entry(w.value, Written(c, s).value, Rivals(s, w.value));
      FilterPush(h.log, e, By(a));
      if w.value == a {
        MapOne(Filter(h.log, By(a)), e);
        assert s.queues[a] == [e.packet] + s.queues[a][1..];
      }
    }
    assert w.None? ==> h'.log == h.log;
  }

  lemma TagsStep(c: Config, s: Out, i: OutIn, h: Hist)
    requires OutInv(c, s, h) && Fit(c, i)
    ensures forall a, j :: 0 <= a < c.apps && 0 <= j < |NextOut(c, s, i).queues[a]| ==> Bears(c, a, NextOut(c, s, i).queues[a][j])
    ensures Writer(c, s).Some? ==> Bears(c, Writer(c, s).value, Written(c, s).value)
  {
    hide Step, ArbReq, Choosing, Chosen, Bears, Tagged, Conserved, Follows, Turn;
    forall a, j | 0 <= a < c.apps && 0 <= j < |NextOut(c, s, i).queues[a]| ensures Bears(c, a, NextOut(c, s, i).queues[a][j]) {
      if Entering(c, s, i, a).Some? { TagIs(c, a, i.offers[a].value); }
    }
  }

  lemma TagIs(c: Config, a: nat, p: Packet)
    requires Sane(c)
    ensures Bears(c, a, Tagged(c, a, p))
  {
  }

  lemma TurnStep(c: Config, s: Out, i: OutIn, h: Hist)
    requires Wired(c, s) && Fit(c, i) && |h.entered| == c.apps && Turn(s, h.log)
    ensures Turn(NextOut(c, s, i), RecordOut(c, s, i, h).log)
  {
  }

  lemma FollowsStep(c: Config, s: Out, i: OutIn, h: Hist)
    requires Wired(c, s) && Fit(c, i) && |h.entered| == c.apps && Turn(s, h.log)
    requires forall k :: 0 < k < |h.log| ==> Follows(h.log, k)
    ensures forall k :: 0 < k < |RecordOut(c, s, i, h).log| ==> Follows(RecordOut(c, s, i, h).log, k)
  {
    hide Step, ArbReq, Tagged, Fifo.Next, Choosing, Chosen, Rivals;
    var log' := RecordOut(c, s, i, h).log;
    forall k | 0 < k < |log'| ensures Follows(log', k) {
      if k < |h.log| { assert Follows(h.log, k); }
    }
  }

  lemma ShellStep(c: Config, s: Out, i: OutIn, h: Hist)
    requires Wired(c, s) && Fit(c, i) && |h.entered| == c.apps
    requires Map(h.log, PacketOf) == h.shell + s.unified
    ensures Map(RecordOut(c, s, i, h).log, PacketOf) == RecordOut(c, s, i, h).shell + NextOut(c, s, i).unified
  {
    hide Step, ArbReq, Choosing, Chosen, Rivals, Entering, Map;
    var w := Writer(c, s);
    Fifo.Flow(s.unified, c.outDepth, Written(c, s), i.grant, Map(h.log, PacketOf), h.shell);
    if w.Some? {
      MapOne(h.log, Entry(w.value, Written(c, s).value, Rivals(s, w.value)));
    } else {
      assert RecordOut(c, s, i, h).log == h.log;
    }
  }

  lemma MapOne(log: seq<Entry>, e: Entry)
    ensures Map(log + [e], PacketOf) == Map(log, PacketOf) + [e.packet]
  {
    MapPush(log, e, PacketOf);
    assert PacketOf(e) == e.packet;
  }

  lemma OutStep(c: Config, s: Out, i: OutIn, h: Hist)
    requires OutInv(c, s, h) && Fit(c, i)
    ensures OutInv(c, NextOut(c, s, i), RecordOut(c, s, i, h))
  {
    hide Filter, Map, Step, ArbReq, Choosing, Tagged, Rivals, Conserved, Bears, Follows, Turn, Fifo.Next, Entering, Written;
    forall a | 0 <= a < c.apps ensures Conserved(NextOut(c, s, i), RecordOut(c, s, i, h), a) { ConservedStep(c, s, i, h, a); }
    TagsStep(c, s, i, h);
    TurnStep(c, s, i, h);
    FollowsStep(c, s, i, h);
    ShellStep(c, s, i, h);
  }

  ghost predicate FitAll(c: Config, inputs: seq<OutIn>) { forall k :: 0 <= k < |inputs| ==> Fit(c, inputs[k]) }

  ghost predicate Boots(c: Config, logApps: nat) { Sane(c) && c.apps == Fifo.Pow2(logApps) }

  ghost function RunOut(c: Config, logApps: nat, inputs: seq<OutIn>): (r: (Out, Hist))
    requires Boots(c, logApps) && FitAll(c, inputs)
    ensures OutInv(c, r.0, r.1)
  {
    if inputs == [] then
      CompleteWidth(Reset(logApps), logApps);
      var r := (Out(Reset(logApps), seq(c.apps, _ => []), None, []), Hist(seq(c.apps, _ => []), [], []));
      BootInv(c, r.0, r.1);
      r
    else
      var n := |inputs| - 1;
      var (s, h) := RunOut(c, logApps, inputs[..n]);
      OutStep(c, s, inputs[n], h);
      (NextOut(c, s, inputs[n]), RecordOut(c, s, inputs[n], h))
  }

  lemma BootInv(c: Config, s: Out, h: Hist)
    requires Wired(c, s) && s.queues == seq(c.apps, _ => []) && s.active == None && s.unified == []
    requires h == Hist(seq(c.apps, _ => []), [], [])
    ensures OutInv(c, s, h)
  {
  }

  lemma StaysWhole(c: Config, s: Out, h: Hist, k: nat)
    requires Sane(c) && OutInv(c, s, h) && 0 < k < |h.shell|
    ensures !h.shell[k - 1].last ==> h.shell[k].slot / Below(c) == h.shell[k - 1].slot / Below(c)
  {
    hide Conserved, Turn, Map, Filter, Below, Wired;
    ShellAt(s, h, k);
    ShellAt(s, h, k - 1);
    assert Follows(h.log, k) && Bears(c, h.log[k].app, h.log[k].packet) && Bears(c, h.log[k - 1].app, h.log[k - 1].packet);
  }

  /** In what the shell receives, the packets of a message are contiguous: after a packet that does
      not end its message comes one of the same application. */
  lemma MessagesStayWhole(c: Config, logApps: nat, inputs: seq<OutIn>, k: nat)
    requires Boots(c, logApps) && FitAll(c, inputs)
    requires 0 < k < |RunOut(c, logApps, inputs).1.shell|
    ensures var shell := RunOut(c, logApps, inputs).1.shell;
            !shell[k - 1].last ==> shell[k].slot / Below(c) == shell[k - 1].slot / Below(c)
  {
    hide OutInv, Below;
    StaysWhole(c, RunOut(c, logApps, inputs).0, RunOut(c, logApps, inputs).1, k);
  }

  lemma ShellAt(s: Out, h: Hist, k: nat)
    requires Map(h.log, PacketOf) == h.shell + s.unified && k < |h.shell|
    ensures k < |h.log| && h.shell[k] == h.log[k].packet
  {
    MapAt(h.log, PacketOf, k);
    assert (h.shell + s.unified)[k] == h.shell[k];
  }

  /** Two messages in a row are of one application only when nobody else was waiting. */
  lemma NobodyIsPassedOver(c: Config, logApps: nat, inputs: seq<OutIn>, k: nat)
    requires Boots(c, logApps) && FitAll(c, inputs)
    requires 0 < k < |RunOut(c, logApps, inputs).1.log|
    ensures var log := RunOut(c, logApps, inputs).1.log;
            log[k - 1].packet.last && log[k - 1].rivals ==> log[k].app != log[k - 1].app
  {
    hide Conserved, Turn, Map, Filter, Bears;
    var log := RunOut(c, logApps, inputs).1.log;
    assert Follows(log, k);
  }

  function IsOf(c: Config, a: nat): Packet -> bool
    requires c.bits <= 6
  {
    (p: Packet) => Bears(c, a, p)
  }

  /** What the shell receives under an application's number is the start of what that application
      handed in, in order and complete. */
  lemma EachAppInOrder(c: Config, logApps: nat, inputs: seq<OutIn>, a: nat)
    requires Boots(c, logApps) && FitAll(c, inputs) && a < c.apps
    ensures var (s, h) := RunOut(c, logApps, inputs);
            h.entered[a] == Filter(h.shell, IsOf(c, a)) + Filter(s.unified, IsOf(c, a)) + s.queues[a]
  {
    hide Turn, Follows, Below, Map, Filter;
    var (s, h) := RunOut(c, logApps, inputs);
    assert Conserved(s, h, a);
    forall e | e in h.log ensures IsOf(c, a)(PacketOf(e)) == By(a)(e) {
      var k :| 0 <= k < |h.log| && h.log[k] == e;
      assert Bears(c, h.log[k].app, h.log[k].packet);
    }
    FilterMap(h.log, PacketOf, IsOf(c, a), By(a));
    FilterAppend(h.shell, s.unified, IsOf(c, a));
  }

  // The way in.

  datatype In = In(unified: seq<Packet>, queues: seq<seq<Packet>>)

  datatype InIn = InIn(packet: Option<Packet>, full: seq<bool>)

  ghost predicate WiredIn(c: Config, s: In, i: InIn) { Sane(c) && |s.queues| == |i.full| == c.apps }

  /** The application the oldest packet moves to; a full queue holds it back. */
  function Moves(c: Config, s: In): (a: Option<nat>)
    requires c.bits <= 6
    ensures a.Some? ==> a.value < |s.queues| && s.unified != [] && a.value == Target(c, s.unified[0].slot)
    ensures a.Some? ==> |s.queues[a.value]| < c.appDepth
  {
    if s.unified == [] then None
    else
      var t := Target(c, s.unified[0].slot);
      if t < |s.queues| && |s.queues[t]| < c.appDepth then Some(t) else None
  }

  function NextIn(c: Config, s: In, i: InIn): In
    requires WiredIn(c, s, i)
  {
    In(Fifo.Next(s.unified, c.inDepth, i.packet, Moves(c, s).Some?),
       seq(c.apps, a requires 0 <= a < c.apps && WiredIn(c, s, i) =>
         Fifo.Next(s.queues[a], c.appDepth, if Moves(c, s) == Some(a) then Some(Stripped(c, s.unified[0])) else None, !i.full[a])))
  }

  /** What the shell got in, and what each application received. */
  datatype InHist = InHist(entered: seq<Packet>, received: seq<seq<Packet>>)

  function RecordIn(c: Config, s: In, i: InIn, h: InHist): InHist
    requires WiredIn(c, s, i) && |h.received| == c.apps
  {
    InHist(h.entered + Fifo.Taken(s.unified, c.inDepth, i.packet),
           seq(c.apps, a requires 0 <= a < c.apps && WiredIn(c, s, i) && |h.received| == c.apps =>
             h.received[a] + Fifo.Given(s.queues[a], !i.full[a])))
  }

  function IsTo(c: Config, a: nat): Packet -> bool
    requires c.bits <= 6
  {
    (p: Packet) => Target(c, p.slot) == a
  }

  function Strip(c: Config): Packet -> Packet
    requires c.bits <= 6
  {
    (p: Packet) => Stripped(c, p)
  }

  /** An application receives the packets addressed to it, in order, none lost. */
  ghost predicate Reaches(c: Config, s: In, h: InHist, a: nat)
    requires c.bits <= 6 && a < |s.queues| == |h.received|
  {
    Map(Filter(h.entered, IsTo(c, a)), Strip(c))
      == h.received[a] + s.queues[a] + Map(Filter(s.unified, IsTo(c, a)), Strip(c))
  }

  lemma ReachesStep(c: Config, s: In, i: InIn, h: InHist, a: nat)
    requires WiredIn(c, s, i) && |h.received| == c.apps && a < c.apps && Reaches(c, s, h, a)
    ensures Reaches(c, NextIn(c, s, i), RecordIn(c, s, i, h), a)
  {
    hide Filter, Map, Stripped, Target, Fifo.Next, Fifo.Taken, Fifo.Given;
    var moved := Moves(c, s) == Some(a);
    var arriving := if moved then Some(Stripped(c, s.unified[0])) else None;
    var kept := Map(Filter(s.unified, IsTo(c, a)), Strip(c));
    UnifiedStep(c, s, i, h, a);
    Fifo.Flow(s.queues[a], c.appDepth, arriving, !i.full[a], h.received[a] + s.queues[a], h.received[a]);
    TakenAll(s.queues[a], c.appDepth, arriving);
  }

  lemma TakenAll(q: seq<Packet>, depth: nat, wr: Option<Packet>)
    requires wr.Some? ==> |q| < depth
    ensures Fifo.Taken(q, depth, wr) == Opt(wr)
  {
  }

  /** The unified queue gives its oldest packet to the application it is addressed to. */
  lemma UnifiedStep(c: Config, s: In, i: InIn, h: InHist, a: nat)
    requires WiredIn(c, s, i) && |h.received| == c.apps && a < c.apps && Reaches(c, s, h, a)
    ensures Map(Filter(h.entered + Fifo.Taken(s.unified, c.inDepth, i.packet), IsTo(c, a)), Strip(c))
         == (h.received[a] + s.queues[a]) + (if Moves(c, s) == Some(a) then [Stripped(c, s.unified[0])] else [])
            + Map(Filter(NextIn(c, s, i).unified, IsTo(c, a)), Strip(c))
  {
    hide Filter, Map, Stripped, Target;
    var to, strip, u := IsTo(c, a), Strip(c), s.unified;
    var more := Fifo.Taken(u, c.inDepth, i.packet);
    var rest := if Moves(c, s).Some? then u[1..] else u;
    assert NextIn(c, s, i).unified == rest + more;
    FilterAppend(h.entered, more, to);
    MapAppend(Filter(h.entered, to), Filter(more, to), strip);
    FilterAppend(rest, more, to);
    MapAppend(Filter(rest, to), Filter(more, to), strip);
    if Moves(c, s).Some? {
      assert u == [u[0]] + rest;
      HeadIs(c, u, a);
    }
  }

  lemma HeadIs(c: Config, u: seq<Packet>, a: nat)
    requires c.bits <= 6 && u != []
    ensures Map(Filter(u, IsTo(c, a)), Strip(c))
         == (if Target(c, u[0].slot) == a then [Stripped(c, u[0])] else []) + Map(Filter(u[1..], IsTo(c, a)), Strip(c))
  {
  }

  ghost predicate FitIn(c: Config, inputs: seq<InIn>) { forall k :: 0 <= k < |inputs| ==> |inputs[k].full| == c.apps }

  ghost function RunIn(c: Config, inputs: seq<InIn>): (r: (In, InHist))
    requires Sane(c) && FitIn(c, inputs)
    ensures |r.0.queues| == |r.1.received| == c.apps
  {
    if inputs == [] then (In([], seq(c.apps, _ => [])), InHist([], seq(c.apps, _ => [])))
    else
      var n := |inputs| - 1;
      var (s, h) := RunIn(c, inputs[..n]);
      (NextIn(c, s, inputs[n]), RecordIn(c, s, inputs[n], h))
  }

  /** Everything the shell hands in for an application is received, or still queued, in order, the
      application's number taken off. */
  lemma {:induction false} PacketsReachTheirApp(c: Config, inputs: seq<InIn>, a: nat)
    requires Sane(c) && FitIn(c, inputs) && a < c.apps
    ensures var (s, h) := RunIn(c, inputs);
            Map(Filter(h.entered, IsTo(c, a)), Strip(c))
            == h.received[a] + s.queues[a] + Map(Filter(s.unified, IsTo(c, a)), Strip(c))
  {
    if inputs != [] {
      var n := |inputs| - 1;
      var (s, h) := RunIn(c, inputs[..n]);
      PacketsReachTheirApp(c, inputs[..n], a);
      ReachesStep(c, s, inputs[n], h, a);
    }
  }

  // Packets for an application that does not exist.

  lemma SlotSpace(c: Config)
    requires Sane(c)
    ensures Fifo.Pow2(c.bits) * Below(c) == 64
  {
    assert Fifo.Pow2(0) == 1 && Fifo.Pow2(1) == 2 && Fifo.Pow2(2) == 4;
    assert Fifo.Pow2(3) == 8 && Fifo.Pow2(4) == 2 * Fifo.Pow2(3) && Fifo.Pow2(5) == 2 * Fifo.Pow2(4) && Fifo.Pow2(6) == 2 * Fifo.Pow2(5);
  }

  /** Some slot names no application exactly when the reserved bits can name more than there are. */
  lemma StraySlots(c: Config)
    requires Sane(c)
    ensures (exists slot: nat :: slot < 64 && Target(c, slot) >= c.apps) <==> c.apps < Fifo.Pow2(c.bits)
  {
    if c.apps < Fifo.Pow2(c.bits) {
      var slot := c.apps * Below(c);
      SlotSpace(c);
      DivModUnique(c.apps, 0, Below(c));
      DivModUnique(0, c.apps, Fifo.Pow2(c.bits));
      assert (c.apps + 1) * Below(c) <= Fifo.Pow2(c.bits) * Below(c);
      assert slot < 64 && Target(c, slot) == c.apps;
    }
  }

  /** The oldest packet leaves the shared queue exactly when its application exists and has room; it
      then enters that application's queue. */
  lemma HeadMoves(c: Config, s: In, i: InIn)
    requires WiredIn(c, s, i) && s.unified != []
    ensures var t, s' := Target(c, s.unified[0].slot), NextIn(c, s, i);
            var moves := t < c.apps && |s.queues[t]| < c.appDepth;
            && (moves ==> s'.unified == s.unified[1..] + Fifo.Taken(s.unified, c.inDepth, i.packet)
                          && s'.queues[t] != [] && s'.queues[t][|s'.queues[t]| - 1] == Stripped(c, s.unified[0]))
            && (!moves ==> s'.unified == s.unified + Fifo.Taken(s.unified, c.inDepth, i.packet))
            && (|s'.unified| == |s.unified| - 1 + |Fifo.Taken(s.unified, c.inDepth, i.packet)| <==> moves)
  {
    hide Target, Stripped;
  }

  lemma HeldUpStep(c: Config, s: In, i: InIn, h: InHist, a: nat)
    requires WiredIn(c, s, i) && |h.received| == c.apps && a < c.apps
    requires s.unified != [] && Target(c, s.unified[0].slot) >= c.apps
    ensures s.unified <= NextIn(c, s, i).unified
    ensures RecordIn(c, s, i, h).received[a] + NextIn(c, s, i).queues[a] == h.received[a] + s.queues[a]
    ensures h.received[a] <= RecordIn(c, s, i, h).received[a]
  {
    hide Target, Stripped;
  }

  /** A packet whose application does not exist holds up the way in for good: however long the run
      goes on, it stays at the head, and an application receives only what had passed before it. */
  lemma {:induction false} HeldUp(c: Config, inputs: seq<InIn>, more: seq<InIn>, a: nat)
    requires Sane(c) && FitIn(c, inputs) && FitIn(c, inputs + more) && a < c.apps
    requires var s := RunIn(c, inputs).0; s.unified != [] && Target(c, s.unified[0].slot) >= c.apps
    ensures var (s, h) := RunIn(c, inputs); var (s', h') := RunIn(c, inputs + more);
            && s.unified <= s'.unified
            && h'.received[a] + s'.queues[a] == h.received[a] + s.queues[a]
            && h.received[a] <= h'.received[a]
  {
    hide Target, NextIn, RecordIn;
    if more == [] {
      assert inputs + more == inputs;
    } else {
      var all, n := inputs + more, |inputs + more| - 1;
      assert all[..n] == inputs + more[..|more| - 1];
      HeldUp(c, inputs, more[..|more| - 1], a);
      var (s, h) := RunIn(c, all[..n]);
      assert s.unified[0] == RunIn(c, inputs).0.unified[0];
      HeldUpStep(c, s, all[n], h, a);
    }
  }

  const SINGLE := Config(1, 1, 8, 8, 8)

  /** One application still reserves one bit, and slot 32 sets it: after that packet the application
      receives nothing, whatever the shell sends. */
  lemma StrayPacket(payload: int, more: seq<InIn>)
    requires FitIn(SINGLE, more)
    ensures var inputs := [InIn(Some(Packet(32, payload, true)), [false])] + more;
            Sane(SINGLE) && FitIn(SINGLE, inputs) && RunIn(SINGLE, inputs).1.received == [[]]
  {
    var first := [InIn(Some(Packet(32, payload, true)), [false])];
    assert Fifo.Pow2(1) == 2 && Target(SINGLE, 32) == 1 by { ThirtyTwo(); }
    assert first[..0] == [];
    assert RunIn(SINGLE, first).0 == In([Packet(32, payload, true)], [[]]);
    assert RunIn(SINGLE, first).1.received[0] == [];
    HeldUp(SINGLE, first, more, 0);
  }

  lemma ThirtyTwo()
    ensures Fifo.Pow2(1) == 2 && Target(SINGLE, 32) == 1
  {
    assert Fifo.Pow2(0) == 1 && Fifo.Pow2(2) == 4 && Fifo.Pow2(3) == 8 && Fifo.Pow2(4) == 16;
    assert Fifo.Pow2(5) == 2 * Fifo.Pow2(4);
  }

  class AmorphOSPCIE {
    const config: Config
    var arbiter: Tree
    var respQs: seq<seq<Packet>>
    var unifiedRespQ: seq<Packet>
    var transactionActive: bool
    var activeApp: nat
    var inQs: seq<seq<Packet>>
    var unifiedInQ: seq<Packet>

    constructor (config: Config, logApps: nat)
      requires Boots(config, logApps)
      ensures this.config == config && OutState() == Out(Reset(logApps), seq(config.apps, _ => []), None, [])
      ensures InState() == In([], seq(config.apps, _ => []))
    {
      this.config := config;
      arbiter := Reset(logApps);
      respQs, unifiedRespQ := seq(config.apps, _ => []), [];
      transactionActive, activeApp := false, 0;
      inQs, unifiedInQ := seq(config.apps, _ => []), [];
    }

    function OutState(): Out
      reads this
    {
      Out(arbiter, respQs, if transactionActive then Some(activeApp) else None, unifiedRespQ)
    }

    function InState(): In
      reads this
    {
      In(unifiedInQ, inQs)
    }

    method RequestLines(selectNewApp: bool) returns (req: seq<bool>)
      requires selectNewApp == Choosing(config, OutState())
      ensures req == ArbReq(config, OutState())
    {
      req := [];
      for app := 0 to |respQs|
        invariant req == ArbReq(config, OutState())[..app]
      {
        req := req + [selectNewApp && respQs[app] != [] && !(transactionActive && activeApp == app)];
      }
    }

    method ClockRespQueues(i: OutIn, writer: Option<nat>)
      requires Wired(config, OutState()) && Fit(config, i)
      modifies this`respQs
      ensures |respQs| == config.apps
      ensures forall a :: 0 <= a < config.apps ==>
                respQs[a] == Fifo.Next(old(respQs)[a], config.appDepth, Entering(config, old(OutState()), i, a), writer == Some(a))
    {
      var queues := [];
      for a := 0 to config.apps
        invariant respQs == old(respQs) && |queues| == a
        invariant forall b :: 0 <= b < a ==>
                    queues[b] == Fifo.Next(old(respQs)[b], config.appDepth, Entering(config, old(OutState()), i, b), writer == Some(b))
      {
        var enq := i.enable[a] && i.offers[a].Some? && |respQs[a]| < config.appDepth;
        queues := queues + [Fifo.Next(respQs[a], config.appDepth, if enq then Some(Tagged(config, a, i.offers[a].value)) else None, writer == Some(a))];
      }
      respQs := queues;
    }

    /** The packet that moves into the shared queue, and whose it is. */
    method WriteWires() returns (writer: Option<nat>, packet: Option<Packet>, selectNewApp: bool)
      requires Wired(config, OutState())
      ensures writer == Writer(config, OutState()) && packet == Written(config, OutState())
      ensures selectNewApp == Choosing(config, OutState())
    {
      hide Step, ArbReq;
      var enq := transactionActive && respQs[activeApp] != [] && |unifiedRespQ| < config.outDepth;
      writer := if enq then Some(activeApp) else None;
      packet := if enq then Some(respQs[activeApp][0]) else None;
      var lastPacket := enq && packet.value.last;
      selectNewApp := lastPacket || !transactionActive;
    }

    method Arbitrate(selectNewApp: bool) returns (granted: Option<nat>, arbiter': Tree)
      requires Wired(config, OutState()) && selectNewApp == Choosing(config, OutState())
      ensures granted == Chosen(config, OutState()) && arbiter' == Step(arbiter, ArbReq(config, OutState()), true)
    {
      hide Step, ArbReq;
      var req := RequestLines(selectNewApp);
      granted, arbiter' := Pick(arbiter, req), Step(arbiter, req, true);
    }

    method ClockOut(i: OutIn)
      requires Wired(config, OutState()) && Fit(config, i)
      modifies this`arbiter, this`respQs, this`unifiedRespQ, this`transactionActive, this`activeApp
      ensures OutState() == NextOut(config, old(OutState()), i)
    {
      hide Step, Tagged, Fifo.Next, ArbReq, Writer, Written, Choosing, Chosen, Entering;
      var writer, packet, selectNewApp := WriteWires();
      var granted, arbiter' := Arbitrate(selectNewApp);
      ClockRespQueues(i, writer);
      arbiter := arbiter';
      unifiedRespQ := Fifo.Next(unifiedRespQ, config.outDepth, packet, i.grant);
      if selectNewApp {
        transactionActive := granted.Some?;
        activeApp := if granted.Some? then granted.value else 0;
      }
    }

    method ClockIn(i: InIn)
      requires WiredIn(config, InState(), i)
      modifies this`inQs, this`unifiedInQ
      ensures InState() == NextIn(config, old(InState()), i)
    {
      hide Stripped, Fifo.Next;
      ghost var s := InState();
      var routed := None;
      if unifiedInQ != [] {
        var target := Target(config, unifiedInQ[0].slot);
        if target < |inQs| && |inQs[target]| < config.appDepth { routed := Some(target); }
      }
      var queues := [];
      for a := 0 to config.apps
        invariant inQs == s.queues && unifiedInQ == s.unified && routed == Moves(config, s) && |queues| == a
        invariant forall b :: 0 <= b < a ==> queues[b] == NextIn(config, s, i).queues[b]
      {
        queues := queues + [Fifo.Next(inQs[a], config.appDepth,
          if routed == Some(a) then Some(Stripped(config, unifiedInQ[0])) else None, !i.full[a])];
      }
      inQs := queues;
      unifiedInQ := Fifo.Next(unifiedInQ, config.inDepth, i.packet, routed.Some?);
    }
  }
}
