/** The request route tree: every node buffers a request for one cycle and passes it to the side
    one address bit names; the layers look at one bit each, from the highest down. */
module RouteTree {
  import opened Streams
  import opened Arithmetic
  import Fifo

  datatype Req = Req(isWrite: bool, addr: nat, data: int)

  /** A leaf is the wire to an application. */
  datatype Tree = Leaf | Node(queue: seq<Req>, zero: Tree, one: Tree)

  /** Bit `k` of the six routing bits 15 to 10. */
  predicate Bit(addr: nat, k: nat) { addr / 1024 / Fifo.Pow2(k) % 2 == 1 }

  /** What a node passes to one side this cycle. */
  function Passed(queue: seq<Req>, k: nat, side: bool): Option<Req> {
    if queue != [] && Bit(queue[0].addr, k) == side then Some(queue[0]) else None
  }

  function Empty(layers: nat): Tree {
    if layers == 0 then Leaf else Node([], Empty(layers - 1), Empty(layers - 1))
  }

  ghost predicate Shaped(t: Tree, layers: nat) {
    match t
    case Leaf => layers == 0
    case Node(_, zero, one) => layers > 0 && Shaped(zero, layers - 1) && Shaped(one, layers - 1)
  }

  /** One clock edge; the queue's head always leaves. */
  function Next(t: Tree, layers: nat, depth: nat, req: Option<Req>): (t': Tree)
    requires Shaped(t, layers)
    ensures Shaped(t', layers)
  {
    match t
    case Leaf => Leaf
    case Node(queue, zero, one) =>
      Node(Fifo.Next(queue, depth, req, true),
           Next(zero, layers - 1, depth, Passed(queue, layers - 1, false)),
           Next(one, layers - 1, depth, Passed(queue, layers - 1, true)))
  }

  /** The wire to an application this cycle. */
  function Wire(t: Tree, layers: nat, req: Option<Req>, app: nat): Option<Req>
    requires Shaped(t, layers)
  {
    match t
    case Leaf => req
    case Node(queue, zero, one) =>
      if app < Fifo.Pow2(layers - 1) then Wire(zero, layers - 1, Passed(queue, layers - 1, false), app)
      else Wire(one, layers - 1, Passed(queue, layers - 1, true), app - Fifo.Pow2(layers - 1))
  }

  /** The application sees the address without its routing bits. */
  function Masked(req: Option<Req>): Option<Req> {
    if req.Some? then Some(req.value.(addr := req.value.addr % 1024)) else None
  }

  function After(layers: nat, depth: nat, reqs: seq<Option<Req>>): (t: Tree)
    ensures Shaped(t, layers)
  {
    if reqs == [] then EmptyShaped(layers); Empty(layers)
    else Next(After(layers, depth, reqs[..|reqs| - 1]), layers, depth, reqs[|reqs| - 1])
  }

  lemma {:induction false} EmptyShaped(layers: nat)
    ensures Shaped(Empty(layers), layers)
  {
    if layers > 0 { EmptyShaped(layers - 1); }
  }

  // The tree is a delay line that sorts.

  /** The requests one side of the root sees: the root's, one cycle late, when they are for it. */
  function Side(reqs: seq<Option<Req>>, k: nat, side: bool): (r: seq<Option<Req>>)
    ensures |r| == |reqs|
  {
    seq(|reqs|, t requires 0 <= t < |reqs| => if t == 0 then None else Sent(reqs[t - 1], k, side))
  }

  function Sent(req: Option<Req>, k: nat, side: bool): Option<Req> {
    if req.Some? && Bit(req.value.addr, k) == side then req else None
  }

  lemma SidePush(reqs: seq<Option<Req>>, last: Option<Req>, k: nat, side: bool)
    ensures Side(reqs + [last], k, side)
         == Side(reqs, k, side) + [if reqs == [] then None else Sent(reqs[|reqs| - 1], k, side)]
  {
  }

  /** The root holds at most the last request, so it never refuses one; its halves run on what it
      passes on. */
  lemma {:induction false} Halves(layers: nat, depth: nat, reqs: seq<Option<Req>>)
    requires layers > 0 && depth > 1
    ensures After(layers, depth, reqs)
         == Node(if reqs == [] then [] else Opt(reqs[|reqs| - 1]),
                 After(layers - 1, depth, Side(reqs, layers - 1, false)),
                 After(layers - 1, depth, Side(reqs, layers - 1, true)))
    decreases |reqs|
  {
    if reqs == [] {
      EmptyShaped(layers);
      assert Side(reqs, layers - 1, false) == [] && Side(reqs, layers - 1, true) == [];
    } else {
      var before, last, k := reqs[..|reqs| - 1], reqs[|reqs| - 1], layers - 1;
      assert reqs == before + [last];
      Halves(layers, depth, before);
      HalfPush(layers, depth, before, last, false);
      HalfPush(layers, depth, before, last, true);
    }
  }

  lemma HalfPush(layers: nat, depth: nat, before: seq<Option<Req>>, last: Option<Req>, side: bool)
    requires layers > 0 && depth > 1
    ensures After(layers - 1, depth, Side(before + [last], layers - 1, side))
         == Next(After(layers - 1, depth, Side(before, layers - 1, side)), layers - 1, depth,
                 if before == [] then None else Sent(before[|before| - 1], layers - 1, side))
  {
    var s := Side(before + [last], layers - 1, side);
    SidePush(before, last, layers - 1, side);
    assert s[..|s| - 1] == Side(before, layers - 1, side);
  }

  /** The application number in the routing bits. */
  function Index(addr: nat, layers: nat): nat { addr / 1024 % Fifo.Pow2(layers) }

  /** The highest routing bit says which half an application number is in. */
  lemma IndexSplits(addr: nat, layers: nat)
    requires layers > 0
    ensures Index(addr, layers) == (if Bit(addr, layers - 1) then Fifo.Pow2(layers - 1) else 0) + Index(addr, layers - 1)
  {
    var n, p := addr / 1024, Fifo.Pow2(layers - 1);
    var q, r := n / p, n % p;
    var low := q % 2 * p + r;
    assert n == q / 2 * (2 * p) + low by {
      assert q == q / 2 * 2 + q % 2 && n == q * p + r;
      assert (q / 2 * 2 + q % 2) * p == q / 2 * (2 * p) + q % 2 * p;
    }
    DivModUnique(q / 2, low, 2 * p);
  }

  /** The request, if its routing bits name the application. */
  function Named(req: Option<Req>, layers: nat, app: nat): Option<Req> {
    if req.Some? && Index(req.value.addr, layers) == app then req else None
  }

  /** Naming an application is going to its half and naming it there. */
  lemma NamedSplits(x: Option<Req>, layers: nat, app: nat)
    requires layers > 0 && app < Fifo.Pow2(layers)
    ensures var side := app >= Fifo.Pow2(layers - 1);
            Named(Sent(x, layers - 1, side), layers - 1, if side then app - Fifo.Pow2(layers - 1) else app)
            == Named(x, layers, app)
  {
    hide Bit;
    if x.Some? {
      IndexSplits(x.value.addr, layers);
      assert Index(x.value.addr, layers - 1) < Fifo.Pow2(layers - 1);
    }
  }

  /** What reaches a side `k` layers down is what reached the root one cycle before. */
  lemma LateBy(reqs: seq<Option<Req>>, now: Option<Req>, k: nat, side: bool)
    requires k <= |reqs|
    ensures (Side(reqs, k, side) + [Late(reqs, k, side)])[|reqs| - k]
         == if k < |reqs| then Sent((reqs + [now])[|reqs| - k - 1], k, side) else None
  {
  }

  function Late(reqs: seq<Option<Req>>, k: nat, side: bool): Option<Req> {
    if reqs == [] then None else Sent(reqs[|reqs| - 1], k, side)
  }

  /** A wire of the tree is a wire of the half the application is in. */
  lemma Descend(layers: nat, depth: nat, reqs: seq<Option<Req>>, now: Option<Req>, app: nat)
    requires layers > 0 && depth > 1
    ensures var k, side := layers - 1, app >= Fifo.Pow2(layers - 1);
            Wire(After(layers, depth, reqs), layers, now, app)
            == Wire(After(k, depth, Side(reqs, k, side)), k, Late(reqs, k, side), if side then app - Fifo.Pow2(k) else app)
  {
    hide After, Side, Bit;
    Halves(layers, depth, reqs);
  }

  function Expected(layers: nat, reqs: seq<Option<Req>>, now: Option<Req>, app: nat): Option<Req> {
    if layers <= |reqs| then Named((reqs + [now])[|reqs| - layers], layers, app) else None
  }

  lemma ExpectedSplits(layers: nat, reqs: seq<Option<Req>>, now: Option<Req>, app: nat)
    requires layers > 0 && app < Fifo.Pow2(layers)
    ensures var k, side := layers - 1, app >= Fifo.Pow2(layers - 1);
            Expected(k, Side(reqs, k, side), Late(reqs, k, side), if side then app - Fifo.Pow2(k) else app)
            == Expected(layers, reqs, now, app)
  {
    hide Side, Bit, Index;
    var k, side := layers - 1, app >= Fifo.Pow2(layers - 1);
    if k <= |reqs| {
      LateBy(reqs, now, k, side);
      NamedSplits(if k < |reqs| then (reqs + [now])[|reqs| - layers] else None, layers, app);
    }
  }

  /** What a wire carries: after as many cycles as there are layers, the request whose routing bits
      name the application; nothing else, ever. */
  lemma {:induction false} RoutesExactly(layers: nat, depth: nat, reqs: seq<Option<Req>>, now: Option<Req>, app: nat)
    requires depth > 1 && app < Fifo.Pow2(layers)
    ensures Wire(After(layers, depth, reqs), layers, now, app) == Expected(layers, reqs, now, app)
    decreases layers
  {
    hide After, Side, Bit, Wire, Expected;
    if layers > 0 {
      var k, side := layers - 1, app >= Fifo.Pow2(layers - 1);
      Descend(layers, depth, reqs, now, app);
      RoutesExactly(k, depth, Side(reqs, k, side), Late(reqs, k, side), if side then app - Fifo.Pow2(k) else app);
      ExpectedSplits(layers, reqs, now, app);
    } else {
      NoLayers(depth, reqs, now, app);
    }
  }

  lemma NoLayers(depth: nat, reqs: seq<Option<Req>>, now: Option<Req>, app: nat)
    requires app == 0
    ensures Wire(After(0, depth, reqs), 0, now, app) == Expected(0, reqs, now, app) == now
  {
  }

  /** What an application sees: the request of as many cycles ago as there are layers, if it was for
      it, with the address within its own registers. */
  lemma AppSees(layers: nat, depth: nat, reqs: seq<Option<Req>>, now: Option<Req>, app: nat)
    requires depth > 1 && layers > 0 && app < Fifo.Pow2(layers)
    ensures var seen, sent := Masked(Wire(After(layers, depth, reqs), layers, now, app)),
                              if layers <= |reqs| then (reqs + [now])[|reqs| - layers] else None;
            && (seen.Some? <==> sent.Some? && sent.value.addr / 1024 % Fifo.Pow2(layers) == app)
            && (seen.Some? ==> seen.value == Req(sent.value.isWrite, sent.value.addr % 1024, sent.value.data))
  {
    hide After, Wire;
    RoutesExactly(layers, depth, reqs, now, app);
  }

  /** A node as it is built. */
  class AosSr1To2 {
    const selectBit: nat
    const depth: nat
    var buffer: seq<Req>

    constructor (selectBit: nat, depth: nat)
      ensures this.selectBit == selectBit && this.depth == depth && buffer == []
    {
      this.selectBit, this.depth := selectBit, depth;
      buffer := [];
    }

    method Outputs() returns (out0: Option<Req>, out1: Option<Req>)
      ensures out0 == Passed(buffer, selectBit, false) && out1 == Passed(buffer, selectBit, true)
      ensures buffer != [] ==> (out0.Some? <==> out1.None?)
    {
      out0, out1 := None, None;
      if buffer != [] {
        if !Bit(buffer[0].addr, selectBit) {
          out0 := Some(buffer[0]);
        } else {
          out1 := Some(buffer[0]);
        }
      }
    }

    /** The head leaves in every cycle. */
    method Clock(req: Option<Req>)
      modifies this
      ensures buffer == Fifo.Next(old(buffer), depth, req, true)
      ensures old(|buffer|) <= 1 && depth > 1 ==> buffer == Opt(req)
    {
      buffer := Fifo.Next(buffer, depth, req, buffer != []);
    }
  }
}
