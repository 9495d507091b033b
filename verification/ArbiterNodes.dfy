/** The arbiter as it is wired: nodes with one register each, and the trees built from them. */
module ArbiterNodes {
  import opened Streams
  import Fifo
  import opened Arbiter

  class TwoInputArbiter {
    var lastServiced: bool

    constructor ()
      ensures lastServiced
    {
      lastServiced := true;
    }

    function Tree(zero: Tree, one: Tree): Tree
      reads this
    {
      Node(lastServiced, zero, one)
    }

    /** The grant wires, a combinational function of the register. */
    method Grant(req0: bool, req1: bool, arbGrant: bool) returns (grant0: bool, grant1: bool)
      ensures grant0 == Grant0(lastServiced, req0, req1, arbGrant)
      ensures grant1 == Grant1(lastServiced, req0, req1, arbGrant)
    {
      if req0 && (lastServiced != false || !req1) {
        grant0, grant1 := arbGrant, false;
      } else if req1 && (lastServiced != true || !req0) {
        grant0, grant1 := false, arbGrant;
      } else {
        grant0, grant1 := false, false;
      }
    }

    method Clock(req0: bool, req1: bool, arbGrant: bool)
      modifies this
      ensures lastServiced == NewLast(old(lastServiced), req0, req1, arbGrant)
    {
      if req0 && (lastServiced != false || !req1) {
        lastServiced := if arbGrant then false else lastServiced;
      } else if req1 && (lastServiced != true || !req0) {
        lastServiced := if arbGrant then true else lastServiced;
      }
    }
  }

  class FourInputArbiter {
    const low: TwoInputArbiter
    const high: TwoInputArbiter
    const second: TwoInputArbiter

    ghost predicate Valid()
    {
      low != high && low != second && high != second
    }

    ghost const Repr: set<object> := {this, low, high, second}

    constructor ()
      ensures Valid() && fresh(Repr) && State() == Reset(2)
    {
      low := new TwoInputArbiter();
      high := new TwoInputArbiter();
      second := new TwoInputArbiter();
      new;
      assert Reset(1) == Node(true, Leaf, Leaf);
    }

    ghost function State(): (t: Tree)
      reads low, high, second
      ensures Width(t) == 4 && Complete(t, 2)
    {
      var zero, one := low.Tree(Leaf, Leaf), high.Tree(Leaf, Leaf);
      assert Width(zero) == 2 && Complete(zero, 1) && Width(one) == 2 && Complete(one, 1);
      second.Tree(zero, one)
    }

    /** The request this tree passes up. */
    function ArbReq(req: seq<bool>): (up: bool)
      requires |req| == 4
      reads low, high, second
      ensures up == AnyReq(State(), req)
    {
      Unfold(State().zero, Low(State(), req));
      Unfold(State().one, High(State(), req));
      (req[0] || req[1]) || (req[2] || req[3])
    }

    /** The three nodes' grants and edges. */
    method ClockNodes(req: seq<bool>, up0: bool, up1: bool, arbGrant: bool) returns (down0: bool, down1: bool, grant: seq<bool>)
      requires Valid() && |req| == 4
      modifies low, high, second
      ensures down0 == Grant0(old(second.lastServiced), up0, up1, arbGrant)
      ensures down1 == Grant1(old(second.lastServiced), up0, up1, arbGrant)
      ensures grant == [Grant0(old(low.lastServiced), req[0], req[1], down0), Grant1(old(low.lastServiced), req[0], req[1], down0)]
                     + [Grant0(old(high.lastServiced), req[2], req[3], down1), Grant1(old(high.lastServiced), req[2], req[3], down1)]
      ensures second.lastServiced == NewLast(old(second.lastServiced), up0, up1, arbGrant)
      ensures low.lastServiced == NewLast(old(low.lastServiced), req[0], req[1], down0)
      ensures high.lastServiced == NewLast(old(high.lastServiced), req[2], req[3], down1)
    {
      hide Grant0, Grant1, NewLast;
      down0, down1 := second.Grant(up0, up1, arbGrant);
      var g0, g1 := low.Grant(req[0], req[1], down0);
      var g2, g3 := high.Grant(req[2], req[3], down1);
      grant := [g0, g1] + [g2, g3];
      second.Clock(up0, up1, arbGrant);
      low.Clock(req[0], req[1], down0);
      high.Clock(req[2], req[3], down1);
    }

    /** One cycle: requests up, grant down, then every node's edge. */
    method Clock(req: seq<bool>, arbGrant: bool) returns (grant: seq<bool>)
      requires Valid() && |req| == 4
      modifies low, high, second
      ensures grant == Grants(old(State()), req, arbGrant)
      ensures State() == Step(old(State()), req, arbGrant)
    {
      UnfoldFour(State(), req, arbGrant);
      var down0, down1;
      down0, down1, grant := ClockNodes(req, req[0] || req[1], req[2] || req[3], arbGrant);
    }
  }

  /** Two nodes of two wires under one, written out. */
  lemma UnfoldFour(t: Tree, req: seq<bool>, en: bool)
    requires t.Node? && t.zero.Node? && t.one.Node? && |req| == 4
    requires t.zero.zero == t.zero.one == t.one.zero == t.one.one == Leaf
    ensures var up0, up1 := req[0] || req[1], req[2] || req[3];
            var down0, down1 := Grant0(t.last, up0, up1, en), Grant1(t.last, up0, up1, en);
            && Width(t) == 4
            && Grants(t, req, en)
               == [Grant0(t.zero.last, req[0], req[1], down0), Grant1(t.zero.last, req[0], req[1], down0)]
                + [Grant0(t.one.last, req[2], req[3], down1), Grant1(t.one.last, req[2], req[3], down1)]
            && Step(t, req, en)
               == Node(NewLast(t.last, up0, up1, en),
                       Node(NewLast(t.zero.last, req[0], req[1], down0), Leaf, Leaf),
                       Node(NewLast(t.one.last, req[2], req[3], down1), Leaf, Leaf))
  {
    Unfold(t.zero, req[..2]);
    Unfold(t.one, req[2..]);
    hide Grant0, Grant1, NewLast;
  }

  /** A node of two wires, written out. */
  lemma Unfold(t: Tree, req: seq<bool>)
    requires t.Node? && t.zero == Leaf && t.one == Leaf && |req| == 2
    ensures AnyReq(t, req) == (req[0] || req[1])
    ensures forall en :: Grants(t, req, en) == [Grant0(t.last, req[0], req[1], en), Grant1(t.last, req[0], req[1], en)]
    ensures forall en :: Step(t, req, en) == Node(NewLast(t.last, req[0], req[1], en), Leaf, Leaf)
  {
  }

  /** The widest configuration: two four-input trees under one node. */
  class RRWCArbiter {
    const low: FourInputArbiter
    const high: FourInputArbiter
    const second: TwoInputArbiter

    ghost predicate Valid()
    {
      low.Valid() && high.Valid() && low.Repr !! high.Repr !! {second as object}
    }

    constructor ()
      ensures Valid() && State() == Reset(3)
      ensures fresh(low.Repr) && fresh(high.Repr) && fresh(second)
    {
      low := new FourInputArbiter();
      high := new FourInputArbiter();
      second := new TwoInputArbiter();
      new;
      assert Reset(3) == Node(true, Reset(2), Reset(2));
    }

    ghost function State(): (t: Tree)
      reads low.Repr, high.Repr, second
      ensures Width(t) == 8 && Complete(t, 3)
    {
      second.Tree(low.State(), high.State())
    }

    method Clock(req: seq<bool>) returns (grant: seq<bool>)
      requires Valid() && |req| == 8
      modifies low.Repr, high.Repr, second
      ensures grant == Grants(old(State()), req, true)
      ensures State() == Step(old(State()), req, true)
    {
      ghost var t := State();
      assert Low(t, req) == req[..4] && High(t, req) == req[4..];
      var up0, up1 := low.ArbReq(req[..4]), high.ArbReq(req[4..]);
      var down0, down1 := second.Grant(up0, up1, true);
      second.Clock(up0, up1, true);
      var g0 := low.Clock(req[..4], down0);
      var g1 := high.Clock(req[4..], down1);
      grant := g0 + g1;
    }
  }
}
