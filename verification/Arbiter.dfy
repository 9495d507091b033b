/** Round-robin arbitration: a complete binary tree of two-input nodes, requests travelling up
    and the grant travelling down within one cycle. */
module Arbiter {
  import opened Streams
  import Fifo

  /** `last` is the side a node served last; a leaf is a requester's wire. */
  datatype Tree = Leaf | Node(last: bool, zero: Tree, one: Tree)

  ghost predicate Complete(t: Tree, depth: nat) {
    match t
    case Leaf => depth == 0
    case Node(_, zero, one) => depth > 0 && Complete(zero, depth - 1) && Complete(one, depth - 1)
  }

  /** The number of requesters. */
  function Width(t: Tree): (w: nat)
    ensures w >= 1
  {
    match t
    case Leaf => 1
    case Node(_, zero, one) => Width(zero) + Width(one)
  }

  /** After reset every node has served side 1 last. */
  function Reset(depth: nat): (t: Tree)
    ensures Complete(t, depth) && Width(t) == Fifo.Pow2(depth)
  {
    if depth == 0 then Leaf else Node(true, Reset(depth - 1), Reset(depth - 1))
  }

  lemma {:induction false} CompleteWidth(t: Tree, depth: nat)
    requires Complete(t, depth)
    ensures Width(t) == Fifo.Pow2(depth)
  {
    if depth > 0 {
      CompleteWidth(t.zero, depth - 1);
      CompleteWidth(t.one, depth - 1);
    }
  }

  // One two-input node: who is granted, and what it remembers.

  function Grant0(last: bool, req0: bool, req1: bool, en: bool): bool {
    req0 && (last || !req1) && en
  }

  function Grant1(last: bool, req0: bool, req1: bool, en: bool): bool {
    !(req0 && (last || !req1)) && req1 && (!last || !req0) && en
  }

  function NewLast(last: bool, req0: bool, req1: bool, en: bool): bool {
    if req0 && (last || !req1) then (if en then false else last)
    else if req1 && (!last || !req0) then (if en then true else last)
    else last
  }

  // The tree.

  /** The request wires of each half. */
  function Low(t: Tree, req: seq<bool>): (r: seq<bool>)
    requires t.Node? && |req| == Width(t)
    ensures |r| == Width(t.zero)
  {
    req[..Width(t.zero)]
  }

  function High(t: Tree, req: seq<bool>): (r: seq<bool>)
    requires t.Node? && |req| == Width(t)
    ensures |r| == Width(t.one)
  {
    req[Width(t.zero)..]
  }

  function AnyReq(t: Tree, req: seq<bool>): (r: bool)
    requires |req| == Width(t)
  {
    match t
    case Leaf => req[0]
    case Node(_, zero, one) => AnyReq(zero, Low(t, req)) || AnyReq(one, High(t, req))
  }

  /** The grant each half of a node receives. */
  function Enable0(t: Tree, req: seq<bool>, en: bool): bool
    requires t.Node? && |req| == Width(t)
  {
    Grant0(t.last, AnyReq(t.zero, Low(t, req)), AnyReq(t.one, High(t, req)), en)
  }

  function Enable1(t: Tree, req: seq<bool>, en: bool): bool
    requires t.Node? && |req| == Width(t)
  {
    Grant1(t.last, AnyReq(t.zero, Low(t, req)), AnyReq(t.one, High(t, req)), en)
  }

  function Grants(t: Tree, req: seq<bool>, en: bool): (g: seq<bool>)
    requires |req| == Width(t)
    ensures |g| == |req|
  {
    match t
    case Leaf => [req[0] && en]
    case Node(_, zero, one) =>
      Grants(zero, Low(t, req), Enable0(t, req, en)) + Grants(one, High(t, req), Enable1(t, req, en))
  }

  function Step(t: Tree, req: seq<bool>, en: bool): (t': Tree)
    requires |req| == Width(t)
    ensures Width(t') == Width(t)
  {
    match t
    case Leaf => Leaf
    case Node(last, zero, one) =>
      Node(NewLast(last, AnyReq(zero, Low(t, req)), AnyReq(one, High(t, req)), en),
           Step(zero, Low(t, req), Enable0(t, req, en)),
           Step(one, High(t, req), Enable1(t, req, en)))
  }

  lemma {:induction false} AnyReqIsOr(t: Tree, req: seq<bool>)
    requires |req| == Width(t)
    ensures AnyReq(t, req) <==> true in req
  {
    if t.Node? {
      AnyReqIsOr(t.zero, Low(t, req));
      AnyReqIsOr(t.one, High(t, req));
      assert req == Low(t, req) + High(t, req);
    }
  }

  lemma {:induction false} StepComplete(t: Tree, req: seq<bool>, en: bool, depth: nat)
    requires |req| == Width(t) && Complete(t, depth)
    ensures Complete(Step(t, req, en), depth)
  {
    if t.Node? {
      StepComplete(t.zero, Low(t, req), Enable0(t, req, en), depth - 1);
      StepComplete(t.one, High(t, req), Enable1(t, req, en), depth - 1);
    }
  }

  /** Without an enable nothing is granted and nothing is remembered. */
  lemma {:induction false} Disabled(t: Tree, req: seq<bool>)
    requires |req| == Width(t)
    ensures forall i :: 0 <= i < |req| ==> !Grants(t, req, false)[i]
    ensures Step(t, req, false) == t
  {
    if t.Node? {
      Disabled(t.zero, Low(t, req));
      Disabled(t.one, High(t, req));
    }
  }

  /** Nor is anything remembered when nobody asks. */
  lemma {:induction false} NobodyAsks(t: Tree, req: seq<bool>)
    requires |req| == Width(t) && true !in req
    ensures Step(t, req, true) == t
  {
    AnyReqIsOr(t, req);
    if t.Node? {
      Disabled(t.zero, Low(t, req));
      Disabled(t.one, High(t, req));
    }
  }

  /** Only a requester of an enabled tree is granted. */
  lemma {:induction false} OnlyRequesters(t: Tree, req: seq<bool>, en: bool, i: nat)
    requires |req| == Width(t) && i < |req| && Grants(t, req, en)[i]
    ensures req[i] && en
  {
    if t.Node? {
      var w := Width(t.zero);
      if i < w {
        OnlyRequesters(t.zero, Low(t, req), Enable0(t, req, en), i);
      } else {
        OnlyRequesters(t.one, High(t, req), Enable1(t, req, en), i - w);
      }
    }
  }

  lemma {:induction false} AtMostOneGrant(t: Tree, req: seq<bool>, en: bool, i: nat, j: nat)
    requires |req| == Width(t) && i <= j < |req|
    requires Grants(t, req, en)[i] && Grants(t, req, en)[j]
    ensures i == j
  {
    if t.Node? {
      var w := Width(t.zero);
      var en0, en1 := Enable0(t, req, en), Enable1(t, req, en);
      if j < w {
        AtMostOneGrant(t.zero, Low(t, req), en0, i, j);
      } else if i >= w {
        AtMostOneGrant(t.one, High(t, req), en1, i - w, j - w);
      } else {
        OnlyRequesters(t.zero, Low(t, req), en0, i);
        OnlyRequesters(t.one, High(t, req), en1, j - w);
      }
    }
  }

  /** An enabled tree with a request does grant somebody. */
  lemma {:induction false} SomeGrant(t: Tree, req: seq<bool>) returns (i: nat)
    requires |req| == Width(t) && AnyReq(t, req)
    ensures i < |req| && Grants(t, req, true)[i]
  {
    if t.Leaf? {
      i := 0;
    } else if Enable0(t, req, true) {
      i := SomeGrant(t.zero, Low(t, req));
    } else {
      i := SomeGrant(t.one, High(t, req));
      i := i + Width(t.zero);
    }
  }

  /** Exactly one requester is granted when anyone asks of an enabled tree; only requesters are. */
  lemma OneGrant(t: Tree, req: seq<bool>, en: bool)
    requires |req| == Width(t)
    ensures true in Grants(t, req, en) <==> en && true in req
    ensures forall i :: 0 <= i < |req| && Grants(t, req, en)[i] ==> req[i]
    ensures forall i, j :: 0 <= i <= j < |req| && Grants(t, req, en)[i] && Grants(t, req, en)[j] ==> i == j
  {
    var g := Grants(t, req, en);
    forall i | 0 <= i < |req| && g[i] ensures req[i] && en { OnlyRequesters(t, req, en, i); }
    forall i, j | 0 <= i <= j < |req| && g[i] && g[j] ensures i == j {
      AtMostOneGrant(t, req, en, i, j);
    }
    AnyReqIsOr(t, req);
    if en && true in req {
      var i := SomeGrant(t, req);
      assert g[i];
    }
  }

  /** The encoder behind every arbiter: the highest line that is set. */
  function Encode(g: seq<bool>): (r: Option<nat>)
    ensures r.Some? ==> r.value < |g| && g[r.value]
    ensures r.None? <==> true !in g
  {
    if g == [] then None
    else if g[|g| - 1] then Some(|g| - 1)
    else
      assert g == g[..|g| - 1] + [false];
      Encode(g[..|g| - 1])
  }

  /** The requester an enabled tree serves this cycle. */
  function Pick(t: Tree, req: seq<bool>): (r: Option<nat>)
    requires |req| == Width(t)
    ensures r.Some? <==> true in req
    ensures r.Some? ==> r.value < |req| && req[r.value]
    ensures forall i :: 0 <= i < |req| ==> (Grants(t, req, true)[i] <==> r == Some(i))
  {
    OneGrant(t, req, true);
    Encode(Grants(t, req, true))
  }

  // Bounded wait.

  /** How many grants can still pass requester `i` by. */
  function Rank(t: Tree, i: nat): (r: nat)
    requires i < Width(t)
  {
    match t
    case Leaf => 0
    case Node(last, zero, one) =>
      if i < Width(zero) then
        2 * Rank(zero, i) + (if last then 0 else 1)
      else
        2 * Rank(one, i - Width(zero)) + (if last then 1 else 0)
  }

  lemma {:induction false} AskingIsAny(t: Tree, req: seq<bool>, i: nat)
    requires |req| == Width(t) && i < |req| && req[i]
    ensures AnyReq(t, req)
  {
    if t.Node? {
      if i < Width(t.zero) {
        AskingIsAny(t.zero, Low(t, req), i);
      } else {
        AskingIsAny(t.one, High(t, req), i - Width(t.zero));
      }
    }
  }

  /** A request that is passed over moves up. */
  lemma {:induction false} PassedOver(t: Tree, req: seq<bool>, i: nat)
    requires |req| == Width(t) && i < |req| && req[i]
    requires !Grants(t, req, true)[i]
    ensures Rank(Step(t, req, true), i) < Rank(t, i)
  {
    if t.Node? {
      var w := Width(t.zero);
      if i < w {
        AskingIsAny(t.zero, Low(t, req), i);
        if Enable0(t, req, true) { PassedOver(t.zero, Low(t, req), i); } else { Disabled(t.zero, Low(t, req)); }
      } else {
        AskingIsAny(t.one, High(t, req), i - w);
        if Enable1(t, req, true) { PassedOver(t.one, High(t, req), i - w); } else { Disabled(t.one, High(t, req)); }
      }
    }
  }

  /** When everybody asks, requester `i` is served at rank zero and otherwise moves up by one. */
  lemma {:induction false} TakingTurns(t: Tree, req: seq<bool>, i: nat)
    requires |req| == Width(t) && i < |req|
    requires forall j :: 0 <= j < |req| ==> req[j]
    ensures Grants(t, req, true)[i] <==> Rank(t, i) == 0
    ensures Rank(t, i) > 0 ==> Rank(Step(t, req, true), i) == Rank(t, i) - 1
  {
    if t.Node? {
      BothAsk(t, req);
      if i < Width(t.zero) { LowTurn(t, req, i); } else { HighTurn(t, req, i); }
      hide Grants, Step, AnyReq, Enable0, Enable1;
      if i < Width(t.zero) {
        if t.last { TakingTurns(t.zero, Low(t, req), i); } else { Disabled(t.zero, Low(t, req)); }
      } else {
        if t.last { Disabled(t.one, High(t, req)); } else { TakingTurns(t.one, High(t, req), i - Width(t.zero)); }
      }
    }
  }

  /** A requester's grant and rank are those of its half, when the node serves that half. */
  lemma LowTurn(t: Tree, req: seq<bool>, i: nat)
    requires t.Node? && |req| == Width(t) && i < Width(t.zero)
    requires Enable0(t, req, true) == t.last && Step(t, req, true).last == !t.last
    ensures Grants(t, req, true)[i] == Grants(t.zero, Low(t, req), t.last)[i]
    ensures Rank(Step(t, req, true), i) == 2 * Rank(Step(t.zero, Low(t, req), t.last), i) + (if t.last then 1 else 0)
  {
  }

  lemma HighTurn(t: Tree, req: seq<bool>, i: nat)
    requires t.Node? && |req| == Width(t) && Width(t.zero) <= i < |req|
    requires Enable1(t, req, true) == !t.last && Step(t, req, true).last == !t.last
    ensures Grants(t, req, true)[i] == Grants(t.one, High(t, req), !t.last)[i - Width(t.zero)]
    ensures Rank(Step(t, req, true), i) == 2 * Rank(Step(t.one, High(t, req), !t.last), i - Width(t.zero)) + (if t.last then 0 else 1)
  {
    hide AnyReq, Enable0, Enable1;
  }

  lemma BothAsk(t: Tree, req: seq<bool>)
    requires t.Node? && |req| == Width(t) && forall j :: 0 <= j < |req| ==> req[j]
    ensures AnyReq(t.zero, Low(t, req)) && AnyReq(t.one, High(t, req))
    ensures Enable0(t, req, true) == t.last && Enable1(t, req, true) == !t.last
    ensures Step(t, req, true).last == !t.last
  {
    AskingIsAny(t.zero, Low(t, req), 0);
    AskingIsAny(t.one, High(t, req), 0);
  }

  /** The tree after a run of request vectors. */
  function Run(t: Tree, reqs: seq<seq<bool>>): (t': Tree)
    requires forall k :: 0 <= k < |reqs| ==> |reqs[k]| == Width(t)
    ensures Width(t') == Width(t)
    decreases |reqs|
  {
    if reqs == [] then t else Run(Step(t, reqs[0], true), reqs[1..])
  }

  /** A request held up is granted within as many cycles as its rank plus one, whatever the
      others do. */
  lemma {:induction false} BoundedWait(t: Tree, reqs: seq<seq<bool>>, i: nat) returns (k: nat)
    requires i < Width(t)
    requires forall n :: 0 <= n < |reqs| ==> |reqs[n]| == Width(t) && reqs[n][i]
    requires |reqs| > Rank(t, i)
    ensures k <= Rank(t, i)
    ensures Grants(Run(t, reqs[..k]), reqs[k], true)[i]
    decreases Rank(t, i)
  {
    if Grants(t, reqs[0], true)[i] {
      k := 0;
    } else {
      PassedOver(t, reqs[0], i);
      var rest := BoundedWait(Step(t, reqs[0], true), reqs[1..], i);
      k := rest + 1;
      assert reqs[..k][1..] == reqs[1..][..rest];
    }
  }

  lemma {:induction false} CompleteRank(t: Tree, i: nat, depth: nat)
    requires Complete(t, depth) && i < Width(t)
    ensures Rank(t, i) < Fifo.Pow2(depth)
  {
    CompleteWidth(t, depth);
    if depth > 0 {
      CompleteWidth(t.zero, depth - 1);
      if i < Width(t.zero) {
        CompleteRank(t.zero, i, depth - 1);
      } else {
        CompleteRank(t.one, i - Width(t.zero), depth - 1);
      }
    }
  }

  /** A complete tree of depth d serves a held request within 2^d cycles, from any state. */
  lemma NoStarvation(t: Tree, depth: nat, reqs: seq<seq<bool>>, i: nat) returns (k: nat)
    requires Complete(t, depth) && i < Width(t)
    requires |reqs| == Fifo.Pow2(depth)
    requires forall n :: 0 <= n < |reqs| ==> |reqs[n]| == Width(t) && reqs[n][i]
    ensures k < Fifo.Pow2(depth)
    ensures Grants(Run(t, reqs[..k]), reqs[k], true)[i]
  {
    CompleteRank(t, i, depth);
    k := BoundedWait(t, reqs, i);
  }

  lemma {:induction false} LastRank(depth: nat)
    ensures Rank(Reset(depth), Fifo.Pow2(depth) - 1) == Fifo.Pow2(depth) - 1
  {
    if depth > 0 {
      var half := Fifo.Pow2(depth - 1);
      LastRank(depth - 1);
      assert Rank(Reset(depth), half + (half - 1)) == 2 * Rank(Reset(depth - 1), half - 1) + 1;
    }
  }

  /** The bound is met: after reset, with everybody asking, the last requester is passed over in
      each of the first 2^d - 1 cycles. */
  lemma {:induction false} BoundIsTight(depth: nat, all: seq<bool>, k: nat)
    requires |all| == Width(Reset(depth)) == Fifo.Pow2(depth)
    requires forall j :: 0 <= j < |all| ==> all[j]
    requires k < Fifo.Pow2(depth)
    ensures Grants(Run(Reset(depth), seq(k, _ => all)), all, true)[|all| - 1] <==> k == |all| - 1
  {
    LastRank(depth);
    RankAfter(Reset(depth), all, |all| - 1, k);
    TakingTurns(Run(Reset(depth), seq(k, _ => all)), all, |all| - 1);
  }

  lemma {:induction false} RankAfter(t: Tree, all: seq<bool>, i: nat, k: nat)
    requires |all| == Width(t) && i < |all|
    requires forall j :: 0 <= j < |all| ==> all[j]
    requires k <= Rank(t, i)
    ensures Rank(Run(t, seq(k, _ => all)), i) == Rank(t, i) - k
    decreases k
  {
    if k > 0 {
      TakingTurns(t, all, i);
      RankAfter(Step(t, all, true), all, i, k - 1);
      assert seq(k, _ => all)[1..] == seq(k - 1, _ => all);
    }
  }
}
