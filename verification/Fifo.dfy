/** Options and the sequence operations every queue of the design is described with. */
module Streams {

  datatype Option<+T> = None | Some(value: T)

  function Opt<T>(x: Option<T>): seq<T> { if x.Some? then [x.value] else [] }

  /** The elements of `s` that satisfy `keep`, in order. */
  function Filter<T>(s: seq<T>, keep: T -> bool): (r: seq<T>) {
    if s == [] then [] else (if keep(s[0]) then [s[0]] else []) + Filter(s[1..], keep)
  }

  /** `f` applied to every element. */
  function Map<T, U>(s: seq<T>, f: T -> U): (r: seq<U>) {
    seq(|s|, i requires 0 <= i < |s| => f(s[i]))
  }

  lemma {:induction false} FilterAppend<T>(a: seq<T>, b: seq<T>, keep: T -> bool)
    ensures Filter(a + b, keep) == Filter(a, keep) + Filter(b, keep)
  {
    if a == [] {
      assert a + b == b;
    } else {
      var c, head := a + b, if keep(a[0]) then [a[0]] else [];
      assert c[0] == a[0] && c[1..] == a[1..] + b;
      assert Filter(c, keep) == head + Filter(a[1..] + b, keep) by { assert Filter(c, keep) == head + Filter(c[1..], keep); }
      assert Filter(a, keep) == head + Filter(a[1..], keep);
      FilterAppend(a[1..], b, keep);
    }
  }

  lemma FilterPush<T>(a: seq<T>, x: T, keep: T -> bool)
    ensures Filter(a + [x], keep) == if keep(x) then Filter(a, keep) + [x] else Filter(a, keep)
  {
    FilterAppend(a, [x], keep);
    assert [x][1..] == [];
  }

  lemma FilterOne<T>(s: seq<T>, keep: T -> bool)
    requires |s| <= 1
    ensures Filter(s, keep) == if s != [] && keep(s[0]) then s else []
  {
  }

  lemma {:induction false} FilterMember<T>(s: seq<T>, x: T, keep: T -> bool)
    ensures x in Filter(s, keep) <==> x in s && keep(x)
  {
    if s != [] {
      FilterMember(s[1..], x, keep);
      assert s == [s[0]] + s[1..];
    }
  }

  lemma {:induction false} FilterLength<T>(s: seq<T>, keep: T -> bool)
    ensures |Filter(s, keep)| <= |s|
  {
    if s != [] {
      FilterLength(s[1..], keep);
    }
  }

  /** Selecting from a prefix gives a prefix of the selection. */
  lemma FilterPrefix<T>(x: seq<T>, y: seq<T>, keep: T -> bool)
    requires x <= y
    ensures Filter(x, keep) <= Filter(y, keep)
  {
  }

  /** Two selections that agree on every element of `s` select the same subsequence. */
  lemma {:induction false} FilterAgree<T>(s: seq<T>, f: T -> bool, g: T -> bool)
    requires forall x :: x in s ==> f(x) == g(x)
    ensures Filter(s, f) == Filter(s, g)
  {
    if s != [] {
      assert s[0] in s;
      FilterAgree(s[1..], f, g);
    }
  }

  /** Selecting after mapping is mapping after selecting, when the tests agree on `s`. */
  lemma {:induction false} FilterMap<T, U>(s: seq<T>, f: T -> U, keep: U -> bool, pre: T -> bool)
    requires forall x :: x in s ==> keep(f(x)) == pre(x)
    ensures Filter(Map(s, f), keep) == Map(Filter(s, pre), f)
  {
    if s != [] {
      assert Map(s, f) == [f(s[0])] + Map(s[1..], f);
      FilterMap(s[1..], f, keep, pre);
    }
  }

  /** Selecting twice is selecting by the conjunction, whatever way it is written. */
  lemma {:induction false} FilterTwice<T>(s: seq<T>, f: T -> bool, g: T -> bool, both: T -> bool)
    requires forall x :: x in s ==> both(x) == (f(x) && g(x))
    ensures Filter(Filter(s, f), g) == Filter(s, both)
  {
    if s != [] {
      assert s[0] in s;
      FilterTwice(s[1..], f, g, both);
      var head := if f(s[0]) then [s[0]] else [];
      assert Filter(s, f) == head + Filter(s[1..], f);
      FilterAppend(head, Filter(s[1..], f), g);
      assert head != [] ==> head[1..] == [];
    }
  }

  lemma Regroup<T>(a: seq<T>, b: seq<T>, c: seq<T>, d: seq<T>)
    ensures a + (b + c) + d == (a + b) + (c + d) == a + ((b + c) + d) == ((a + b) + c) + d
  {
  }

  lemma MapAt<T, U>(s: seq<T>, f: T -> U, k: nat)
    ensures k < |s| ==> Map(s, f)[k] == f(s[k])
  {
  }

  lemma MapPush<T, U>(s: seq<T>, x: T, f: T -> U)
    ensures Map(s + [x], f) == Map(s, f) + [f(x)]
  {
  }

  lemma MapAppend<T, U>(a: seq<T>, b: seq<T>, f: T -> U)
    ensures Map(a + b, f) == Map(a, f) + Map(b, f)
  {
  }
}

/** SoftFIFO: a ring buffer with a counter, and the bounded queue it implements. */
module Fifo {
  import opened Streams

  /** One clock edge of a queue of capacity `depth`. Room and emptiness are judged on the
      contents before the edge, so a full queue refuses even while it is being read. */
  function Next<T>(q: seq<T>, depth: nat, wr: Option<T>, rd: bool): (q': seq<T>)
    ensures |q| <= depth ==> |q'| <= depth
  {
    (if rd && q != [] then q[1..] else q) + (if wr.Some? && |q| < depth then [wr.value] else [])
  }

  /** What the edge takes in and what it hands out. */
  function Taken<T>(q: seq<T>, depth: nat, wr: Option<T>): (r: seq<T>) {
    if wr.Some? && |q| < depth then [wr.value] else []
  }

  function Given<T>(q: seq<T>, rd: bool): (r: seq<T>) {
    if rd && q != [] then [q[0]] else []
  }

  /** Conservation across one edge: everything ever taken is everything ever given, in order,
      followed by the contents. */
  lemma Flow<T>(q: seq<T>, depth: nat, wr: Option<T>, rd: bool, ins: seq<T>, outs: seq<T>)
    requires ins == outs + q
    ensures ins + Taken(q, depth, wr) == (outs + Given(q, rd)) + Next(q, depth, wr, rd)
  {
  }

  /** The same when what leaves is recorded through `f`. */
  lemma FlowThrough<T, U>(q: seq<T>, depth: nat, wr: Option<T>, rd: bool, ins: seq<T>, outs: seq<U>, f: T -> U)
    requires Map(ins, f) == outs + Map(q, f)
    ensures Map(ins + Taken(q, depth, wr), f) == (outs + Map(Given(q, rd), f)) + Map(Next(q, depth, wr, rd), f)
  {
    hide Map;
    var given, taken := Given(q, rd), Taken(q, depth, wr);
    var kept := if rd && q != [] then q[1..] else q;
    assert q == given + kept && Next(q, depth, wr, rd) == kept + taken;
    MapAppend(ins, taken, f);
    MapAppend(given, kept, f);
    MapAppend(kept, taken, f);
    Regroup(outs, Map(given, f), Map(kept, f), Map(taken, f));
  }

  /** A queue that holds what a stream still has to deliver. */
  lemma Slide<T>(stream: seq<T>, n: nat, q: seq<T>, depth: nat, wr: Option<T>, rd: bool)
    requires n <= |stream| && q == stream[n..] && (wr.Some? ==> |q| < depth)
    ensures var n' := if rd && q != [] then n + 1 else n;
            n' <= |stream + Opt(wr)| && Next(q, depth, wr, rd) == (stream + Opt(wr))[n'..]
  {
  }

  /** What a producer and a consumer do to a queue in one cycle. */
  datatype Cycle<T> = Cycle(wr: Option<T>, rd: bool)

  function Contents<T>(depth: nat, cycles: seq<Cycle<T>>): (q: seq<T>)
    ensures |q| <= depth
  {
    if cycles == [] then []
    else
      var last := cycles[|cycles| - 1];
      Next(Contents(depth, cycles[..|cycles| - 1]), depth, last.wr, last.rd)
  }

  function AllTaken<T>(depth: nat, cycles: seq<Cycle<T>>): (r: seq<T>) {
    if cycles == [] then []
    else
      var before := cycles[..|cycles| - 1];
      AllTaken(depth, before) + Taken(Contents(depth, before), depth, cycles[|cycles| - 1].wr)
  }

  function AllGiven<T>(depth: nat, cycles: seq<Cycle<T>>): (r: seq<T>) {
    if cycles == [] then []
    else
      var before := cycles[..|cycles| - 1];
      AllGiven(depth, before) + Given(Contents(depth, before), cycles[|cycles| - 1].rd)
  }

  /** First in, first out, over every pattern of simultaneous writes and reads. */
  lemma {:induction false} FirstInFirstOut<T>(depth: nat, cycles: seq<Cycle<T>>)
    ensures AllTaken(depth, cycles) == AllGiven(depth, cycles) + Contents(depth, cycles)
  {
    if cycles != [] {
      var before, last := cycles[..|cycles| - 1], cycles[|cycles| - 1];
      FirstInFirstOut(depth, before);
      Flow(Contents(depth, before), depth, last.wr, last.rd, AllTaken(depth, before), AllGiven(depth, before));
    }
  }

  /** A queue is as deep as it says: what is written is taken exactly while fewer are inside than it
      holds, and what is read is given exactly while any are. */
  lemma TakesAndGives<T>(depth: nat, cycles: seq<Cycle<T>>, last: Cycle<T>)
    ensures var ins, outs := AllTaken(depth, cycles), AllGiven(depth, cycles);
            && |outs| <= |ins|
            && AllTaken(depth, cycles + [last]) == ins + (if last.wr.Some? && |ins| - |outs| < depth then [last.wr.value] else [])
            && AllGiven(depth, cycles + [last]) == outs + (if last.rd && |outs| < |ins| then [ins[|outs|]] else [])
  {
    FirstInFirstOut(depth, cycles);
    assert (cycles + [last])[..|cycles + [last]| - 1] == cycles;
  }

  function Pow2(n: nat): (r: nat)
    ensures r >= 1
  {
    if n == 0 then 1 else 2 * Pow2(n - 1)
  }

  /** A pointer of the ring, advanced by `i` places. */
  function Wrap(base: nat, i: nat, size: nat): (r: nat)
    requires base < size && i <= size
    ensures r < size
  {
    if base + i < size then base + i else base + i - size
  }

  /** The contents of a ring: `count` elements from place `base` on. */
  function Ring<T>(ring: seq<T>, base: nat, count: nat): (q: seq<T>)
    requires base < |ring| && count <= |ring|
    ensures |q| == count
  {
    seq(count, i requires 0 <= i < count => ring[Wrap(base, i, |ring|)])
  }

  lemma RingWrite<T>(ring: seq<T>, base: nat, count: nat, x: T)
    requires base < |ring| && count < |ring|
    ensures Ring(ring[Wrap(base, count, |ring|) := x], base, count + 1) == Ring(ring, base, count) + [x]
  {
  }

  lemma RingRead<T>(ring: seq<T>, base: nat, count: nat)
    requires base < |ring| && 0 < count <= |ring|
    ensures Ring(ring, Wrap(base, 1, |ring|), count - 1) == Ring(ring, base, count)[1..]
  {
  }

  class SoftFIFO<T(0)> {
    const size: nat
    const buffer: array<T>
    var counter: nat
    var rdPtr: nat
    var wrPtr: nat

    /** The pointers stay one counter apart on the ring. */
    ghost predicate Valid()
      reads this
    {
      && buffer.Length == size > 0
      && counter <= size
      && rdPtr < size
      && wrPtr == Wrap(rdPtr, counter, size)
    }

    /** Oldest element first. */
    ghost function Queue(): (q: seq<T>)
      reads this, buffer
      requires Valid()
    {
      Ring(buffer[..], rdPtr, counter)
    }

    constructor (logDepth: nat)
      ensures Valid() && fresh(buffer)
      ensures size == Pow2(logDepth) && Queue() == []
    {
      size := Pow2(logDepth);
      buffer := new T[Pow2(logDepth)];
      counter, rdPtr, wrPtr := 0, 0, 0;
    }

    method Outputs() returns (full: bool, empty: bool, q: T)
      requires Valid()
      ensures full == (|Queue()| == size)
      ensures empty == (Queue() == [])
      ensures !empty ==> q == Queue()[0]
    {
      empty := counter == 0;
      full := counter == size;
      q := buffer[rdPtr];
    }

    method Clock(wrreq: bool, data: T, rdreq: bool)
      requires Valid()
      modifies this, buffer
      ensures Valid()
      ensures Queue() == Next(old(Queue()), size, if wrreq then Some(data) else None, rdreq)
    {
      hide Ring;
      var full := counter == size;
      var empty := counter == 0;
      ghost var ring := buffer[..];
      if !full && wrreq {
        RingWrite(ring, rdPtr, counter, data);
        buffer[wrPtr] := data;
        assert buffer[..] == ring[wrPtr := data];
      }
      if !empty && rdreq {
        RingRead(ring, rdPtr, counter);
        RingRead(buffer[..], rdPtr, if !full && wrreq then counter + 1 else counter);
      }
      if !full && wrreq && !empty && rdreq {
        rdPtr := if rdPtr + 1 == size then 0 else rdPtr + 1;
        wrPtr := if wrPtr + 1 == size then 0 else wrPtr + 1;
      } else if !full && wrreq {
        counter := counter + 1;
        wrPtr := if wrPtr + 1 == size then 0 else wrPtr + 1;
      } else if !empty && rdreq {
        counter := counter - 1;
        rdPtr := if rdPtr + 1 == size then 0 else rdPtr + 1;
      }
    }
  }
}
