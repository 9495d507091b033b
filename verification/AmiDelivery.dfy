/** In-order, exactly-once delivery, and freedom from blocking between applications. */
module AmiDelivery {
  import opened Streams
  import opened AmiTypes
  import opened Ami
  import opened AmiFlow
  import Fifo

  function HistOf(cfg: Config, cells: nat -> (nat -> Word), ins: seq<Input>): Hist {
    if ins == [] then NoHist()
    else
      var before := ins[..|ins| - 1];
      NextHist(cfg, Run(cfg, cells, before), ins[|ins| - 1], HistOf(cfg, cells, before))
  }

  lemma {:induction false} Reachable(cfg: Config, cells: nat -> (nat -> Word), ins: seq<Input>)
    ensures Inv(cfg, cells, Run(cfg, cells, ins), HistOf(cfg, cells, ins))
  {
    if ins == [] {
      InvInit(cfg, cells);
    } else {
      var before := ins[..|ins| - 1];
      Reachable(cfg, cells, before);
      InvStep(cfg, cells, Run(cfg, cells, before), ins[|ins| - 1], HistOf(cfg, cells, before));
    }
  }

  lemma {:induction false} HistIsObserved(cfg: Config, cells: nat -> (nat -> Word), ins: seq<Input>, a: nat, p: nat)
    ensures HistOf(cfg, cells, ins).acc(a, p) == AllAccepted(cfg, cells, ins, a, p)
    ensures HistOf(cfg, cells, ins).del(a, p) == AllDelivered(cfg, cells, ins, a, p)
  {
    if ins != [] {
      HistIsObserved(cfg, cells, ins[..|ins| - 1], a, p);
    }
  }

  // Sequences that agree key by key.

  function OnKey<T>(key: T -> nat, k: nat): T -> bool { (x: T) => key(x) == k }

  lemma {:induction false} SameCount<T, U>(x: seq<T>, y: seq<U>, key: T -> nat, kez: U -> nat, k: nat)
    requires |x| == |y| && forall i :: 0 <= i < |x| ==> key(x[i]) == kez(y[i])
    ensures |Filter(x, OnKey(key, k))| == |Filter(y, OnKey(kez, k))|
  {
    if x != [] {
      SameCount(x[1..], y[1..], key, kez, k);
    }
  }

  /** Streams interleaved in the same key order, equal key by key, are equal. */
  lemma {:induction false} SameByKey<T>(x: seq<T>, y: seq<T>, key: T -> nat)
    requires |x| == |y| && forall i :: 0 <= i < |x| ==> key(x[i]) == key(y[i])
    requires forall k: nat :: Filter(x, OnKey(key, k)) == Filter(y, OnKey(key, k))
    ensures x == y
  {
    if x != [] {
      var k0 := key(x[0]);
      assert Filter(x, OnKey(key, k0))[0] == x[0] && Filter(y, OnKey(key, k0))[0] == y[0];
      forall k: nat ensures Filter(x[1..], OnKey(key, k)) == Filter(y[1..], OnKey(key, k)) {
        var fx, fy := Filter(x[1..], OnKey(key, k)), Filter(y[1..], OnKey(key, k));
        assert Filter(x, OnKey(key, k)) == (if key(x[0]) == k then [x[0]] else []) + fx;
        assert Filter(y, OnKey(key, k)) == (if key(x[0]) == k then [y[0]] else []) + fy;
        if key(x[0]) == k {
          assert fx == Filter(x, OnKey(key, k))[1..] && fy == Filter(y, OnKey(key, k))[1..];
        } else {
          assert fx == Filter(x, OnKey(key, k)) && fy == Filter(y, OnKey(key, k));
        }
      }
      SameByKey(x[1..], y[1..], key);
    }
  }

  // A port's reads on one channel.

  function TagChannel(): Tag -> nat { (t: Tag) => t.channel }
  function RespChannel(): Resp -> nat { (r: Resp) => r.channel }
  function TagFor(a: nat, p: nat): Tag -> bool { (t: Tag) => t.srcApp == a && t.srcPort == p }
  function ReadFrom(p: nat): ChanReq -> bool { (r: ChanReq) => !r.isWrite && r.srcPort == p }
  function ReadOf(a: nat, p: nat): ChanReq -> bool { (r: ChanReq) => !r.isWrite && r.srcApp == a && r.srcPort == p }
  function ReadOn(cfg: Config, c: nat): Request -> bool { (r: Request) => !r.isWrite && ChannelOf(cfg, r.addr) == c }

  function OnChannelTags(tags: seq<Tag>, c: nat): seq<Tag> { Filter(tags, OnKey(TagChannel(), c)) }

  /** The tags still travelling, oldest first: waiting at the port, then at the arbiter, then in
      the merger. */
  function InFlight(s: State, a: nat, p: nat, c: nat): seq<Tag> {
    Map(s.rm(a, p).chanQ(c), RespTag()) + Filter(s.ca(c).tagQ, TagFor(a, p)) + Map(Filter(s.mg(a, c).reqQ, ReadFrom(p)), TagOf())
  }

  lemma LaneTags(cfg: Config, s: State, h: Hist, a: nat, p: nat, c: nat)
    requires MergeFlow(cfg, s, h, a, c) && LaneFlow(cfg, h, a, p, c)
    ensures OnChannelTags(Tags(cfg, h, a, p), c)
         == Map(Filter(h.log(c), ReadOf(a, p)), TagOf()) + Map(Filter(s.mg(a, c).reqQ, ReadFrom(p)), TagOf())
  {
    var fwd, mgin := h.fwd(a, p), h.mgin(a, c);
    var lane := Filter(fwd, OnChannel(cfg, c));
    FilterMap(Filter(fwd, Reading()), TagOfRequest(cfg, a, p), OnKey(TagChannel(), c), OnChannel(cfg, c));
    FilterTwice(fwd, Reading(), OnChannel(cfg, c), ReadOn(cfg, c));
    FilterTwice(fwd, OnChannel(cfg, c), Reading(), ReadOn(cfg, c));
    assert OnChannelTags(Tags(cfg, h, a, p), c) == Map(Filter(lane, Reading()), TagOfRequest(cfg, a, p));
    FilterMap(lane, ToChan(cfg, a, p), IsRead(), Reading());
    assert Map(Map(Filter(lane, Reading()), ToChan(cfg, a, p)), TagOf()) == Map(Filter(lane, Reading()), TagOfRequest(cfg, a, p));
    FilterTwice(mgin, FromPort(p), IsRead(), ReadFrom(p));
    FilterAppend(Filter(h.log(c), FromApp(a)), s.mg(a, c).reqQ, ReadFrom(p));
    FilterTwice(h.log(c), FromApp(a), ReadFrom(p), ReadOf(a, p));
    MapAppend(Filter(h.log(c), ReadOf(a, p)), Filter(s.mg(a, c).reqQ, ReadFrom(p)), TagOf());
  }

  lemma LoggedTags(cfg: Config, cells: nat -> (nat -> Word), s: State, h: Hist, a: nat, p: nat, c: nat)
    requires AnswerFlow(cfg, cells, s, h, c)
    ensures Map(Filter(h.log(c), ReadOf(a, p)), TagOf())
         == Map(Filter(h.rtd(c), ToUnit(a, p)), RespTag()) + Filter(s.ca(c).tagQ, TagFor(a, p))
  {
    FilterTwice(h.log(c), IsRead(), FromUnit(a, p), ReadOf(a, p));
    FilterMap(Filter(h.log(c), IsRead()), TagOf(), TagFor(a, p), FromUnit(a, p));
    FilterAppend(Map(h.rtd(c), RespTag()), s.ca(c).tagQ, TagFor(a, p));
    FilterMap(h.rtd(c), RespTag(), TagFor(a, p), ToUnit(a, p));
  }

  function FromUnit(a: nat, p: nat): ChanReq -> bool { (r: ChanReq) => r.srcApp == a && r.srcPort == p }

  lemma ChannelBalance(cfg: Config, cells: nat -> (nat -> Word), s: State, h: Hist, a: nat, p: nat, c: nat)
    requires MergeFlow(cfg, s, h, a, c) && LaneFlow(cfg, h, a, p, c)
    requires AnswerFlow(cfg, cells, s, h, c) && ReturnFlow(s, h, a, p, c)
    ensures OnChannelTags(Tags(cfg, h, a, p), c)
         == Map(Filter(h.mrg(a, p), OnKey(RespChannel(), c)), RespTag()) + InFlight(s, a, p, c)
  {
    LaneTags(cfg, s, h, a, p, c);
    LoggedTags(cfg, cells, s, h, a, p, c);
    FilterAgree(h.mrg(a, p), OnKey(RespChannel(), c), ViaChannel(c));
    MapAppend(Filter(h.mrg(a, p), ViaChannel(c)), s.rm(a, p).chanQ(c), RespTag());
    Regroup(Map(Filter(h.mrg(a, p), ViaChannel(c)), RespTag()), Map(s.rm(a, p).chanQ(c), RespTag()),
            Filter(s.ca(c).tagQ, TagFor(a, p)), Map(Filter(s.mg(a, c).reqQ, ReadFrom(p)), TagOf()));
  }

  lemma PrefixCancel<T>(a: seq<T>, b: seq<T>, x: seq<T>, y: seq<T>)
    requires a + x == b + y && |a| == |b|
    ensures a == b && x == y
  {
    assert a == (a + x)[..|a|] && b == (b + y)[..|a|];
    assert x == (a + x)[|a|..] && y == (b + y)[|a|..];
  }

  lemma SplitTags(cfg: Config, cells: nat -> (nat -> Word), s: State, h: Hist, a: nat, p: nat, c: nat)
    requires Inv(cfg, cells, s, h)
    ensures |h.mrg(a, p)| <= |Tags(cfg, h, a, p)|
    ensures OnChannelTags(Tags(cfg, h, a, p)[..|h.mrg(a, p)|], c) == Map(Filter(h.mrg(a, p), OnKey(RespChannel(), c)), RespTag())
    ensures OnChannelTags(s.rm(a, p).tagQ, c) == InFlight(s, a, p, c)
  {
    assert TagFlow(cfg, s, h, a, p);
    var tags, n := Tags(cfg, h, a, p), |h.mrg(a, p)|;
    assert tags == tags[..n] + tags[n..];
    FilterAppend(tags[..n], tags[n..], OnKey(TagChannel(), c));
    SameCount(h.mrg(a, p), tags[..n], RespChannel(), TagChannel(), c);
    assert MergeFlow(cfg, s, h, a, c) && LaneFlow(cfg, h, a, p, c);
    assert AnswerFlow(cfg, cells, s, h, c) && ReturnFlow(s, h, a, p, c);
    ChannelBalance(cfg, cells, s, h, a, p, c);
    PrefixCancel(OnChannelTags(tags[..n], c), Map(Filter(h.mrg(a, p), OnKey(RespChannel(), c)), RespTag()),
                 OnChannelTags(tags[n..], c), InFlight(s, a, p, c));
  }

  /** In every reachable state, the tags a port is waiting for on a channel are exactly its
      responses waiting in its merger, then its tags in the channel's arbiter, then its reads in
      the channel merger. */
  lemma WaitingTagsAreInFlight(cfg: Config, cells: nat -> (nat -> Word), ins: seq<Input>, a: nat, p: nat, c: nat)
    ensures var s := Run(cfg, cells, ins);
            OnChannelTags(s.rm(a, p).tagQ, c) == InFlight(s, a, p, c)
  {
    Reachable(cfg, cells, ins);
    SplitTags(cfg, cells, Run(cfg, cells, ins), HistOf(cfg, cells, ins), a, p, c);
  }

  lemma MergedTags(cfg: Config, cells: nat -> (nat -> Word), s: State, h: Hist, a: nat, p: nat)
    requires Inv(cfg, cells, s, h)
    ensures Map(h.mrg(a, p), RespTag()) <= Tags(cfg, h, a, p)
  {
    assert TagFlow(cfg, s, h, a, p);
    var tags, n := Tags(cfg, h, a, p), |h.mrg(a, p)|;
    forall c: nat
      ensures Filter(Map(h.mrg(a, p), RespTag()), OnKey(TagChannel(), c)) == Filter(tags[..n], OnKey(TagChannel(), c))
    {
      SplitTags(cfg, cells, s, h, a, p, c);
      FilterMap(h.mrg(a, p), RespTag(), OnKey(TagChannel(), c), OnKey(RespChannel(), c));
    }
    SameByKey(Map(h.mrg(a, p), RespTag()), tags[..n], TagChannel());
  }

  function ReadSizes(reqs: seq<Request>): seq<nat> {
    Map(Filter(reqs, Reading()), (r: Request) => r.size)
  }

  function SizeOf(): Response -> nat { (r: Response) => r.size }

  /** The requests of a port still in its own two queues. */
  function Queued(s: State, a: nat, p: nat): nat {
    |s.xl(a, p).reqQ| + |s.xl(a, p).xlatedQ|
  }

  /** What has been forwarded is what was accepted, translated, up to what is still queued. */
  lemma ForwardedPrefix(cfg: Config, s: State, h: Hist, a: nat, p: nat)
    requires PortFlow(cfg, s, h, a, p)
    ensures h.fwd(a, p) <= Map(h.acc(a, p), ToPhysical(cfg, a))
    ensures Queued(s, a, p) == 0 ==> h.fwd(a, p) == Map(h.acc(a, p), ToPhysical(cfg, a))
  {
  }

  /** Every response delivered answers the read with its number: reads are answered in the order
      they were accepted, none twice and none skipped, each with the size it asked for. Once the
      port's queues are empty every accepted read has been answered. */
  lemma InOrderExactlyOnce(cfg: Config, cells: nat -> (nat -> Word), ins: seq<Input>, a: nat, p: nat)
    ensures var s := Run(cfg, cells, ins);
            var acc, del := AllAccepted(cfg, cells, ins, a, p), AllDelivered(cfg, cells, ins, a, p);
            && Map(del, SizeOf()) <= ReadSizes(acc)
            && (Queued(s, a, p) == 0 ==> |del| + |s.rm(a, p).outQ| + |s.rm(a, p).tagQ| == |ReadSizes(acc)|)
  {
    var s, h := Run(cfg, cells, ins), HistOf(cfg, cells, ins);
    Reachable(cfg, cells, ins);
    HistIsObserved(cfg, cells, ins, a, p);
    MergedTags(cfg, cells, s, h, a, p);
    assert TagFlow(cfg, s, h, a, p) && PortFlow(cfg, s, h, a, p);
    ForwardedPrefix(cfg, s, h, a, p);
    AnsweredInOrder(cfg, s, h, a, p);
  }

  lemma AnsweredInOrder(cfg: Config, s: State, h: Hist, a: nat, p: nat)
    requires TagFlow(cfg, s, h, a, p) && PortFlow(cfg, s, h, a, p)
    requires Map(h.mrg(a, p), RespTag()) <= Tags(cfg, h, a, p)
    ensures Map(h.del(a, p), SizeOf()) <= ReadSizes(h.acc(a, p))
    ensures Queued(s, a, p) == 0 ==> |h.del(a, p)| + |s.rm(a, p).outQ| + |s.rm(a, p).tagQ| == |ReadSizes(h.acc(a, p))|
  {
    var acc, del, fwd, mrg := h.acc(a, p), h.del(a, p), h.fwd(a, p), h.mrg(a, p);
    var readers := Filter(acc, Reading());
    ForwardedPrefix(cfg, s, h, a, p);
    FilterPrefix(fwd, Map(acc, ToPhysical(cfg, a)), Reading());
    FilterMap(acc, ToPhysical(cfg, a), Reading(), Reading());
    assert Filter(fwd, Reading()) <= Map(readers, ToPhysical(cfg, a));
    forall k | 0 <= k < |del|
      ensures k < |readers| && del[k].size == readers[k].size
    {
      assert Map(mrg, ToResponse())[k] == del[k];
      assert Map(mrg, RespTag())[k] == Tags(cfg, h, a, p)[k];
      assert Filter(fwd, Reading())[k] == Map(readers, ToPhysical(cfg, a))[k];
    }
  }

  // No blocking.

  function MemRead(): MemReq -> bool { (r: MemReq) => !r.isWrite }

  lemma {:induction false} ReadValsLength(cells: nat -> Word, ops: seq<MemReq>)
    ensures |ReadVals(cells, ops)| == |Filter(ops, MemRead())|
  {
    if ops != [] {
      var before, op := ops[..|ops| - 1], ops[|ops| - 1];
      ReadValsLength(cells, before);
      FilterPush(before, op, MemRead());
      assert ops == before + [op];
    }
  }

  /** There is a tag for every response waiting at an arbiter. */
  lemma TaggedResponses(cfg: Config, cells: nat -> (nat -> Word), s: State, h: Hist, c: nat)
    requires ChannelFlow(cfg, cells, s, h, c) && AnswerFlow(cfg, cells, s, h, c)
    ensures |s.ca(c).respQ| <= |s.ca(c).tagQ|
  {
    ReadValsLength(cells(c), h.don(c));
    FilterPrefix(h.don(c), Map(h.snt(c), Strip()), MemRead());
    FilterMap(h.snt(c), Strip(), MemRead(), IsRead());
    FilterPrefix(h.snt(c), h.log(c), IsRead());
  }

  lemma RoomAtThePort(cfg: Config, cells: nat -> (nat -> Word), s: State, h: Hist, c: nat)
    requires Inv(cfg, cells, s, h) && cfg.tagDepth <= cfg.chanDepth
    ensures Routed(cfg, s, c) <==> Route(s, c).Some?
    ensures Routed(cfg, s, c) <==> s.ca(c).respQ != []
  {
    assert ChannelFlow(cfg, cells, s, h, c) && AnswerFlow(cfg, cells, s, h, c);
    TaggedResponses(cfg, cells, s, h, c);
    if s.ca(c).respQ != [] {
      var tag := s.ca(c).tagQ[0];
      var a, p := tag.srcApp, tag.srcPort;
      SplitTags(cfg, cells, s, h, a, p, c);
      FilterLength(s.rm(a, p).tagQ, OnKey(TagChannel(), c));
      FilterMember(s.ca(c).tagQ, tag, TagFor(a, p));
      assert TagFlow(cfg, s, h, a, p);
      assert |InFlight(s, a, p, c)| <= cfg.chanDepth;
    }
  }

  lemma {:induction false} ShortResponseQueue(cfg: Config, cells: nat -> (nat -> Word), ins: seq<Input>, c: nat)
    requires cfg.tagDepth <= cfg.chanDepth
    ensures |Run(cfg, cells, ins).ca(c).respQ| <= 1
  {
    if ins != [] {
      var before := ins[..|ins| - 1];
      ShortResponseQueue(cfg, cells, before, c);
      Reachable(cfg, cells, before);
      RoomAtThePort(cfg, cells, Run(cfg, cells, before), HistOf(cfg, cells, before), c);
    }
  }

  /** No application can hold up another: because a port's tag queue is no deeper than its channel
      queues, a response an arbiter routes is taken in that very cycle, even by a port that is
      never drained; so at most one response waits there and the memory is never refused. */
  lemma NoCrossAppBlocking(cfg: Config, cells: nat -> (nat -> Word), ins: seq<Input>, i: Input, c: nat)
    requires cfg.tagDepth <= cfg.chanDepth && cfg.arbRespDepth >= 2
    ensures var s := Run(cfg, cells, ins);
            && (Routed(cfg, s, c) <==> Route(s, c).Some?)
            && (Route(s, c).Some? <==> s.ca(c).respQ != [])
            && |s.ca(c).respQ| <= 1
            && (i.serve(c) && s.mem(c).pend != [] ==> Served(cfg, s, i, c) == [s.mem(c).pend[0]])
  {
    Reachable(cfg, cells, ins);
    RoomAtThePort(cfg, cells, Run(cfg, cells, ins), HistOf(cfg, cells, ins), c);
    ShortResponseQueue(cfg, cells, ins, c);
  }
}
