/** What the memory system computes: every response is the answer of a channel memory working
    through an interleaving of the ports' requests; and a port nobody else writes to sees a flat
    memory of its own. */
module AmiMemory {
  import opened Streams
  import opened AmiTypes
  import opened Ami
  import opened AmiFlow
  import opened AmiDelivery
  import Fifo

  function Ops(reqs: seq<ChanReq>): seq<MemReq> { Map(reqs, Strip()) }

  /** The labelled answers to the reads of a request stream served in order. */
  function Replies(cells: nat -> Word, reqs: seq<ChanReq>): seq<Resp> {
    if reqs == [] then []
    else
      var before, r := reqs[..|reqs| - 1], reqs[|reqs| - 1];
      Replies(cells, before) + Reply(ApplyAll(cells, Ops(before)), r)
  }

  function Reply(cells: nat -> Word, r: ChanReq): seq<Resp> {
    if r.isWrite then [] else [Resp(r.srcPort, r.srcApp, r.channel, cells(r.addr), r.size)]
  }

  lemma RepliesPush(cells: nat -> Word, reqs: seq<ChanReq>, r: ChanReq)
    ensures Replies(cells, reqs + [r]) == Replies(cells, reqs) + Reply(ApplyAll(cells, Ops(reqs)), r)
  {
  }

  lemma ApplyPush(cells: nat -> Word, ops: seq<MemReq>, op: MemReq)
    ensures ApplyAll(cells, ops + [op]) == Apply(ApplyAll(cells, ops), op)
  {
  }

  lemma OpsPush(reqs: seq<ChanReq>, r: ChanReq)
    ensures Ops(reqs + [r]) == Ops(reqs) + [Strip()(r)]
  {
  }

  lemma Last<T>(s: seq<T>) returns (before: seq<T>, x: T)
    requires s != []
    ensures before == s[..|s| - 1] && x == s[|s| - 1] && s == before + [x] && |before| < |s|
  {
    before, x := s[..|s| - 1], s[|s| - 1];
  }

  lemma {:induction false} RepliesPrefix(cells: nat -> Word, x: seq<ChanReq>, y: seq<ChanReq>)
    requires x <= y
    ensures Replies(cells, x) <= Replies(cells, y)
    decreases |y|
  {
    if x != y {
      var before, r := Last(y);
      assert x <= before;
      RepliesPrefix(cells, x, before);
      RepliesPush(cells, before, r);
    } else {
      assert Replies(cells, x) == Replies(cells, y);
    }
  }

  lemma {:induction false} ReadValsPrefix(cells: nat -> Word, x: seq<MemReq>, y: seq<MemReq>)
    requires x <= y
    ensures ReadVals(cells, x) <= ReadVals(cells, y)
    decreases |y|
  {
    if x != y {
      var before, r := Last(y);
      assert x <= before;
      ReadValsPrefix(cells, x, before);
    } else {
      assert ReadVals(cells, x) == ReadVals(cells, y);
    }
  }

  /** A reply is its request's tag and the value read. */
  lemma {:induction false} RepliesAre(cells: nat -> Word, reqs: seq<ChanReq>)
    ensures Map(Replies(cells, reqs), DataOf()) == ReadVals(cells, Ops(reqs))
    ensures Map(Replies(cells, reqs), RespTag()) == Map(Filter(reqs, IsRead()), TagOf())
    decreases |reqs|
  {
    if reqs != [] {
      hide Filter, ApplyAll, Replies, Map;
      var before, r := Last(reqs);
      RepliesAre(cells, before);
      RepliesPush(cells, before, r);
      OpsPush(before, r);
      ReadValsPush(cells, Ops(before), Strip()(r));
      hide ReadVals, Ops;
      var reply := Reply(ApplyAll(cells, Ops(before)), r);
      MapAppend(Replies(cells, before), reply, DataOf());
      MapAppend(Replies(cells, before), reply, RespTag());
      FilterPush(before, r, IsRead());
      if !r.isWrite {
        MapAppend(Filter(before, IsRead()), [r], TagOf());
        ReplyParts(ApplyAll(cells, Ops(before)), r);
      } else {
        assert reply == [];
        assert Replies(cells, before) + reply == Replies(cells, before);
      }
    }
  }

  lemma ReadValsPush(cells: nat -> Word, ops: seq<MemReq>, op: MemReq)
    ensures ReadVals(cells, ops + [op]) == ReadVals(cells, ops) + (if op.isWrite then [] else [ApplyAll(cells, ops)(op.addr)])
  {
    var all := ops + [op];
    assert all[..|all| - 1] == ops;
  }

  lemma ReplyParts(cells: nat -> Word, r: ChanReq)
    requires !r.isWrite
    ensures Map(Reply(cells, r), DataOf()) == [cells(r.addr)]
    ensures Map(Reply(cells, r), RespTag()) == Map([r], TagOf())
  {
  }

  lemma SameTagAndData(x: seq<Resp>, y: seq<Resp>)
    requires Map(x, DataOf()) <= Map(y, DataOf()) && Map(x, RespTag()) <= Map(y, RespTag())
    ensures x <= y
  {
    forall i | 0 <= i < |x| ensures i < |y| && x[i] == y[i] {
      assert Map(x, DataOf())[i] == Map(y, DataOf())[i] && Map(x, RespTag())[i] == Map(y, RespTag())[i];
    }
  }

  /** What an arbiter has routed is what its log asked for. */
  lemma RoutedIsReplied(cfg: Config, cells: nat -> (nat -> Word), s: State, h: Hist, c: nat)
    requires ChannelFlow(cfg, cells, s, h, c) && AnswerFlow(cfg, cells, s, h, c)
    ensures h.rtd(c) <= Replies(cells(c), h.log(c))
  {
    RepliesAre(cells(c), h.log(c));
    MapAppend(h.snt(c), s.ca(c).reqQ, Strip());
    assert h.don(c) <= Ops(h.snt(c)) <= Ops(h.log(c));
    ReadValsPrefix(cells(c), h.don(c), Ops(h.log(c)));
    SameTagAndData(h.rtd(c), Replies(cells(c), h.log(c)));
  }

  // The requests of one port on one channel.

  function Lane(cfg: Config, a: nat, p: nat, reqs: seq<Request>, c: nat): seq<ChanReq> {
    Map(Filter(reqs, OnChannel(cfg, c)), ToChan(cfg, a, p))
  }

  lemma LanePush(cfg: Config, a: nat, p: nat, reqs: seq<Request>, r: Request, c: nat)
    ensures Lane(cfg, a, p, reqs + [r], c)
         == Lane(cfg, a, p, reqs, c) + (if ChannelOf(cfg, r.addr) == c then [ToChan(cfg, a, p)(r)] else [])
  {
    FilterPush(reqs, r, OnChannel(cfg, c));
    MapAppend(Filter(reqs, OnChannel(cfg, c)), [r], ToChan(cfg, a, p));
  }

  /** Every channel's arbiter has taken an interleaving of what the ports submitted, each port's
      requests in order. */
  lemma LogInterleaves(cfg: Config, cells: nat -> (nat -> Word), s: State, h: Hist, a: nat, p: nat, c: nat)
    requires MergeFlow(cfg, s, h, a, c) && LaneFlow(cfg, h, a, p, c)
    ensures Filter(h.log(c), FromUnit(a, p)) <= Lane(cfg, a, p, h.fwd(a, p), c)
  {
    FilterAppend(Filter(h.log(c), FromApp(a)), s.mg(a, c).reqQ, FromPort(p));
    FilterTwice(h.log(c), FromApp(a), FromPort(p), FromUnit(a, p));
  }

  lemma SamePrefix<T>(x: seq<T>, y: seq<T>, z: seq<T>)
    requires x <= z && y <= z && |x| == |y|
    ensures x == y
  {
  }

  lemma KeyPrefix(merged: seq<Resp>, full: seq<Resp>, c: nat)
    requires |merged| <= |full|
    requires forall k :: 0 <= k < |merged| ==> merged[k].channel == full[k].channel
    requires Filter(merged, OnKey(RespChannel(), c)) <= Filter(full, OnKey(RespChannel(), c))
    ensures Filter(merged, OnKey(RespChannel(), c)) == Filter(full[..|merged|], OnKey(RespChannel(), c))
  {
    hide Filter, OnKey;
    var y, f := full[..|merged|], OnKey(RespChannel(), c);
    assert |Filter(merged, f)| == |Filter(y, f)| by {
      forall i | 0 <= i < |merged| ensures RespChannel()(merged[i]) == RespChannel()(y[i]) {}
      SameCount(merged, y, RespChannel(), RespChannel(), c);
    }
    assert Filter(y, f) <= Filter(full, f) by {
      assert y <= full;
      FilterPrefix(y, full, f);
    }
    SamePrefix(Filter(merged, f), Filter(y, f), Filter(full, f));
  }

  /** A merged stream is a prefix of any stream in the same channel order that continues it on
      every channel. */
  lemma MergedIsPrefix(merged: seq<Resp>, full: seq<Resp>)
    requires |merged| <= |full|
    requires forall k :: 0 <= k < |merged| ==> merged[k].channel == full[k].channel
    requires forall c: nat :: Filter(merged, OnKey(RespChannel(), c)) == Filter(full[..|merged|], OnKey(RespChannel(), c))
    ensures merged <= full
  {
    SameByKey(merged, full[..|merged|], RespChannel());
  }

  // A port with memory of its own.

  /** The port's requests alone decide what its reads see. */
  ghost predicate Alone(log: seq<ChanReq>, a: nat, p: nat) {
    forall x, y :: x in log && y in log && FromUnit(a, p)(x) && !FromUnit(a, p)(y) && y.isWrite ==> x.addr != y.addr
  }

  lemma {:induction false} OthersDoNotMatter(cells: nat -> Word, log: seq<ChanReq>, a: nat, p: nat, addr: nat)
    requires forall y :: y in log && !FromUnit(a, p)(y) && y.isWrite ==> y.addr != addr
    ensures ApplyAll(cells, Ops(log))(addr) == ApplyAll(cells, Ops(Filter(log, FromUnit(a, p))))(addr)
    decreases |log|
  {
    if log != [] {
      var before, r := Last(log);
      assert r in log && forall y :: y in before ==> y in log;
      OthersDoNotMatter(cells, before, a, p, addr);
      OneMore(cells, before, r, a, p, addr);
    }
  }

  lemma OneMore(cells: nat -> Word, before: seq<ChanReq>, r: ChanReq, a: nat, p: nat, addr: nat)
    requires FromUnit(a, p)(r) || !r.isWrite || r.addr != addr
    requires ApplyAll(cells, Ops(before))(addr) == ApplyAll(cells, Ops(Filter(before, FromUnit(a, p))))(addr)
    ensures ApplyAll(cells, Ops(before + [r]))(addr) == ApplyAll(cells, Ops(Filter(before + [r], FromUnit(a, p))))(addr)
  {
    hide Filter, Ops, ApplyAll;
    OpsPush(before, r);
    ApplyPush(cells, Ops(before), Strip()(r));
    FilterPush(before, r, FromUnit(a, p));
    if FromUnit(a, p)(r) {
      var own := Filter(before, FromUnit(a, p));
      OpsPush(own, r);
      ApplyPush(cells, Ops(own), Strip()(r));
    }
  }

  lemma {:induction false} PrivateLane(cells: nat -> Word, log: seq<ChanReq>, a: nat, p: nat)
    requires Alone(log, a, p)
    ensures Filter(Replies(cells, log), ToUnit(a, p)) == Replies(cells, Filter(log, FromUnit(a, p)))
    decreases |log|
  {
    if log != [] {
      var before, r := Last(log);
      assert r in log && forall y :: y in before ==> y in log;
      PrivateLane(cells, before, a, p);
      if FromUnit(a, p)(r) { OthersDoNotMatter(cells, before, a, p, r.addr); }
      LaneOneMore(cells, before, r, a, p);
    }
  }

  lemma LaneOneMore(cells: nat -> Word, before: seq<ChanReq>, r: ChanReq, a: nat, p: nat)
    requires Filter(Replies(cells, before), ToUnit(a, p)) == Replies(cells, Filter(before, FromUnit(a, p)))
    requires FromUnit(a, p)(r) ==>
               ApplyAll(cells, Ops(before))(r.addr) == ApplyAll(cells, Ops(Filter(before, FromUnit(a, p))))(r.addr)
    ensures Filter(Replies(cells, before + [r]), ToUnit(a, p)) == Replies(cells, Filter(before + [r], FromUnit(a, p)))
  {
    hide Filter, Ops, ApplyAll, Replies;
    var own, reply := Filter(before, FromUnit(a, p)), Reply(ApplyAll(cells, Ops(before)), r);
    RepliesPush(cells, before, r);
    FilterAppend(Replies(cells, before), reply, ToUnit(a, p));
    FilterOne(reply, ToUnit(a, p));
    FilterPush(before, r, FromUnit(a, p));
    if FromUnit(a, p)(r) { RepliesPush(cells, own, r); }
  }

  /** The sequential answers to a port's physical requests. */
  function PhysAnswers(cfg: Config, cells: nat -> (nat -> Word), a: nat, p: nat, reqs: seq<Request>): seq<Resp> {
    if reqs == [] then []
    else
      var before, r := reqs[..|reqs| - 1], reqs[|reqs| - 1];
      PhysAnswers(cfg, cells, a, p, before) + Answer(cfg, cells, a, p, before, r)
  }

  function Answer(cfg: Config, cells: nat -> (nat -> Word), a: nat, p: nat, before: seq<Request>, r: Request): (x: seq<Resp>)
    ensures |x| <= 1
  {
    var c := ChannelOf(cfg, r.addr);
    Reply(ApplyAll(cells(c), Ops(Lane(cfg, a, p, before, c))), ToChan(cfg, a, p)(r))
  }

  lemma AnswerOnLane(cfg: Config, cells: nat -> (nat -> Word), a: nat, p: nat, before: seq<Request>, r: Request, c: nat)
    ensures Filter(Answer(cfg, cells, a, p, before, r), OnKey(RespChannel(), c))
         == if ChannelOf(cfg, r.addr) == c then Reply(ApplyAll(cells(c), Ops(Lane(cfg, a, p, before, c))), ToChan(cfg, a, p)(r)) else []
  {
  }

  lemma PhysAnswersPush(cfg: Config, cells: nat -> (nat -> Word), a: nat, p: nat, reqs: seq<Request>, r: Request)
    ensures PhysAnswers(cfg, cells, a, p, reqs + [r]) == PhysAnswers(cfg, cells, a, p, reqs) + Answer(cfg, cells, a, p, reqs, r)
  {
  }

  lemma AnswersPushByLane(cfg: Config, cells: nat -> (nat -> Word), a: nat, p: nat, reqs: seq<Request>, r: Request, c: nat)
    requires Filter(PhysAnswers(cfg, cells, a, p, reqs), OnKey(RespChannel(), c)) == Replies(cells(c), Lane(cfg, a, p, reqs, c))
    ensures Filter(PhysAnswers(cfg, cells, a, p, reqs + [r]), OnKey(RespChannel(), c))
         == Replies(cells(c), Lane(cfg, a, p, reqs + [r], c))
  {
    var lane, x := Lane(cfg, a, p, reqs, c), ToChan(cfg, a, p)(r);
    var answers, answer := PhysAnswers(cfg, cells, a, p, reqs), Answer(cfg, cells, a, p, reqs, r);
    assert PhysAnswers(cfg, cells, a, p, reqs + [r]) == answers + answer by { PhysAnswersPush(cfg, cells, a, p, reqs, r); }
    assert Filter(answers + answer, OnKey(RespChannel(), c))
        == Filter(answers, OnKey(RespChannel(), c)) + Filter(answer, OnKey(RespChannel(), c)) by {
      FilterAppend(answers, answer, OnKey(RespChannel(), c));
    }
    if ChannelOf(cfg, r.addr) == c {
      assert Filter(answer, OnKey(RespChannel(), c)) == Reply(ApplyAll(cells(c), Ops(lane)), x) by {
        AnswerOnLane(cfg, cells, a, p, reqs, r, c);
      }
      assert Lane(cfg, a, p, reqs + [r], c) == lane + [x] by { LanePush(cfg, a, p, reqs, r, c); }
      assert Replies(cells(c), lane + [x]) == Replies(cells(c), lane) + Reply(ApplyAll(cells(c), Ops(lane)), x) by {
        RepliesPush(cells(c), lane, x);
      }
    } else {
      assert Filter(answer, OnKey(RespChannel(), c)) == [] by { AnswerOnLane(cfg, cells, a, p, reqs, r, c); }
      assert Lane(cfg, a, p, reqs + [r], c) == lane by { LanePush(cfg, a, p, reqs, r, c); }
    }
  }

  /** They are the lanes' replies, in tag order. */
  lemma {:induction false} PhysAnswersByLane(cfg: Config, cells: nat -> (nat -> Word), a: nat, p: nat, reqs: seq<Request>, c: nat)
    ensures Filter(PhysAnswers(cfg, cells, a, p, reqs), OnKey(RespChannel(), c)) == Replies(cells(c), Lane(cfg, a, p, reqs, c))
    decreases |reqs|
  {
    if reqs != [] {
      var before, r := Last(reqs);
      PhysAnswersByLane(cfg, cells, a, p, before, c);
      AnswersPushByLane(cfg, cells, a, p, before, r, c);
    }
  }

  lemma {:induction false} PhysAnswersTags(cfg: Config, cells: nat -> (nat -> Word), a: nat, p: nat, reqs: seq<Request>)
    ensures Map(PhysAnswers(cfg, cells, a, p, reqs), RespTag()) == Map(Filter(reqs, Reading()), TagOfRequest(cfg, a, p))
    decreases |reqs|
  {
    if reqs != [] {
      var before, r := Last(reqs);
      var reply := Answer(cfg, cells, a, p, before, r);
      PhysAnswersTags(cfg, cells, a, p, before);
      PhysAnswersPush(cfg, cells, a, p, before, r);
      MapAppend(PhysAnswers(cfg, cells, a, p, before), reply, RespTag());
      FilterPush(before, r, Reading());
      MapAppend(Filter(before, Reading()), [r], TagOfRequest(cfg, a, p));
    }
  }

  lemma MergedIsAnswered(cfg: Config, cells: nat -> (nat -> Word), s: State, h: Hist, a: nat, p: nat)
    requires Inv(cfg, cells, s, h)
    requires forall c: nat :: Alone(h.log(c), a, p)
    ensures h.mrg(a, p) <= PhysAnswers(cfg, cells, a, p, h.fwd(a, p))
  {
    var full := PhysAnswers(cfg, cells, a, p, h.fwd(a, p));
    PhysAnswersTags(cfg, cells, a, p, h.fwd(a, p));
    assert TagFlow(cfg, s, h, a, p);
    forall k | 0 <= k < |h.mrg(a, p)| ensures h.mrg(a, p)[k].channel == full[k].channel {
      assert Map(full, RespTag())[k] == Tags(cfg, h, a, p)[k];
    }
    forall c: nat
      ensures Filter(h.mrg(a, p), OnKey(RespChannel(), c)) == Filter(full[..|h.mrg(a, p)|], OnKey(RespChannel(), c))
    {
      LaneIsAnswered(cfg, cells, s, h, a, p, c);
      PhysAnswersByLane(cfg, cells, a, p, h.fwd(a, p), c);
      KeyPrefix(h.mrg(a, p), full, c);
    }
    MergedIsPrefix(h.mrg(a, p), full);
  }

  lemma LaneIsAnswered(cfg: Config, cells: nat -> (nat -> Word), s: State, h: Hist, a: nat, p: nat, c: nat)
    requires Inv(cfg, cells, s, h) && Alone(h.log(c), a, p)
    ensures Filter(h.mrg(a, p), OnKey(RespChannel(), c)) <= Replies(cells(c), Lane(cfg, a, p, h.fwd(a, p), c))
  {
    assert ChannelFlow(cfg, cells, s, h, c) && AnswerFlow(cfg, cells, s, h, c);
    assert MergeFlow(cfg, s, h, a, c) && LaneFlow(cfg, h, a, p, c) && ReturnFlow(s, h, a, p, c);
    var own := Filter(h.log(c), FromUnit(a, p));
    FilterAgree(h.mrg(a, p), OnKey(RespChannel(), c), ViaChannel(c));
    RoutedIsReplied(cfg, cells, s, h, c);
    FilterPrefix(h.rtd(c), Replies(cells(c), h.log(c)), ToUnit(a, p));
    PrivateLane(cells(c), h.log(c), a, p);
    LogInterleaves(cfg, cells, s, h, a, p, c);
    RepliesPrefix(cells(c), own, Lane(cfg, a, p, h.fwd(a, p), c));
    assert Filter(h.mrg(a, p), ViaChannel(c)) <= Filter(h.rtd(c), ToUnit(a, p)) <= Replies(cells(c), own);
  }

  // The flat memory an application believes it has.

  function View(cfg: Config, cells: nat -> (nat -> Word), a: nat): nat -> Word {
    (va: nat) => cells(ChannelOf(cfg, Physical(cfg, a, va)))(LocalOf(cfg, Physical(cfg, a, va)))
  }

  function Write(mem: nat -> Word, r: Request): nat -> Word {
    if r.isWrite then ((x: nat) => if x == r.addr then r.data else mem(x)) else mem
  }

  function WriteAll(mem: nat -> Word, reqs: seq<Request>): nat -> Word {
    if reqs == [] then mem else Write(WriteAll(mem, reqs[..|reqs| - 1]), reqs[|reqs| - 1])
  }

  /** What a sequential run of the requests on a flat memory answers. */
  function Sequential(mem: nat -> Word, reqs: seq<Request>): seq<Response> {
    if reqs == [] then []
    else
      var before, r := reqs[..|reqs| - 1], reqs[|reqs| - 1];
      Sequential(mem, before) + (if r.isWrite then [] else [Response(WriteAll(mem, before)(r.addr), r.size)])
  }

  ghost predicate InRegion(cfg: Config, reqs: seq<Request>) {
    forall r :: r in reqs ==> r.addr < Region(cfg.platform, cfg.Apps())
  }

  /** The physical cell behind a virtual address, after a port's requests. */
  function Cell(cfg: Config, cells: nat -> (nat -> Word), a: nat, p: nat, phys: seq<Request>, pa: nat): Word {
    var c := ChannelOf(cfg, pa);
    ApplyAll(cells(c), Ops(Lane(cfg, a, p, phys, c)))(LocalOf(cfg, pa))
  }

  lemma ApplyAt(cells: nat -> Word, ops: seq<MemReq>, op: MemReq, x: nat)
    ensures ApplyAll(cells, ops + [op])(x) == if op.isWrite && x == op.addr then op.data else ApplyAll(cells, ops)(x)
  {
  }

  /** One request writes the cell it is aimed at and no other. */
  lemma CellPush(cfg: Config, cells: nat -> (nat -> Word), a: nat, p: nat, phys: seq<Request>, r: Request, pa: nat)
    ensures Cell(cfg, cells, a, p, phys + [r], pa)
         == if r.isWrite && ChannelOf(cfg, r.addr) == ChannelOf(cfg, pa) && LocalOf(cfg, r.addr) == LocalOf(cfg, pa) then r.data
            else Cell(cfg, cells, a, p, phys, pa)
  {
    var c := ChannelOf(cfg, pa);
    LanePush(cfg, a, p, phys, r, c);
    if ChannelOf(cfg, r.addr) == c {
      var lane, x := Lane(cfg, a, p, phys, c), ToChan(cfg, a, p)(r);
      OpsPush(lane, x);
      ApplyAt(cells(c), Ops(lane), Strip()(x), LocalOf(cfg, pa));
    } else {
      assert Lane(cfg, a, p, phys + [r], c) == Lane(cfg, a, p, phys, c);
    }
  }

  lemma {:induction false} FlatCell(cfg: Config, cells: nat -> (nat -> Word), a: nat, p: nat, reqs: seq<Request>, va: nat)
    requires KnownApps(cfg) && cfg.Channels() > 1 && a < cfg.Apps()
    requires InRegion(cfg, reqs) && va < Region(cfg.platform, cfg.Apps())
    ensures Cell(cfg, cells, a, p, Map(reqs, ToPhysical(cfg, a)), Physical(cfg, a, va)) == WriteAll(View(cfg, cells, a), reqs)(va)
    decreases |reqs|
  {
    if reqs != [] {
      var before, r := Last(reqs);
      assert r in reqs;
      FlatCell(cfg, cells, a, p, before, va);
      MapPush(before, r, ToPhysical(cfg, a));
      CellPush(cfg, cells, a, p, Map(before, ToPhysical(cfg, a)), ToPhysical(cfg, a)(r), Physical(cfg, a, va));
      Isolation(cfg, a, va, a, r.addr);
    }
  }

  lemma {:induction false} FlatAnswers(cfg: Config, cells: nat -> (nat -> Word), a: nat, p: nat, reqs: seq<Request>)
    requires KnownApps(cfg) && cfg.Channels() > 1 && a < cfg.Apps()
    requires InRegion(cfg, reqs)
    ensures Map(PhysAnswers(cfg, cells, a, p, Map(reqs, ToPhysical(cfg, a))), ToResponse()) == Sequential(View(cfg, cells, a), reqs)
    decreases |reqs|
  {
    if reqs != [] {
      var before, r := Last(reqs);
      assert r in reqs;
      FlatAnswers(cfg, cells, a, p, before);
      var phys, pr := Map(before, ToPhysical(cfg, a)), ToPhysical(cfg, a)(r);
      MapPush(before, r, ToPhysical(cfg, a));
      PhysAnswersPush(cfg, cells, a, p, phys, pr);
      MapAppend(PhysAnswers(cfg, cells, a, p, phys), Answer(cfg, cells, a, p, phys, pr), ToResponse());
      FlatCell(cfg, cells, a, p, before, r.addr);
      AnswerValue(cfg, cells, a, p, phys, pr);
    }
  }

  lemma AnswerValue(cfg: Config, cells: nat -> (nat -> Word), a: nat, p: nat, phys: seq<Request>, r: Request)
    ensures Map(Answer(cfg, cells, a, p, phys, r), ToResponse())
         == if r.isWrite then [] else [Response(Cell(cfg, cells, a, p, phys, r.addr), r.size)]
  {
  }

  lemma {:induction false} PhysAnswersPrefix(cfg: Config, cells: nat -> (nat -> Word), a: nat, p: nat, x: seq<Request>, y: seq<Request>)
    requires x <= y
    ensures PhysAnswers(cfg, cells, a, p, x) <= PhysAnswers(cfg, cells, a, p, y)
    decreases |y|
  {
    if x != y {
      var before, r := Last(y);
      assert x <= before;
      PhysAnswersPrefix(cfg, cells, a, p, x, before);
      PhysAnswersPush(cfg, cells, a, p, before, r);
    } else {
      assert PhysAnswers(cfg, cells, a, p, x) == PhysAnswers(cfg, cells, a, p, y);
    }
  }

  // Where a logged request comes from.

  lemma Origin(cfg: Config, cells: nat -> (nat -> Word), s: State, h: Hist, c: nat, x: ChanReq) returns (r: Request)
    requires Inv(cfg, cells, s, h) && x in h.log(c)
    ensures x.srcApp < cfg.Apps() && x.srcPort < cfg.Ports()
    ensures r in h.acc(x.srcApp, x.srcPort) && r.isWrite == x.isWrite
    ensures ChannelOf(cfg, Physical(cfg, x.srcApp, r.addr)) == c
    ensures LocalOf(cfg, Physical(cfg, x.srcApp, r.addr)) == x.addr
  {
    var a, p := x.srcApp, x.srcPort;
    assert ChannelFlow(cfg, cells, s, h, c) && MergeFlow(cfg, s, h, a, c) && LaneFlow(cfg, h, a, p, c) && PortFlow(cfg, s, h, a, p);
    FilterMember(h.log(c), x, FromUnit(a, p));
    LogInterleaves(cfg, cells, s, h, a, p, c);
    var lane := Filter(h.fwd(a, p), OnChannel(cfg, c));
    assert x in Lane(cfg, a, p, h.fwd(a, p), c);
    var k :| 0 <= k < |lane| && ToChan(cfg, a, p)(lane[k]) == x;
    assert lane[k] in lane;
    FilterMember(h.fwd(a, p), lane[k], OnChannel(cfg, c));
    ForwardedPrefix(cfg, s, h, a, p);
    assert lane[k] in Map(h.acc(a, p), ToPhysical(cfg, a));
    var j :| 0 <= j < |h.acc(a, p)| && ToPhysical(cfg, a)(h.acc(a, p)[j]) == lane[k];
    r := h.acc(a, p)[j];
  }

  /** Nobody but port p of application a writes in a's region. */
  ghost predicate Private(cfg: Config, cells: nat -> (nat -> Word), ins: seq<Input>, a: nat, p: nat) {
    && InRegion(cfg, AllAccepted(cfg, cells, ins, a, p))
    && forall b: nat, q: nat, r ::
         b < cfg.Apps() && q < cfg.Ports() && (b, q) != (a, p) && r in AllAccepted(cfg, cells, ins, b, q) && r.isWrite ==>
           b != a && r.addr < Region(cfg.platform, cfg.Apps())
  }

  lemma PrivateIsAlone(cfg: Config, cells: nat -> (nat -> Word), ins: seq<Input>, a: nat, p: nat, c: nat)
    requires KnownApps(cfg) && cfg.Channels() > 1 && a < cfg.Apps() && p < cfg.Ports()
    requires Private(cfg, cells, ins, a, p)
    ensures Alone(HistOf(cfg, cells, ins).log(c), a, p)
  {
    hide Run, HistOf, Inv, AllAccepted, AllDelivered, LocalOf;
    var s, h := Run(cfg, cells, ins), HistOf(cfg, cells, ins);
    Reachable(cfg, cells, ins);
    forall x, y | x in h.log(c) && y in h.log(c) && FromUnit(a, p)(x) && !FromUnit(a, p)(y) && y.isWrite
      ensures x.addr != y.addr
    {
      var rx := Origin(cfg, cells, s, h, c, x);
      var ry := Origin(cfg, cells, s, h, c, y);
      HistIsObserved(cfg, cells, ins, a, p);
      HistIsObserved(cfg, cells, ins, y.srcApp, y.srcPort);
      assert (y.srcApp, y.srcPort) != (a, p);
      Isolation(cfg, a, rx.addr, y.srcApp, ry.addr);
    }
  }

  /** Private memory: as long as nobody else writes in its application's region, the responses a
      port receives are, one by one, what a sequential run of its own accepted requests on its own
      flat memory answers, whatever every other port does and however requests are arbitrated.
      When nothing of the port's is left in the machine it has received all of them. */
  lemma PrivateMemory(cfg: Config, cells: nat -> (nat -> Word), ins: seq<Input>, a: nat, p: nat)
    requires KnownApps(cfg) && cfg.Channels() > 1 && a < cfg.Apps() && p < cfg.Ports()
    requires Private(cfg, cells, ins, a, p)
    ensures var s := Run(cfg, cells, ins);
            var answers := Sequential(View(cfg, cells, a), AllAccepted(cfg, cells, ins, a, p));
            var del := AllDelivered(cfg, cells, ins, a, p);
            && del + s.rm(a, p).outQ <= answers
            && (Queued(s, a, p) == 0 && s.rm(a, p).tagQ == [] && s.rm(a, p).outQ == [] ==> del == answers)
  {
    var s, h := Run(cfg, cells, ins), HistOf(cfg, cells, ins);
    Reachable(cfg, cells, ins);
    HistIsObserved(cfg, cells, ins, a, p);
    forall c: nat ensures Alone(h.log(c), a, p) { PrivateIsAlone(cfg, cells, ins, a, p, c); }
    MergedIsAnswered(cfg, cells, s, h, a, p);
    assert PortFlow(cfg, s, h, a, p) && TagFlow(cfg, s, h, a, p);
    PortAnswers(cfg, cells, s, h, a, p);
  }

  lemma PortAnswers(cfg: Config, cells: nat -> (nat -> Word), s: State, h: Hist, a: nat, p: nat)
    requires KnownApps(cfg) && cfg.Channels() > 1 && a < cfg.Apps()
    requires InRegion(cfg, h.acc(a, p)) && PortFlow(cfg, s, h, a, p) && TagFlow(cfg, s, h, a, p)
    requires h.mrg(a, p) <= PhysAnswers(cfg, cells, a, p, h.fwd(a, p))
    ensures h.del(a, p) + s.rm(a, p).outQ <= Sequential(View(cfg, cells, a), h.acc(a, p))
    ensures Queued(s, a, p) == 0 && s.rm(a, p).tagQ == [] && s.rm(a, p).outQ == [] ==>
              h.del(a, p) == Sequential(View(cfg, cells, a), h.acc(a, p))
  {
    var fwd, all := h.fwd(a, p), Map(h.acc(a, p), ToPhysical(cfg, a));
    ForwardedPrefix(cfg, s, h, a, p);
    PhysAnswersPrefix(cfg, cells, a, p, fwd, all);
    PhysAnswersTags(cfg, cells, a, p, fwd);
    FlatAnswers(cfg, cells, a, p, h.acc(a, p));
    assert h.mrg(a, p) <= PhysAnswers(cfg, cells, a, p, all);
    assert Map(h.mrg(a, p), ToResponse()) <= Map(PhysAnswers(cfg, cells, a, p, all), ToResponse());
    assert |Map(PhysAnswers(cfg, cells, a, p, fwd), RespTag())| == |Tags(cfg, h, a, p)|;
  }

  /** With no assumption on who writes where: each channel serves one interleaving of the ports'
      accepted requests, every port's in the order it submitted them, and what a port receives
      for a channel is, in order, what that interleaving answers to its reads; across channels
      the responses come in the order of the reads. */
  lemma ChannelsAreSequential(cfg: Config, cells: nat -> (nat -> Word), ins: seq<Input>, a: nat, p: nat, c: nat)
    ensures var s, h := Run(cfg, cells, ins), HistOf(cfg, cells, ins);
            var phys := Map(AllAccepted(cfg, cells, ins, a, p), ToPhysical(cfg, a));
            && Filter(h.log(c), FromUnit(a, p)) <= Lane(cfg, a, p, phys, c)
            && Filter(h.mrg(a, p), ViaChannel(c)) <= Filter(Replies(cells(c), h.log(c)), ToUnit(a, p))
            && Map(h.mrg(a, p), RespTag()) <= Map(Filter(phys, Reading()), TagOfRequest(cfg, a, p))
            && Map(h.mrg(a, p), ToResponse()) == AllDelivered(cfg, cells, ins, a, p) + s.rm(a, p).outQ
  {
    var s, h := Run(cfg, cells, ins), HistOf(cfg, cells, ins);
    Reachable(cfg, cells, ins);
    HistIsObserved(cfg, cells, ins, a, p);
    MergedTags(cfg, cells, s, h, a, p);
    assert ChannelFlow(cfg, cells, s, h, c) && AnswerFlow(cfg, cells, s, h, c) && MergeFlow(cfg, s, h, a, c);
    assert LaneFlow(cfg, h, a, p, c) && ReturnFlow(s, h, a, p, c) && TagFlow(cfg, s, h, a, p) && PortFlow(cfg, s, h, a, p);
    SequentialParts(cfg, cells, s, h, a, p, c);
  }

  lemma SequentialParts(cfg: Config, cells: nat -> (nat -> Word), s: State, h: Hist, a: nat, p: nat, c: nat)
    requires ChannelFlow(cfg, cells, s, h, c) && AnswerFlow(cfg, cells, s, h, c) && MergeFlow(cfg, s, h, a, c)
    requires LaneFlow(cfg, h, a, p, c) && ReturnFlow(s, h, a, p, c) && PortFlow(cfg, s, h, a, p)
    ensures Filter(h.log(c), FromUnit(a, p)) <= Lane(cfg, a, p, Map(h.acc(a, p), ToPhysical(cfg, a)), c)
    ensures Filter(h.mrg(a, p), ViaChannel(c)) <= Filter(Replies(cells(c), h.log(c)), ToUnit(a, p))
    ensures Tags(cfg, h, a, p) <= Map(Filter(Map(h.acc(a, p), ToPhysical(cfg, a)), Reading()), TagOfRequest(cfg, a, p))
  {
    var fwd, phys := h.fwd(a, p), Map(h.acc(a, p), ToPhysical(cfg, a));
    RoutedIsReplied(cfg, cells, s, h, c);
    FilterPrefix(h.rtd(c), Replies(cells(c), h.log(c)), ToUnit(a, p));
    LogInterleaves(cfg, cells, s, h, a, p, c);
    ForwardedPrefix(cfg, s, h, a, p);
    FilterPrefix(fwd, phys, OnChannel(cfg, c));
    FilterPrefix(fwd, phys, Reading());
  }
}
