/** Which read a response answers, and with what value, whoever else writes where. */
module AmiReads {
  import opened Streams
  import opened AmiTypes
  import opened Ami
  import opened AmiFlow
  import opened AmiDelivery
  import opened AmiMemory

  /** An element selected stands in the selection after those selected before it. */
  lemma FilterIndex<T>(s: seq<T>, k: nat, keep: T -> bool)
    requires k < |s| && keep(s[k])
    ensures |Filter(s[..k], keep)| < |Filter(s, keep)| && Filter(s, keep)[|Filter(s[..k], keep)|] == s[k]
  {
    assert s[..k + 1] == s[..k] + [s[k]];
    FilterPush(s[..k], s[k], keep);
    FilterPrefix(s[..k + 1], s, keep);
  }

  lemma ReplyCount(cells: nat -> Word, log: seq<ChanReq>, r: ChanReq, a: nat, p: nat)
    ensures Filter(Replies(cells, log + [r]), ToUnit(a, p))
         == Filter(Replies(cells, log), ToUnit(a, p))
            + (if ReadOf(a, p)(r) then [Resp(p, a, r.channel, ApplyAll(cells, Ops(log))(r.addr), r.size)] else [])
    ensures |Filter(log + [r], ReadOf(a, p))| == |Filter(log, ReadOf(a, p))| + (if ReadOf(a, p)(r) then 1 else 0)
  {
    var reply := Reply(ApplyAll(cells, Ops(log)), r);
    RepliesPush(cells, log, r);
    FilterAppend(Replies(cells, log), reply, ToUnit(a, p));
    FilterOne(reply, ToUnit(a, p));
    FilterPush(log, r, ReadOf(a, p));
  }

  lemma {:induction false} RepliesAndReads(cells: nat -> Word, log: seq<ChanReq>, a: nat, p: nat)
    ensures |Filter(Replies(cells, log), ToUnit(a, p))| == |Filter(log, ReadOf(a, p))|
    decreases |log|
  {
    if log != [] {
      var before, r := Last(log);
      RepliesAndReads(cells, before, a, p);
      ReplyCount(cells, before, r, a, p);
    }
  }

  /** A unit's reply number `m` answers its read number `m`, with the value at that point. */
  lemma {:induction false} ReplyOf(cells: nat -> Word, log: seq<ChanReq>, a: nat, p: nat, m: nat) returns (pos: nat)
    requires m < |Filter(Replies(cells, log), ToUnit(a, p))|
    ensures pos < |log| && ReadOf(a, p)(log[pos]) && |Filter(log[..pos], ReadOf(a, p))| == m
    ensures Filter(Replies(cells, log), ToUnit(a, p))[m]
         == Resp(p, a, log[pos].channel, ApplyAll(cells, Ops(log[..pos]))(log[pos].addr), log[pos].size)
    decreases |log|
  {
    assert Replies(cells, []) == [];
    var before, r := Last(log);
    RepliesAndReads(cells, before, a, p);
    ReplyCount(cells, before, r, a, p);
    if m < |Filter(Replies(cells, before), ToUnit(a, p))| {
      pos := ReplyOf(cells, before, a, p, m);
      assert before[..pos] == log[..pos];
    } else {
      pos := |before|;
      assert log[..pos] == before;
    }
  }

  /** A unit's reads in a channel's log are the port's reads for that channel, in order. */
  lemma LoggedReads(cfg: Config, a: nat, p: nat, c: nat, phys: seq<Request>, log: seq<ChanReq>)
    requires Filter(log, FromUnit(a, p)) <= Lane(cfg, a, p, phys, c)
    ensures Filter(log, ReadOf(a, p)) <= Map(Filter(Filter(phys, Reading()), OnChannel(cfg, c)), ToChan(cfg, a, p))
  {
    FilterTwice(log, FromUnit(a, p), IsRead(), ReadOf(a, p));
    FilterPrefix(Filter(log, FromUnit(a, p)), Lane(cfg, a, p, phys, c), IsRead());
    FilterMap(Filter(phys, OnChannel(cfg, c)), ToChan(cfg, a, p), IsRead(), Reading());
    FilterTwice(phys, OnChannel(cfg, c), Reading(), ReadOn(cfg, c));
    FilterTwice(phys, Reading(), OnChannel(cfg, c), ReadOn(cfg, c));
  }

  function ReadersOf(cfg: Config, cells: nat -> (nat -> Word), ins: seq<Input>, a: nat, p: nat): seq<Request> {
    Filter(Map(AllAccepted(cfg, cells, ins, a, p), ToPhysical(cfg, a)), Reading())
  }

  function ChannelKey(cfg: Config): Request -> nat { (r: Request) => ChannelOf(cfg, r.addr) }

  /** Responses and reads that agree in channel up to `k` agree in their number on each channel. */
  lemma SameNumber(cfg: Config, mrg: seq<Resp>, readers: seq<Request>, k: nat, c: nat)
    requires k <= |mrg| && k <= |readers|
    requires forall i :: 0 <= i < k ==> mrg[i].channel == ChannelOf(cfg, readers[i].addr)
    ensures |Filter(mrg[..k], ViaChannel(c))| == |Filter(readers[..k], OnChannel(cfg, c))|
  {
    forall i | 0 <= i < k ensures RespChannel()(mrg[..k][i]) == ChannelKey(cfg)(readers[..k][i]) {}
    SameCount(mrg[..k], readers[..k], RespChannel(), ChannelKey(cfg), c);
    FilterAgree(mrg[..k], OnKey(RespChannel(), c), ViaChannel(c));
    FilterAgree(readers[..k], OnKey(ChannelKey(cfg), c), OnChannel(cfg, c));
  }

  /** The k-th response answers the k-th read and no other: it carries the value the cell had when
      that very read was taken in its channel's order. */
  lemma EachReadItsAnswer(cfg: Config, cells: nat -> (nat -> Word), ins: seq<Input>, a: nat, p: nat, k: nat) returns (pos: nat)
    requires k < |AllDelivered(cfg, cells, ins, a, p)|
    ensures k < |ReadersOf(cfg, cells, ins, a, p)|
    ensures var readers := ReadersOf(cfg, cells, ins, a, p);
            var c := ChannelOf(cfg, readers[k].addr);
            var log := HistOf(cfg, cells, ins).log(c);
            && pos < |log| && log[pos] == ToChan(cfg, a, p)(readers[k])
            && |Filter(log[..pos], ReadOf(a, p))| == |Filter(readers[..k], OnChannel(cfg, c))|
            && AllDelivered(cfg, cells, ins, a, p)[k]
               == Response(ApplyAll(cells(c), Ops(log[..pos]))(LocalOf(cfg, readers[k].addr)), readers[k].size)
  {
    var h, readers := HistOf(cfg, cells, ins), ReadersOf(cfg, cells, ins, a, p);
    var mrg := h.mrg(a, p);
    ChannelsAreSequential(cfg, cells, ins, a, p, 0);
    MergedFacts(cfg, a, p, mrg, readers, AllDelivered(cfg, cells, ins, a, p), Run(cfg, cells, ins).rm(a, p).outQ);
    var c := ChannelOf(cfg, readers[k].addr);
    ChannelsAreSequential(cfg, cells, ins, a, p, c);
    LoggedReads(cfg, a, p, c, Map(AllAccepted(cfg, cells, ins, a, p), ToPhysical(cfg, a)), h.log(c));
    hide Filter, Map, HistOf, Run, AllAccepted, AllDelivered, ReadersOf, Replies, ApplyAll;
    pos := AnswerAt(cfg, cells(c), a, p, c, mrg, readers, h.log(c), k);
  }

  lemma MergedFacts(cfg: Config, a: nat, p: nat, mrg: seq<Resp>, readers: seq<Request>, del: seq<Response>, outQ: seq<Response>)
    requires Map(mrg, RespTag()) <= Map(readers, TagOfRequest(cfg, a, p)) && Map(mrg, ToResponse()) == del + outQ
    ensures |del| <= |mrg| <= |readers|
    ensures forall i :: 0 <= i < |mrg| ==> mrg[i].channel == ChannelOf(cfg, readers[i].addr)
    ensures forall i :: 0 <= i < |del| ==> del[i] == ToResponse()(mrg[i])
  {
    assert |Map(mrg, ToResponse())| == |del| + |outQ|;
    forall i | 0 <= i < |mrg| ensures mrg[i].channel == ChannelOf(cfg, readers[i].addr) {
      assert Map(mrg, RespTag())[i] == Map(readers, TagOfRequest(cfg, a, p))[i];
    }
    forall i | 0 <= i < |del| ensures del[i] == ToResponse()(mrg[i]) { assert (del + outQ)[i] == Map(mrg, ToResponse())[i]; }
  }

  lemma AnswerAt(cfg: Config, cells: nat -> Word, a: nat, p: nat, c: nat, mrg: seq<Resp>, readers: seq<Request>,
                 log: seq<ChanReq>, k: nat) returns (pos: nat)
    requires k < |mrg| <= |readers| && c == ChannelOf(cfg, readers[k].addr)
    requires forall i :: 0 <= i < |mrg| ==> mrg[i].channel == ChannelOf(cfg, readers[i].addr)
    requires Filter(mrg, ViaChannel(c)) <= Filter(Replies(cells, log), ToUnit(a, p))
    requires Filter(log, ReadOf(a, p)) <= Map(Filter(readers, OnChannel(cfg, c)), ToChan(cfg, a, p))
    ensures pos < |log| && log[pos] == ToChan(cfg, a, p)(readers[k])
    ensures |Filter(log[..pos], ReadOf(a, p))| == |Filter(readers[..k], OnChannel(cfg, c))|
    ensures ToResponse()(mrg[k]) == Response(ApplyAll(cells, Ops(log[..pos]))(LocalOf(cfg, readers[k].addr)), readers[k].size)
  {
    hide Filter, Replies, ApplyAll, Ops;
    var m := |Filter(mrg[..k], ViaChannel(c))|;
    FilterIndex(mrg, k, ViaChannel(c));
    pos := ReplyOf(cells, log, a, p, m);
    SameNumber(cfg, mrg, readers, k, c);
    FilterIndex(log, pos, ReadOf(a, p));
    FilterIndex(readers, k, OnChannel(cfg, c));
  }
}
