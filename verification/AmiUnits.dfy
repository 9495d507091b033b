/** The units of the memory system as they are built: one object each, its queues and arbiter as
    fields, clocked by the same edges the system step is made of. */
module AmiUnits {
  import opened Streams
  import opened AmiTypes
  import opened Ami
  import Fifo
  import Arbiter

  class AddressTranslate {
    const cfg: Config
    const srcApp: nat
    const srcPort: nat
    var memReqQ: seq<Request>
    var xlatedReqQ: seq<Request>

    constructor (cfg: Config, srcApp: nat, srcPort: nat)
      ensures this.cfg == cfg && this.srcApp == srcApp && this.srcPort == srcPort && State() == Xlate([], [])
    {
      this.cfg, this.srcApp, this.srcPort := cfg, srcApp, srcPort;
      memReqQ, xlatedReqQ := [], [];
    }

    function State(): Xlate
      reads this
    {
      Xlate(memReqQ, xlatedReqQ)
    }

    /** The request shown to the mergers, on the wire of its channel. */
    method Outputs(tagQFull: bool) returns (lines: seq<Option<ChanReq>>)
      ensures |lines| == cfg.Channels()
      ensures forall c :: 0 <= c < |lines| ==>
                var offer := OfferOf(cfg, State(), srcApp, srcPort, !tagQFull);
                lines[c] == if Asks(offer, c) then offer else None
    {
      lines := [];
      for c := 0 to cfg.Channels()
        invariant |lines| == c
        invariant forall k :: 0 <= k < c ==>
                    var offer := OfferOf(cfg, State(), srcApp, srcPort, !tagQFull);
                    lines[k] == if Asks(offer, k) then offer else None
      {
        var line := None;
        if xlatedReqQ != [] {
          var r := xlatedReqQ[0];
          if ChannelOf(cfg, r.addr) == c && (if !r.isWrite then !tagQFull else true) {
            line := Some(ChanReq(r.isWrite, srcPort, srcApp, c, LocalOf(cfg, r.addr), r.data, r.size));
          }
        }
        lines := lines + [line];
      }
    }

    method Clock(req: Option<Request>, taken: bool) returns (grant: bool)
      modifies this
      ensures grant == (req.Some? && |old(memReqQ)| < cfg.xlatDepth)
      ensures State() == XlateEdge(cfg, old(State()), srcApp, req, taken)
    {
      grant := req.Some? && |memReqQ| < cfg.xlatDepth;
      var translating := memReqQ != [] && |xlatedReqQ| < cfg.xlatedDepth;
      var translated := None;
      if memReqQ != [] {
        translated := Some(memReqQ[0].(addr := Physical(cfg, srcApp, memReqQ[0].addr)));
      }
      xlatedReqQ := Fifo.Next(xlatedReqQ, cfg.xlatedDepth, translated, taken);
      memReqQ := Fifo.Next(memReqQ, cfg.xlatDepth, req, translating);
    }
  }

  class ChannelMerge {
    const cfg: Config
    const channel: nat
    var reqQ: seq<ChanReq>
    var portArbiter: Arbiter.Tree

    constructor (cfg: Config, channel: nat)
      ensures this.cfg == cfg && this.channel == channel && State() == Merge([], Arbiter.Reset(cfg.portBits))
    {
      this.cfg, this.channel := cfg, channel;
      reqQ, portArbiter := [], Arbiter.Reset(cfg.portBits);
    }

    function State(): Merge
      reads this
    {
      Merge(reqQ, portArbiter)
    }

    /** The ports' lines in, one bit each out to the arbiter. */
    method RequestLines(offers: seq<Option<ChanReq>>) returns (req: seq<bool>)
      ensures |req| == |offers|
      ensures forall p :: 0 <= p < |req| ==> req[p] == (offers[p].Some? && |reqQ| < cfg.mergeDepth)
    {
      req := [];
      for p := 0 to |offers|
        invariant |req| == p
        invariant forall k :: 0 <= k < p ==> req[k] == (offers[k].Some? && |reqQ| < cfg.mergeDepth)
      {
        req := req + [offers[p].Some? && |reqQ| < cfg.mergeDepth];
      }
    }

    method Clock(offers: seq<Option<ChanReq>>, taken: bool) returns (req: seq<bool>, granted: Option<nat>)
      requires |offers| == Arbiter.Width(portArbiter)
      modifies this
      ensures |req| == |offers| && forall p :: 0 <= p < |req| ==> req[p] == (offers[p].Some? && |old(reqQ)| < cfg.mergeDepth)
      ensures granted == PickOf(old(portArbiter), req)
      ensures State() == MergeEdge(cfg, old(State()), req, if granted.Some? then offers[granted.value] else None, taken)
    {
      req := RequestLines(offers);
      granted := Arbiter.Pick(portArbiter, req);
      portArbiter := Arbiter.Step(portArbiter, req, true);
      reqQ := Fifo.Next(reqQ, cfg.mergeDepth, if granted.Some? then offers[granted.value] else None, taken);
    }
  }

  class ChannelArbiter {
    const cfg: Config
    var chanArbReqQ: seq<ChanReq>
    var respTagQ: seq<Tag>
    var memReadRespQ: seq<Word>
    var reqArbiter: Arbiter.Tree

    constructor (cfg: Config)
      ensures this.cfg == cfg && State() == ChannelArb([], [], [], Arbiter.Reset(cfg.appBits))
    {
      this.cfg := cfg;
      chanArbReqQ, respTagQ, memReadRespQ, reqArbiter := [], [], [], Arbiter.Reset(cfg.appBits);
    }

    function State(): ChannelArb
      reads this
    {
      ChannelArb(chanArbReqQ, respTagQ, memReadRespQ, reqArbiter)
    }

    /** The oldest response with the oldest tag, and whom it selects. */
    method RouteResponse() returns (resp: Option<Resp>)
      ensures resp == RouteOf(State())
    {
      resp := None;
      if respTagQ != [] && memReadRespQ != [] {
        var tag := respTagQ[0];
        resp := Some(Resp(tag.srcPort, tag.srcApp, tag.channel, memReadRespQ[0], tag.size));
      }
    }

    method RequestLines(heads: seq<seq<ChanReq>>) returns (req: seq<bool>)
      ensures |req| == |heads|
      ensures forall a :: 0 <= a < |req| ==> req[a] == Wants(cfg, State(), heads[a])
    {
      req := [];
      for a := 0 to |heads|
        invariant |req| == a
        invariant forall k :: 0 <= k < a ==> req[k] == Wants(cfg, State(), heads[k])
      {
        var ask := false;
        if heads[a] != [] {
          ask := |chanArbReqQ| < cfg.arbReqDepth && (if heads[a][0].isWrite then true else |respTagQ| < cfg.arbTagDepth);
        }
        req := req + [ask];
      }
    }

    /** `heads` are the mergers' queues, of which only the head is seen. */
    method Clock(heads: seq<seq<ChanReq>>, memGrant: bool, memResp: Option<Word>, respGrant: bool)
      returns (req: seq<bool>, granted: Option<nat>)
      requires |heads| == Arbiter.Width(reqArbiter)
      modifies this
      ensures |req| == |heads| && forall a :: 0 <= a < |req| ==> req[a] == Wants(cfg, old(State()), heads[a])
      ensures granted == PickOf(old(reqArbiter), req)
      ensures granted.Some? ==> granted.value < |heads| && heads[granted.value] != []
      ensures State() == ArbEdge(cfg, old(State()), req, if granted.Some? then Some(heads[granted.value][0]) else None,
                                 memGrant, memResp, respGrant)
    {
      hide Fifo.Next, Arbiter.Step;
      req := RequestLines(heads);
      granted := Arbiter.Pick(reqArbiter, req);
      var reqIn, tagIn := None, None;
      if granted.Some? {
        var r := heads[granted.value][0];
        reqIn := Some(r);
        if !r.isWrite { tagIn := Some(Tag(r.srcPort, r.srcApp, r.channel, r.size)); }
      }
      assert tagIn == TagFor(reqIn);
      reqArbiter := Arbiter.Step(reqArbiter, req, true);
      chanArbReqQ := Fifo.Next(chanArbReqQ, cfg.arbReqDepth, reqIn, memGrant);
      respTagQ := Fifo.Next(respTagQ, cfg.arbTagDepth, tagIn, respGrant);
      memReadRespQ := Fifo.Next(memReadRespQ, cfg.arbRespDepth, memResp, respGrant);
    }
  }

  class RespMergeUnit {
    const cfg: Config
    var memTagQ: seq<Tag>
    var channelQs: seq<seq<Resp>>
    var outQ: seq<Response>

    constructor (cfg: Config)
      ensures this.cfg == cfg && Wired()
      ensures memTagQ == [] && outQ == [] && channelQs == seq(cfg.Channels(), _ => [])
    {
      this.cfg := cfg;
      memTagQ, channelQs, outQ := [], seq(cfg.Channels(), _ => []), [];
    }

    predicate Wired()
      reads this
    {
      |channelQs| == cfg.Channels()
    }

    ghost function State(): RespMerge
      reads this
    {
      var qs := channelQs;
      RespMerge(memTagQ, (c: nat) => if c < |qs| then qs[c] else [], outQ)
    }

    /** Only the channel the oldest tag names may put its response into the output queue. */
    method Grants() returns (grant: seq<bool>)
      requires Wired()
      ensures |grant| == cfg.Channels()
      ensures forall c :: 0 <= c < |grant| ==> grant[c] == MergeGrant(cfg, State(), c)
    {
      grant := [];
      for c := 0 to cfg.Channels()
        invariant |grant| == c
        invariant forall k :: 0 <= k < c ==> grant[k] == MergeGrant(cfg, State(), k)
      {
        grant := grant + [|outQ| < cfg.outDepth && channelQs[c] != [] && memTagQ != [] && channelQs[c][0].channel == memTagQ[0].channel];
      }
    }

    method ClockChannels(resps: seq<Option<Resp>>, grant: seq<bool>)
      requires Wired() && |resps| == cfg.Channels() && |grant| == cfg.Channels()
      modifies this`channelQs
      ensures Wired()
      ensures forall c :: 0 <= c < cfg.Channels() ==> channelQs[c] == Fifo.Next(old(channelQs)[c], cfg.chanDepth, resps[c], grant[c])
    {
      var queues := [];
      for c := 0 to cfg.Channels()
        invariant channelQs == old(channelQs) && |queues| == c
        invariant forall k :: 0 <= k < c ==> queues[k] == Fifo.Next(channelQs[k], cfg.chanDepth, resps[k], grant[k])
      {
        queues := queues + [Fifo.Next(channelQs[c], cfg.chanDepth, resps[c], grant[c])];
      }
      channelQs := queues;
    }

    method Clock(tag: Option<Tag>, resps: seq<Option<Resp>>, take: bool)
      requires Wired() && |resps| == cfg.Channels()
      modifies this
      ensures Wired()
      ensures memTagQ == TagEdge(cfg, old(State()), tag)
      ensures outQ == OutEdge(cfg, old(State()), take)
      ensures forall c :: 0 <= c < cfg.Channels() ==> channelQs[c] == ChanEdge(cfg, old(State()), c, resps[c])
    {
      hide Fifo.Next, MergeGrant;
      ghost var r := State();
      var grant := Grants();
      var pick := Arbiter.Encode(grant);
      SamePick(cfg, r, grant);
      var outIn := None;
      if pick.Some? {
        var head := channelQs[pick.value][0];
        outIn := Some(Response(head.data, head.size));
      }
      assert outIn == OutIn(cfg, r);
      ClockChannels(resps, grant);
      memTagQ := Fifo.Next(memTagQ, cfg.tagDepth, tag, pick.Some?);
      outQ := Fifo.Next(outQ, cfg.outDepth, outIn, take);
    }
  }

  lemma SamePick(cfg: Config, r: RespMerge, grant: seq<bool>)
    requires |grant| == cfg.Channels() && forall c :: 0 <= c < |grant| ==> grant[c] == MergeGrant(cfg, r, c)
    ensures Arbiter.Encode(grant) == MergePick(cfg, r)
    ensures MergePick(cfg, r).Some? ==> r.chanQ(MergePick(cfg, r).value) != []
  {
    assert grant == seq(cfg.Channels(), k requires 0 <= k => MergeGrant(cfg, r, k));
  }
}
