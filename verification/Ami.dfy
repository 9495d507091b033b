/** The memory system as one synchronous machine: every unit's registers, the wires between the
    units as functions of those registers, and one clock edge. */
module Ami {
  import opened Streams
  import opened AmiTypes
  import Fifo
  import Arbiter

  // Registers. Queues hold accepted entries only, so the valid bits of the source are implied.

  datatype Xlate = Xlate(reqQ: seq<Request>, xlatedQ: seq<Request>)

  datatype Merge = Merge(reqQ: seq<ChanReq>, arb: Arbiter.Tree)

  datatype ChannelArb = ChannelArb(reqQ: seq<ChanReq>, tagQ: seq<Tag>, respQ: seq<Word>, arb: Arbiter.Tree)

  datatype RespMerge = RespMerge(tagQ: seq<Tag>, chanQ: nat -> seq<Resp>, outQ: seq<Response>)

  /** Any in-order memory: accepted operations wait their turn, reads answer when they are served. */
  datatype Memory = Memory(pend: seq<MemReq>, cells: nat -> Word)

  /** Banks of units, indexed by application, port and channel. */
  datatype State = State(
    xl: (nat, nat) -> Xlate,          // [app, port]
    mg: (nat, nat) -> Merge,          // [app, channel]
    ca: nat -> ChannelArb,            // [channel]
    mem: nat -> Memory,               // [channel]
    rm: (nat, nat) -> RespMerge)      // [app, port]

  /** What the environment drives in one cycle: the ports' requests and readiness, the enables,
      and when each channel memory accepts and serves. */
  datatype Input = Input(
    req: (nat, nat) -> Option<Request>,
    enabled: (nat, nat) -> bool,
    take: (nat, nat) -> bool,
    accept: nat -> bool,
    serve: nat -> bool)

  function Init(cfg: Config, cells: nat -> (nat -> Word)): State {
    State((a, p) => Xlate([], []),
          (a, c) => Merge([], Arbiter.Reset(cfg.portBits)),
          c => ChannelArb([], [], [], Arbiter.Reset(cfg.appBits)),
          (c: nat) => Memory([], cells(c)),
          (a, p) => RespMerge([], _ => [], []))
  }

  // Labels.

  function ToPhysical(cfg: Config, a: nat): Request -> Request {
    (r: Request) => r.(addr := Physical(cfg, a, r.addr))
  }

  function ToChan(cfg: Config, a: nat, p: nat): Request -> ChanReq {
    (r: Request) => ChanReq(r.isWrite, p, a, ChannelOf(cfg, r.addr), LocalOf(cfg, r.addr), r.data, r.size)
  }

  function Strip(): ChanReq -> MemReq {
    (r: ChanReq) => MemReq(r.isWrite, r.addr, r.data, r.size)
  }

  function TagOf(): ChanReq -> Tag {
    (r: ChanReq) => Tag(r.srcPort, r.srcApp, r.channel, r.size)
  }

  // AddressTranslate.

  /** The first queue moves its head on, translated, when the second has room. */
  function Translating(cfg: Config, x: Xlate): bool {
    x.reqQ != [] && |x.xlatedQ| < cfg.xlatedDepth
  }

  /** The request a port shows to the channel mergers; a read needs room for its tag. */
  function OfferOf(cfg: Config, x: Xlate, a: nat, p: nat, tagRoom: bool): Option<ChanReq> {
    if x.xlatedQ != [] && (x.xlatedQ[0].isWrite || tagRoom) then Some(ToChan(cfg, a, p)(x.xlatedQ[0])) else None
  }

  function Offer(cfg: Config, s: State, a: nat, p: nat): Option<ChanReq> {
    OfferOf(cfg, s.xl(a, p), a, p, |s.rm(a, p).tagQ| < cfg.tagDepth)
  }

  /** Accepted by some merger. */
  function Forwarded(cfg: Config, s: State, a: nat, p: nat): bool {
    Offer(cfg, s, a, p).Some? && exists c :: 0 <= c < cfg.Channels() && PortPick(cfg, s, a, c) == Some(p)
  }

  /** The unit's edge: `req` is the port's request, `taken` whether a merger took the offer. */
  function XlateEdge(cfg: Config, x: Xlate, a: nat, req: Option<Request>, taken: bool): Xlate {
    Xlate(Fifo.Next(x.reqQ, cfg.xlatDepth, req, Translating(cfg, x)),
          Fifo.Next(x.xlatedQ, cfg.xlatedDepth, if x.reqQ == [] then None else Some(ToPhysical(cfg, a)(x.reqQ[0])), taken))
  }

  function NextXlate(cfg: Config, s: State, i: Input, a: nat, p: nat): Xlate {
    XlateEdge(cfg, s.xl(a, p), a, if i.enabled(a, p) then i.req(a, p) else None, Forwarded(cfg, s, a, p))
  }

  // ChannelMerge.

  function PickOf(t: Arbiter.Tree, req: seq<bool>): (r: Option<nat>)
    ensures r.Some? ==> r.value < |req| && req[r.value]
  {
    if |req| == Arbiter.Width(t) then Arbiter.Pick(t, req) else None
  }

  function StepOf(t: Arbiter.Tree, req: seq<bool>): (t': Arbiter.Tree)
    ensures Arbiter.Width(t') == Arbiter.Width(t)
  {
    if |req| == Arbiter.Width(t) then Arbiter.Step(t, req, true) else t
  }

  /** A port asks when it shows a request for the channel and there is room. */
  function PortReqs(cfg: Config, s: State, a: nat, c: nat): (r: seq<bool>)
    ensures |r| == cfg.Ports()
  {
    seq(cfg.Ports(), p requires 0 <= p => Asks(Offer(cfg, s, a, p), c) && |s.mg(a, c).reqQ| < cfg.mergeDepth)
  }

  function Asks(offer: Option<ChanReq>, c: nat): bool { offer.Some? && offer.value.channel == c }

  function PortPick(cfg: Config, s: State, a: nat, c: nat): Option<nat> {
    PickOf(s.mg(a, c).arb, PortReqs(cfg, s, a, c))
  }

  function MergeIn(cfg: Config, s: State, a: nat, c: nat): Option<ChanReq> {
    match PortPick(cfg, s, a, c)
    case None => None
    case Some(p) => Offer(cfg, s, a, p)
  }

  /** The unit's edge: the ports' requests, the one picked, whether the channel takes the head. */
  function MergeEdge(cfg: Config, m: Merge, reqs: seq<bool>, picked: Option<ChanReq>, taken: bool): Merge {
    Merge(Fifo.Next(m.reqQ, cfg.mergeDepth, picked, taken), StepOf(m.arb, reqs))
  }

  function NextMerge(cfg: Config, s: State, a: nat, c: nat): Merge {
    MergeEdge(cfg, s.mg(a, c), PortReqs(cfg, s, a, c), MergeIn(cfg, s, a, c), AppPick(cfg, s, c) == Some(a))
  }

  // ChannelArbiter.

  function AppReqs(cfg: Config, s: State, c: nat): (r: seq<bool>)
    ensures |r| == cfg.Apps()
  {
    seq(cfg.Apps(), a requires 0 <= a => Wants(cfg, s.ca(c), s.mg(a, c).reqQ))
  }

  /** A queue's head asks when there is room for it, and for its tag if it reads. */
  function Wants(cfg: Config, ca: ChannelArb, q: seq<ChanReq>): bool {
    q != [] && |ca.reqQ| < cfg.arbReqDepth && (q[0].isWrite || |ca.tagQ| < cfg.arbTagDepth)
  }

  function AppPick(cfg: Config, s: State, c: nat): Option<nat> {
    PickOf(s.ca(c).arb, AppReqs(cfg, s, c))
  }

  function ArbIn(cfg: Config, s: State, c: nat): Option<ChanReq> {
    match AppPick(cfg, s, c)
    case None => None
    case Some(a) => Some(s.mg(a, c).reqQ[0])
  }

  function TagFor(r: Option<ChanReq>): Option<Tag> {
    if r.Some? && !r.value.isWrite then Some(TagOf()(r.value)) else None
  }

  function ArbTagIn(cfg: Config, s: State, c: nat): Option<Tag> { TagFor(ArbIn(cfg, s, c)) }

  /** The head of the queue goes to memory when memory accepts. */
  function Issuing(s: State, i: Input, c: nat): bool {
    s.ca(c).reqQ != [] && i.accept(c)
  }

  /** The response at the memory's output. */
  function MemResp(s: State, i: Input, c: nat): Option<Word> {
    var m := s.mem(c);
    if i.serve(c) && m.pend != [] && !m.pend[0].isWrite then Some(m.cells(m.pend[0].addr)) else None
  }

  /** The oldest response, labelled with the oldest tag. */
  function RouteOf(ca: ChannelArb): Option<Resp> {
    if ca.tagQ != [] && ca.respQ != [] then
      Some(Resp(ca.tagQ[0].srcPort, ca.tagQ[0].srcApp, ca.tagQ[0].channel, ca.respQ[0], ca.tagQ[0].size))
    else None
  }

  function Route(s: State, c: nat): Option<Resp> { RouteOf(s.ca(c)) }

  /** The response merger it is addressed to has room. */
  function Routed(cfg: Config, s: State, c: nat): bool {
    var r := Route(s, c);
    r.Some? && |s.rm(r.value.srcApp, r.value.srcPort).chanQ(c)| < cfg.chanDepth
  }

  /** The unit's edge: the applications' requests, the one picked, whether memory takes the head,
      memory's response, and whether the response merger takes the oldest one. */
  function ArbEdge(cfg: Config, ca: ChannelArb, reqs: seq<bool>, picked: Option<ChanReq>, issued: bool,
                   resp: Option<Word>, routed: bool): ChannelArb {
    ChannelArb(Fifo.Next(ca.reqQ, cfg.arbReqDepth, picked, issued),
               Fifo.Next(ca.tagQ, cfg.arbTagDepth, TagFor(picked), routed),
               Fifo.Next(ca.respQ, cfg.arbRespDepth, resp, routed),
               StepOf(ca.arb, reqs))
  }

  function NextArb(cfg: Config, s: State, i: Input, c: nat): ChannelArb {
    ArbEdge(cfg, s.ca(c), AppReqs(cfg, s, c), ArbIn(cfg, s, c), Issuing(s, i, c), MemResp(s, i, c), Routed(cfg, s, c))
  }

  // The channel memory.

  function Apply(cells: nat -> Word, op: MemReq): nat -> Word {
    if op.isWrite then ((x: nat) => if x == op.addr then op.data else cells(x)) else cells
  }

  /** The operation performed this cycle: a read needs its response to be granted. */
  function Served(cfg: Config, s: State, i: Input, c: nat): seq<MemReq> {
    var m := s.mem(c);
    if i.serve(c) && m.pend != [] && (m.pend[0].isWrite || |s.ca(c).respQ| < cfg.arbRespDepth) then [m.pend[0]] else []
  }

  function NextMem(cfg: Config, s: State, i: Input, c: nat): Memory {
    var m := s.mem(c);
    var served := Served(cfg, s, i, c);
    var arriving := if Issuing(s, i, c) then [Strip()(s.ca(c).reqQ[0])] else [];
    if served == [] then m.(pend := m.pend + arriving)
    else Memory(m.pend[1..] + arriving, Apply(m.cells, served[0]))
  }

  // RespMerge.

  function TagIn(cfg: Config, s: State, a: nat, p: nat): Option<Tag> {
    var offer := Offer(cfg, s, a, p);
    if Forwarded(cfg, s, a, p) then TagFor(offer) else None
  }

  function RespIn(s: State, a: nat, p: nat, c: nat): Option<Resp> {
    var r := Route(s, c);
    if r.Some? && r.value.srcApp == a && r.value.srcPort == p then r else None
  }

  /** The oldest tag names the channel whose response goes out next. */
  function MergeGrant(cfg: Config, r: RespMerge, c: nat): bool {
    && |r.outQ| < cfg.outDepth && r.chanQ(c) != [] && r.tagQ != []
    && r.chanQ(c)[0].channel == r.tagQ[0].channel
  }

  function MergePick(cfg: Config, r: RespMerge): (c: Option<nat>)
    ensures c.Some? ==> c.value < cfg.Channels() && MergeGrant(cfg, r, c.value)
    ensures c.None? ==> forall k :: 0 <= k < cfg.Channels() ==> !MergeGrant(cfg, r, k)
  {
    var grant := seq(cfg.Channels(), k requires 0 <= k => MergeGrant(cfg, r, k));
    assert forall k :: 0 <= k < cfg.Channels() ==> grant[k] == MergeGrant(cfg, r, k);
    Arbiter.Encode(grant)
  }

  function ToResponse(): Resp -> Response {
    (r: Resp) => Response(r.data, r.size)
  }

  function MergeOut(cfg: Config, r: RespMerge): Option<Resp> {
    match MergePick(cfg, r)
    case None => None
    case Some(c) => Some(r.chanQ(c)[0])
  }

  function OutIn(cfg: Config, r: RespMerge): Option<Response> {
    match MergeOut(cfg, r)
    case None => None
    case Some(x) => Some(ToResponse()(x))
  }

  /** The edge of one channel's queue of the unit. */
  function ChanEdge(cfg: Config, r: RespMerge, c: nat, resp: Option<Resp>): seq<Resp> {
    Fifo.Next(r.chanQ(c), cfg.chanDepth, resp, c < cfg.Channels() && MergeGrant(cfg, r, c))
  }

  function TagEdge(cfg: Config, r: RespMerge, tag: Option<Tag>): seq<Tag> {
    Fifo.Next(r.tagQ, cfg.tagDepth, tag, MergePick(cfg, r).Some?)
  }

  function OutEdge(cfg: Config, r: RespMerge, take: bool): seq<Response> {
    Fifo.Next(r.outQ, cfg.outDepth, OutIn(cfg, r), take)
  }

  function NextRespMerge(cfg: Config, s: State, i: Input, a: nat, p: nat): RespMerge {
    var r := s.rm(a, p);
    RespMerge(TagEdge(cfg, r, TagIn(cfg, s, a, p)),
              (c: nat) => ChanEdge(cfg, r, c, RespIn(s, a, p, c)),
              OutEdge(cfg, r, i.enabled(a, p) && i.take(a, p)))
  }

  // One clock edge of everything.

  function Next(cfg: Config, s: State, i: Input): State {
    State((a: nat, p: nat) => NextXlate(cfg, s, i, a, p),
          (a: nat, c: nat) => NextMerge(cfg, s, a, c),
          (c: nat) => NextArb(cfg, s, i, c),
          (c: nat) => NextMem(cfg, s, i, c),
          (a: nat, p: nat) => NextRespMerge(cfg, s, i, a, p))
  }

  // What a port sees.

  function Accepted(cfg: Config, s: State, i: Input, a: nat, p: nat): seq<Request> {
    Fifo.Taken(s.xl(a, p).reqQ, cfg.xlatDepth, if i.enabled(a, p) then i.req(a, p) else None)
  }

  function Delivered(s: State, i: Input, a: nat, p: nat): seq<Response> {
    Fifo.Given(s.rm(a, p).outQ, i.enabled(a, p) && i.take(a, p))
  }

  function Run(cfg: Config, cells: nat -> (nat -> Word), ins: seq<Input>): State {
    if ins == [] then Init(cfg, cells)
    else Next(cfg, Run(cfg, cells, ins[..|ins| - 1]), ins[|ins| - 1])
  }

  /** All requests a port has had accepted in a run, and all responses it has been given. */
  function AllAccepted(cfg: Config, cells: nat -> (nat -> Word), ins: seq<Input>, a: nat, p: nat): seq<Request> {
    if ins == [] then []
    else
      var before := ins[..|ins| - 1];
      AllAccepted(cfg, cells, before, a, p) + Accepted(cfg, Run(cfg, cells, before), ins[|ins| - 1], a, p)
  }

  function AllDelivered(cfg: Config, cells: nat -> (nat -> Word), ins: seq<Input>, a: nat, p: nat): seq<Response> {
    if ins == [] then []
    else
      var before := ins[..|ins| - 1];
      AllDelivered(cfg, cells, before, a, p) + Delivered(Run(cfg, cells, before), ins[|ins| - 1], a, p)
  }
}
