/** The register front end: requests go to the application named by address bits 15 to 13, answers
    wait in one queue per application and leave in round-robin turns. */
module SoftReg {
  import opened Streams
  import opened Arithmetic
  import Fifo
  import opened Arbiter
  import opened AxiLite

  /** An application number as three bits. */
  function Bits(app: nat): (b: bv32)
    requires app < 8
    ensures b < 8 && b as nat == app
  {
    if app < 4 then (if app < 2 then (if app == 0 then 0 else 1) else (if app == 2 then 2 else 3))
    else (if app < 6 then (if app == 4 then 4 else 5) else (if app == 6 then 6 else 7))
  }

  predicate RoutedTo(addr: Half, app: nat)
    requires app < 8
  {
    ((addr >> 13) & 7) == Bits(app)
  }

  /** What an application sees: its own requests, the application number removed. */
  function Routed(req: Option<SrReq>, app: nat): Option<SrReq>
    requires app < 8
  {
    if req.None? || !RoutedTo(req.value.addr, app) then None
    else Some(req.value.(addr := req.value.addr & 0x1FFF))
  }

  /** A request reaches exactly one of eight applications. */
  lemma RouteIsUnique(addr: Half, a: nat, b: nat)
    requires a < 8 && b < 8 && RoutedTo(addr, a) && RoutedTo(addr, b)
    ensures a == b
  {
  }

  // The same in numbers.

  lemma TopByte(x: Half)
    ensures Num(x) == Num(x >> 24) * 0x100_0000 + Num(x & 0xFF_FFFF)
  {
  }

  lemma NextByte(x: Half)
    requires x < 0x100_0000
    ensures Num(x) == Num(x >> 16) * 0x1_0000 + Num(x & 0xFFFF)
  {
  }

  lemma LowBits(x: Half)
    requires x < 0x1_0000
    ensures Num(x) == Num(x >> 13) * 8192 + Num(x & 0x1FFF)
  {
  }

  lemma Small(x: Half)
    ensures x < 8 ==> Num(x) < 8
    ensures x < 0x2000 ==> Num(x) < 8192
  {
  }

  lemma Masks(x: Half)
    ensures x & 0xFF_FFFF < 0x100_0000 && (x & 0xFF_FFFF) & 0xFFFF < 0x1_0000
    ensures ((x & 0xFF_FFFF) & 0xFFFF) >> 13 == (x >> 13) & 7 && ((x & 0xFF_FFFF) & 0xFFFF) & 0x1FFF == x & 0x1FFF
    ensures (x >> 13) & 7 < 8 && x & 0x1FFF < 0x2000
  {
  }

  lemma Digits(n: nat, top: nat, next: nat, app: nat, low: nat)
    requires n == top * 0x100_0000 + (next * 0x1_0000 + (app * 8192 + low)) && app < 8 && low < 8192
    ensures n / 8192 % 8 == app && n % 8192 == low
  {
    DivModUnique(top * 2048 + next * 8 + app, low, 8192);
    DivModUnique(top * 256 + next, app, 8);
  }

  /** Three bits of an address name an application, the thirteen below them a byte of its own. */
  lemma AddressDigits(x: Half)
    ensures Num((x >> 13) & 7) == Num(x) / 8192 % 8
    ensures Num(x & 0x1FFF) == Num(x) % 8192
  {
    hide Num;
    var y := x & 0xFF_FFFF;
    var z := y & 0xFFFF;
    Masks(x);
    TopByte(x);
    NextByte(y);
    LowBits(z);
    Small((x >> 13) & 7);
    Small(x & 0x1FFF);
    Digits(Num(x), Num(x >> 24), Num(y >> 16), Num(z >> 13), Num(z & 0x1FFF));
  }

  lemma NamesApp(x: Half, app: nat)
    requires app < 8
    ensures RoutedTo(x, app) <==> Num((x >> 13) & 7) == app
  {
    Masks(x);
    SameNumber((x >> 13) & 7, Bits(app));
  }

  lemma SameNumber(x: bv32, y: bv32)
    requires x < 8 && y < 8
    ensures x == y <==> x as nat == y as nat
  {
  }

  /** Each application owns 8192 bytes of addresses, repeating every 65536, and sees a request for
      them with the address counted from their start. */
  lemma RoutedByNumber(r: SrReq, app: nat)
    requires app < 8
    ensures Routed(Some(r), app).Some? <==> Num(r.addr) / 8192 % 8 == app
    ensures Routed(Some(r), app).Some? ==>
              var seen := Routed(Some(r), app).value;
              (seen.Write? <==> r.Write?) && (r.Write? ==> seen.data == r.data) && Num(seen.addr) == Num(r.addr) % 8192
  {
    hide RoutedTo, Num;
    AddressDigits(r.addr);
    NamesApp(r.addr, app);
  }

  datatype Front = Front(tree: Tree, queues: seq<seq<bv64>>)

  predicate Wired(f: Front) { |f.queues| == Width(f.tree) <= 8 }

  function Asking(f: Front): (r: seq<bool>)
    ensures |r| == |f.queues|
  {
    seq(|f.queues|, a requires 0 <= a < |f.queues| => f.queues[a] != [])
  }

  /** The application whose answer leaves this cycle. */
  function Served(f: Front): (r: Option<nat>)
    requires Wired(f)
    ensures r.Some? ==> r.value < |f.queues| && f.queues[r.value] != []
    ensures r.None? <==> forall a :: 0 <= a < |f.queues| ==> f.queues[a] == []
  {
    assert forall a :: 0 <= a < |f.queues| ==> (f.queues[a] != [] <==> Asking(f)[a]);
    assert forall a :: 0 <= a < |f.queues| && Asking(f)[a] ==> true in Asking(f);
    Pick(f.tree, Asking(f))
  }

  function Answer(f: Front): (r: Option<bv64>)
    requires Wired(f)
  {
    if Served(f).Some? then Some(f.queues[Served(f).value][0]) else None
  }

  /** One clock edge; answers of applications that are not enabled are ignored. */
  function NextFront(f: Front, depth: nat, enable: seq<bool>, answers: seq<Option<bv64>>): (f': Front)
    requires Wired(f) && |enable| == |answers| == |f.queues|
    ensures Wired(f')
  {
    Front(Step(f.tree, Asking(f), true),
          seq(|f.queues|, a requires 0 <= a < |f.queues| =>
            Fifo.Next(f.queues[a], depth, if enable[a] then answers[a] else None, Served(f) == Some(a))))
  }

  // Answers take turns.

  datatype FrontIn = FrontIn(enable: seq<bool>, answers: seq<Option<bv64>>)

  predicate FitFront(f: Front, inputs: seq<FrontIn>) {
    forall k :: 0 <= k < |inputs| ==> |inputs[k].enable| == |inputs[k].answers| == |f.queues|
  }

  function RunFront(f: Front, depth: nat, inputs: seq<FrontIn>): (f': Front)
    requires Wired(f) && FitFront(f, inputs)
    ensures Wired(f') && |f'.queues| == |f.queues|
    decreases |inputs|
  {
    if inputs == [] then f
    else RunFront(NextFront(f, depth, inputs[0].enable, inputs[0].answers), depth, inputs[1..])
  }

  lemma TurnNears(f: Front, depth: nat, i: FrontIn, a: nat)
    requires Wired(f) && |i.enable| == |i.answers| == |f.queues| && a < |f.queues| && f.queues[a] != [] && Served(f) != Some(a)
    ensures var f' := NextFront(f, depth, i.enable, i.answers);
            f'.queues[a] != [] && f'.queues[a][0] == f.queues[a][0] && Rank(f'.tree, a) < Rank(f.tree, a)
  {
    assert Asking(f)[a];
    PassedOver(f.tree, Asking(f), a);
    hide Rank, Step, Asking;
  }

  lemma RunOneMore(f: Front, depth: nat, inputs: seq<FrontIn>, rest: nat)
    requires Wired(f) && inputs != [] && FitFront(f, inputs) && rest < |inputs|
    ensures |inputs[0].enable| == |inputs[0].answers| == |f.queues|
    ensures var f' := NextFront(f, depth, inputs[0].enable, inputs[0].answers);
            && |f'.queues| == |f.queues| && FitFront(f', inputs[1..]) && FitFront(f', inputs[1..][..rest]) && FitFront(f, inputs[..rest + 1])
            && RunFront(f, depth, inputs[..rest + 1]) == RunFront(f', depth, inputs[1..][..rest])
  {
    assert inputs[..rest + 1][0] == inputs[0] && inputs[..rest + 1][1..] == inputs[1..][..rest];
    hide Served, Step;
  }

  lemma {:induction false} RankedTurn(f: Front, depth: nat, inputs: seq<FrontIn>, a: nat) returns (k: nat)
    requires Wired(f) && FitFront(f, inputs) && a < |f.queues| && f.queues[a] != [] && |inputs| > Rank(f.tree, a)
    ensures k <= Rank(f.tree, a) && FitFront(f, inputs[..k])
    ensures Served(RunFront(f, depth, inputs[..k])) == Some(a) && RunFront(f, depth, inputs[..k]).queues[a] != []
    ensures RunFront(f, depth, inputs[..k]).queues[a][0] == f.queues[a][0]
    decreases Rank(f.tree, a)
  {
    if Served(f) == Some(a) {
      k := 0;
    } else {
      RunOneMore(f, depth, inputs, 0);
      hide RunFront, FitFront, Served, Rank, NextFront;
      TurnNears(f, depth, inputs[0], a);
      var rest := RankedTurn(NextFront(f, depth, inputs[0].enable, inputs[0].answers), depth, inputs[1..], a);
      RunOneMore(f, depth, inputs, rest);
      k := rest + 1;
    }
  }

  /** No application's answer waits long: whatever the others answer, the oldest one of application
      `a` leaves within as many inputs as there are applications. */
  lemma AnswersTakeTurns(f: Front, logApps: nat, depth: nat, inputs: seq<FrontIn>, a: nat) returns (k: nat)
    requires Wired(f) && Complete(f.tree, logApps) && FitFront(f, inputs) && a < |f.queues| && f.queues[a] != []
    requires |inputs| >= |f.queues|
    ensures k < |f.queues| && FitFront(f, inputs[..k])
    ensures Served(RunFront(f, depth, inputs[..k])) == Some(a) && Answer(RunFront(f, depth, inputs[..k])) == Some(f.queues[a][0])
  {
    CompleteRank(f.tree, a, logApps);
    CompleteWidth(f.tree, logApps);
    hide RunFront, FitFront, Served, Rank;
    k := RankedTurn(f, depth, inputs, a);
  }

  /** An answer is queued exactly when its application is enabled and has fewer waiting than the queue
      holds. */
  lemma AnswersAreKept(f: Front, depth: nat, i: FrontIn, a: nat)
    requires Wired(f) && |i.enable| == |i.answers| == |f.queues| && a < |f.queues|
    ensures NextFront(f, depth, i.enable, i.answers).queues[a]
         == (if Served(f) == Some(a) then f.queues[a][1..] else f.queues[a])
          + (if i.enable[a] && |f.queues[a]| < depth then Opt(i.answers[a]) else [])
  {
    hide Served, Step;
  }

  class AmorphOSSoftReg {
    const depth: nat
    var arbiter: Tree
    var respQueues: seq<seq<bv64>>

    constructor (logApps: nat, depth: nat)
      requires logApps <= 3
      ensures Wired(State()) && State() == Front(Reset(logApps), seq(Fifo.Pow2(logApps), _ => []))
      ensures this.depth == depth
    {
      this.depth := depth;
      arbiter := Reset(logApps);
      respQueues := seq(Fifo.Pow2(logApps), _ => []);
      CompleteWidth(Reset(logApps), logApps);
      assert Fifo.Pow2(0) == 1 && Fifo.Pow2(1) == 2 && Fifo.Pow2(2) == 4 && Fifo.Pow2(3) == 8;
    }

    function State(): Front
      reads this
    {
      Front(arbiter, respQueues)
    }

    /** The request lines to the applications. */
    method Route(req: Option<SrReq>) returns (lines: seq<Option<SrReq>>)
      requires Wired(State())
      ensures |lines| == |respQueues|
      ensures forall app :: 0 <= app < |lines| ==> lines[app] == Routed(req, app)
    {
      lines := [];
      for app := 0 to |respQueues|
        invariant |lines| == app
        invariant forall a :: 0 <= a < app ==> lines[a] == Routed(req, a)
      {
        var valid := req.Some? && ((req.value.addr >> 13) & 7) == Bits(app);
        lines := lines + [if valid then Some(req.value.(addr := req.value.addr & 0x1FFF)) else None];
      }
    }

    method RequestLines() returns (req: seq<bool>)
      ensures req == Asking(State())
    {
      req := [];
      for app := 0 to |respQueues|
        invariant req == Asking(State())[..app]
      {
        req := req + [respQueues[app] != []];
      }
    }

    method ClockQueues(enable: seq<bool>, answers: seq<Option<bv64>>, served: Option<nat>)
      requires |enable| == |answers| == |respQueues|
      modifies this`respQueues
      ensures |respQueues| == |old(respQueues)|
      ensures forall a :: 0 <= a < |respQueues| ==>
                respQueues[a] == Fifo.Next(old(respQueues)[a], depth, if enable[a] then answers[a] else None, served == Some(a))
    {
      var queues := [];
      for app := 0 to |respQueues|
        invariant respQueues == old(respQueues) && |queues| == app
        invariant forall a :: 0 <= a < app ==>
                    queues[a] == Fifo.Next(respQueues[a], depth, if enable[a] then answers[a] else None, served == Some(a))
      {
        queues := queues + [Fifo.Next(respQueues[app], depth, if enable[app] then answers[app] else None, served == Some(app))];
      }
      respQueues := queues;
    }

    method Clock(enable: seq<bool>, answers: seq<Option<bv64>>) returns (resp: Option<bv64>)
      requires Wired(State()) && |enable| == |answers| == |respQueues|
      modifies this
      ensures resp == Answer(old(State()))
      ensures State() == NextFront(old(State()), depth, enable, answers)
    {
      hide Fifo.Next, Step, Asking;
      var req := RequestLines();
      var served := Pick(arbiter, req);
      assert served == Served(State());
      resp := if served.Some? then Some(respQueues[served.value][0]) else None;
      arbiter := Step(arbiter, req, true);
      ClockQueues(enable, answers, served);
    }
  }
}
