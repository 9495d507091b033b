/** The memory driver's check is exact: a program and its read-back can be run to the end, and every
    such run ends without errors if and only if no two requests share an address. */
module MemDriveExact {
  import opened Streams
  import opened Arithmetic
  import Fifo
  import opened MemDrive

  /** A run that ends in this state. */
  ghost predicate Reaches(c: Config, m: Memory, envs: seq<Env>, s: Drive, h: Hist) {
    Served(c, m, envs) && After(c, envs) == (s, h)
  }

  lemma Go(c: Config, m: Memory, envs: seq<Env>, s: Drive, h: Hist, e: Env)
    requires Reaches(c, m, envs, s, h) && Serves(m, h, e)
    ensures Reaches(c, m, envs + [e], Next(c, s, e.wires), Record(c, s, e, h))
  {
    hide Serves, Next, Record;
    assert (envs + [e])[..|envs + [e]| - 1] == envs;
  }

  /** The memory performs nothing and shows no responses. */
  function Lull(write: Option<bv64>, read: bool, grant: bool): Env {
    Env(In(write, read, grant, grant, None, None), [])
  }

  lemma GoLull(c: Config, m: Memory, envs: seq<Env>, s: Drive, h: Hist, e: Env)
    requires Reaches(c, m, envs, s, h) && e.performed == [] && e.wires.resp0 == None && e.wires.resp1 == None
    ensures Reaches(c, m, envs + [e], Next(c, s, e.wires), Record(c, s, e, h))
  {
    assert Serves(m, h, e) by {
      AfterInv(c, m, envs);
      hide Served, After, Controlled, Scripted, Counted, Answered;
      assert h.log + [] == h.log;
    }
    Go(c, m, envs, s, h, e);
  }

  // Loading a program.

  /** Nothing is waiting anywhere but in the submission queues, which are equally full. */
  predicate Calm(s: Drive) { s.inQ == [] && s.wrCount == 0 && s.credit == 0 && |s.q0| == |s.q1| }

  /** The first `k` words are loaded and the next one is waiting, or not yet. */
  function Loading(s: Drive, p: Program, k: nat, waiting: bool): Drive
    requires k < 8
  {
    s.(fsm := Programming, prog := p[..k] + s.prog[k..], wrCount := k, inQ := if waiting then [p[k]] else [])
  }

  predicate Blank(s: Drive) { s.fsm.Idle? && Calm(s) && s.q0 == [] }

  lemma LoadStep(c: Config, s: Drive, p: Program, k: nat, h: Hist)
    requires c.inDepth > 0 && k < 8 && Blank(s)
    ensures var l, e := Loading(s, p, k, true), Lull(None, false, true);
            && (k < 7 ==> Next(c, l, e.wires) == Loading(s, p, k + 1, false) && Record(c, l, e, h) == h)
            && (k == 7 ==>
                  Next(c, l, e.wires) == s.(fsm := Requesting, prog := p, sub := 0, err0 := 0, err1 := 0)
                  && Record(c, l, e, h) == h.(runs := h.runs + [p]))
    ensures var l, e := Loading(s, p, k, false), Lull(Some(p[k]), false, true);
            Next(c, l, e.wires) == Loading(s, p, k, true) && Record(c, l, e, h) == h
  {
    hide AsNat, Pattern, Writing;
    assert (p[..k] + s.prog[k..])[k := p[k]] == p[..k + 1] + s.prog[k + 1..];
  }

  lemma {:induction false} LoadFrom(c: Config, m: Memory, envs: seq<Env>, s: Drive, h: Hist, p: Program, k: nat) returns (envs': seq<Env>)
    requires c.inDepth > 0 && k < 8 && Blank(s) && Reaches(c, m, envs, Loading(s, p, k, true), h)
    ensures Reaches(c, m, envs', s.(fsm := Requesting, prog := p, sub := 0, err0 := 0, err1 := 0), h.(runs := h.runs + [p]))
    decreases 8 - k
  {
    hide Reaches, Loading, Next, Record;
    LoadStep(c, s, p, k, h);
    envs' := envs + [Lull(None, false, true)];
    GoLull(c, m, envs, Loading(s, p, k, true), h, Lull(None, false, true));
    if k < 7 {
      LoadStep(c, s, p, k + 1, h);
      GoLull(c, m, envs', Loading(s, p, k + 1, false), h, Lull(Some(p[k + 1]), false, true));
      envs' := LoadFrom(c, m, envs' + [Lull(Some(p[k + 1]), false, true)], s, h, p, k + 1);
    }
  }

  lemma FirstWord(c: Config, s: Drive, p: Program, h: Hist)
    requires c.inDepth > 0 && Blank(s)
    ensures var e := Lull(Some(p[0]), false, true); Next(c, s, e.wires) == s.(inQ := [p[0]]) && Record(c, s, e, h) == h
    ensures var s', e := s.(inQ := [p[0]]), Lull(None, false, true);
            Next(c, s', e.wires) == Loading(s, p, 0, true) && Record(c, s', e, h) == h
  {
    hide AsNat, Pattern, Writing;
    assert p[..0] + s.prog[0..] == s.prog;
  }

  lemma Load(c: Config, m: Memory, envs: seq<Env>, s: Drive, h: Hist, p: Program) returns (envs': seq<Env>)
    requires c.inDepth > 0 && Blank(s) && Reaches(c, m, envs, s, h)
    ensures Reaches(c, m, envs', s.(fsm := Requesting, prog := p, sub := 0, err0 := 0, err1 := 0), h.(runs := h.runs + [p]))
  {
    hide Reaches, Loading, Next, Record, Blank;
    FirstWord(c, s, p, h);
    GoLull(c, m, envs, s, h, Lull(Some(p[0]), false, true));
    envs' := envs + [Lull(Some(p[0]), false, true)];
    GoLull(c, m, envs', s.(inQ := [p[0]]), h, Lull(None, false, true));
    envs' := LoadFrom(c, m, envs' + [Lull(None, false, true)], s, h, p, 0);
  }

  // Submitting and draining.

  /** What the submitting phase leaves alone. */
  predicate SameOtherwise(s: Drive, h: Hist, s': Drive, h': Hist) {
    && Calm(s') && s'.prog == s.prog && s'.resp == s.resp
    && h'.runs == h.runs && h'.log == h.log && h'.got0 == h.got0 && h'.got1 == h.got1
  }

  lemma SubmitStep(c: Config, s: Drive, h: Hist)
    requires c.subDepth > 0 && s.fsm.Requesting? && Calm(s) && s.sub <= Total(s.prog)
    ensures var e := Lull(None, false, true); var s', h' := Next(c, s, e.wires), Record(c, s, e, h);
            && SameOtherwise(s, h, s', h') && (s'.fsm.AwaitResp? || s'.fsm.Requesting?)
            && (s'.q0 != [] ==> s.q0 != [] || Total(s.prog) > 0)
            && (s'.fsm.Requesting? ==>
                  s'.sub <= Total(s'.prog) && 2 * (Total(s'.prog) - s'.sub) + |s'.q0| < 2 * (Total(s.prog) - s.sub) + |s.q0|)
  {
    hide Total, Pattern, Writing, Request;
  }

  lemma {:induction false} SubmitAll(c: Config, m: Memory, envs: seq<Env>, s: Drive, h: Hist)
    returns (envs': seq<Env>, s': Drive, h': Hist)
    requires c.subDepth > 0 && s.fsm.Requesting? && Calm(s) && s.sub <= Total(s.prog) && Reaches(c, m, envs, s, h)
    ensures Reaches(c, m, envs', s', h') && s'.fsm.AwaitResp? && SameOtherwise(s, h, s', h')
    ensures s'.q0 != [] ==> s.q0 != [] || Total(s.prog) > 0
    decreases 2 * (Total(s.prog) - s.sub) + |s.q0|
  {
    hide Reaches, Next, Record, Total;
    var e := Lull(None, false, true);
    SubmitStep(c, s, h);
    GoLull(c, m, envs, s, h, e);
    envs', s', h' := envs + [e], Next(c, s, e.wires), Record(c, s, e, h);
    if s'.fsm.Requesting? {
      envs', s', h' := SubmitAll(c, m, envs', s', h');
    }
  }

  predicate Waiting(s: Drive) { s.fsm.AwaitResp? || s.fsm.CleanUp1? }

  lemma DrainStep(c: Config, s: Drive, h: Hist)
    requires Waiting(s) && Calm(s) && s.q0 != [] && (!Writing(s.prog) ==> s.resp < Total(s.prog))
    ensures var e := Lull(None, false, true); var s', h' := Next(c, s, e.wires), Record(c, s, e, h);
            && SameOtherwise(s, h, s', h') && Waiting(s') && |s'.q0| < |s.q0|
            && (s.fsm.AwaitResp? && !Writing(s.prog) ==> s'.fsm.AwaitResp?)
  {
    hide Total, Pattern, Writing, Request;
  }

  lemma {:induction false} Drain(c: Config, m: Memory, envs: seq<Env>, s: Drive, h: Hist)
    returns (envs': seq<Env>, s': Drive, h': Hist)
    requires Waiting(s) && Calm(s) && Reaches(c, m, envs, s, h)
    requires !Writing(s.prog) && s.q0 != [] ==> s.resp < Total(s.prog)
    ensures Reaches(c, m, envs', s', h') && Waiting(s') && s'.q0 == [] && SameOtherwise(s, h, s', h')
    ensures s.fsm.AwaitResp? && !Writing(s.prog) ==> s'.fsm.AwaitResp?
    decreases |s.q0|
  {
    hide Reaches, Next, Record, Total, Writing;
    envs', s', h' := envs, s, h;
    if s.q0 != [] {
      var e := Lull(None, false, true);
      DrainStep(c, s, h);
      GoLull(c, m, envs, s, h, e);
      envs', s', h' := Drain(c, m, envs + [e], Next(c, s, e.wires), Record(c, s, e, h));
    }
  }

  // Performing everything accepted.

  /** A port's requests from number `n` on, as operations. */
  function Ops(reqs: seq<Req>, second: bool, n: nat): seq<Op>
    requires n <= |reqs|
  {
    seq(|reqs| - n, i requires 0 <= i < |reqs| - n => Op(second, n + i, reqs[n + i]))
  }

  /** Exactly the port's first `n` requests have been performed. */
  ghost predicate Covers(log: seq<Op>, second: bool, n: nat) {
    && (forall b :: 0 <= b < |log| && log[b].second == second ==> log[b].index < n)
    && (forall k: nat :: k < n ==> Earlier(log, |log|, second, k))
  }

  lemma AppendPort(lane: bv64 -> nat, h: Hist, log: seq<Op>, second: bool, n: nat, other: bool, m: nat)
    requires Orderly(lane, h, log) && n <= |PortOf(h, second).issued| && Covers(log, second, n)
    requires other != second && Covers(log, other, m)
    ensures var log' := log + Ops(PortOf(h, second).issued, second, n);
            Orderly(lane, h, log') && Covers(log', second, |PortOf(h, second).issued|) && Covers(log', other, m)
  {
    var reqs := PortOf(h, second).issued;
    var ops := Ops(reqs, second, n);
    var log' := log + ops;
    forall b | 0 <= b < |log'| ensures From(h, log'[b]) {
      if b < |log| { assert From(h, log[b]); }
    }
    forall b, k: nat | 0 <= b < |log| && k < log[b].index && SameLane(lane, h, log[b], k)
      ensures Earlier(log', b, log[b].second, k)
    {
      EarlierStays(log, ops, b, log[b].second, k);
    }
    forall b, k: nat | |log| <= b <= |log'| && k < n + b - |log| ensures Earlier(log', b, second, k) {
      if k < n {
        EarlierStays(log, ops, |log|, second, k);
      } else {
        assert log'[|log| + k - n] == ops[k - n];
      }
    }
    forall k: nat | k < m ensures Earlier(log', |log'|, other, k) { EarlierStays(log, ops, |log|, other, k); }
  }

  lemma EarlierStays(log: seq<Op>, ops: seq<Op>, b: nat, second: bool, k: nat)
    requires b <= |log| && Earlier(log, b, second, k)
    ensures forall b' :: b <= b' <= |log + ops| ==> Earlier(log + ops, b', second, k)
  {
    var a :| 0 <= a < b && log[a].second == second && log[a].index == k;
    assert (log + ops)[a] == log[a];
  }

  /** Everything accepted and not performed yet: port 0's, then port 1's. */
  function Rest(h: Hist, n: nat): seq<Op>
    requires n <= |h.port0.issued| && n <= |h.port1.issued|
  {
    Ops(h.port0.issued, false, n) + Ops(h.port1.issued, true, n)
  }

  /** The same number of requests of both ports, in order, and no others, have been performed. */
  ghost predicate Done(h: Hist, n: nat) { Covers(h.log, false, n) && Covers(h.log, true, n) }

  lemma RestInOrder(lane: bv64 -> nat, h: Hist, n: nat)
    requires Orderly(lane, h, h.log) && Done(h, n) && |h.port0.issued| == |h.port1.issued| >= n
    ensures Orderly(lane, h, h.log + Rest(h, n))
    ensures Covers(h.log + Rest(h, n), false, |h.port0.issued|) && Covers(h.log + Rest(h, n), true, |h.port0.issued|)
  {
    hide Covers, Orderly, Ops;
    var half := h.log + Ops(h.port0.issued, false, n);
    AppendPort(lane, h, h.log, false, n, true, n);
    AppendPort(lane, h, half, true, n, false, |h.port0.issued|);
    assert h.log + Rest(h, n) == half + Ops(h.port1.issued, true, n);
  }

  lemma PerformRest(c: Config, m: Memory, envs: seq<Env>, s: Drive, h: Hist, n: nat, e: Env)
    requires Reaches(c, m, envs, s, h) && Done(h, n) && |h.port0.issued| == |h.port1.issued| >= n
    requires e == Lull(None, false, true).(performed := Rest(h, n))
    ensures Reaches(c, m, envs + [e], Next(c, s, e.wires), Record(c, s, e, h))
    ensures Record(c, s, e, h).log == h.log + Rest(h, n)
    ensures Covers(h.log + Rest(h, n), false, |h.port0.issued|) && Covers(h.log + Rest(h, n), true, |h.port0.issued|)
  {
    assert Orderly(m.lane, h, h.log) by { ReachesOrderly(c, m, envs, s, h); }
    hide Reaches, Done, Orderly, Covers, Rest, Next, Reply, RecordPort;
    RestInOrder(m.lane, h, n);
    Go(c, m, envs, s, h, e);
  }

  lemma ReachesOrderly(c: Config, m: Memory, envs: seq<Env>, s: Drive, h: Hist)
    requires Reaches(c, m, envs, s, h)
    ensures Orderly(m.lane, h, h.log)
  {
    AfterInv(c, m, envs);
    hide Served, After, Controlled, Scripted, Counted, Answered, Orderly;
  }

  /** Once drained, a run's requests have been accepted whole. */
  lemma AcceptedWhole(c: Config, m: Memory, envs: seq<Env>, s: Drive, h: Hist, second: bool)
    requires Reaches(c, m, envs, s, h) && !s.fsm.Requesting? && s.q0 == s.q1 == []
    ensures PortOf(h, second).issued == Scripts(c, h.runs, second)
  {
    ExactlyTheScript(c, m, envs, second);
    hide Served, After, Scripts;
  }

  /** Reporting, cycle by cycle, when the host reads twice. */
  lemma CleanStep(c: Config, s: Drive, h: Hist, read: bool)
    requires (s.fsm.CleanUp1? || s.fsm.CleanUp2?) && s.inQ == [] && s.wrCount == 0 && s.credit <= 1 && s.q0 == s.q1 == []
    ensures var e := Lull(None, read, true);
            && Next(c, s, e.wires) == s.(fsm := if s.credit == 0 then s.fsm else if s.fsm.CleanUp1? then CleanUp2 else Idle,
                                         credit := if read then 1 else 0)
            && Record(c, s, e, h) == h
  {
    hide Total, Pattern, Writing, Request;
  }

  lemma Clean(c: Config, m: Memory, envs: seq<Env>, s: Drive, h: Hist) returns (envs': seq<Env>)
    requires s.fsm.CleanUp1? && Calm(s) && s.q0 == [] && Reaches(c, m, envs, s, h)
    ensures Reaches(c, m, envs', s.(fsm := Idle), h)
  {
    CleanStep(c, s, h, true);
    CleanStep(c, s.(credit := 1), h, true);
    CleanStep(c, s.(fsm := CleanUp2, credit := 1), h, false);
    hide Reaches, Next, Record;
    var e1, e0 := Lull(None, true, true), Lull(None, false, true);
    GoLull(c, m, envs, s, h, e1);
    GoLull(c, m, envs + [e1], s.(credit := 1), h, e1);
    GoLull(c, m, envs + [e1] + [e1], s.(fsm := CleanUp2, credit := 1), h, e0);
    envs' := envs + [e1] + [e1] + [e0];
  }

  /** A program's requests, all made, accepted and performed. */
  ghost predicate Carried(c: Config, h: Hist, runs: seq<Program>) {
    && h.runs == runs
    && h.port0.issued == Scripts(c, runs, false) && h.port1.issued == Scripts(c, runs, true)
    && Done(h, |Scripts(c, runs, false)|)
  }

  lemma PerformCycle(c: Config, s: Drive, h: Hist, e: Env)
    requires Waiting(s) && Calm(s) && s.q0 == [] && e.wires == Lull(None, false, true).wires
    ensures var s', h' := Next(c, s, e.wires), Record(c, s, e, h);
            && h'.runs == h.runs && h'.port0.issued == h.port0.issued && h'.port1.issued == h.port1.issued
            && h'.got0 == h.got0 && h'.got1 == h.got1
            && Calm(s') && s'.q0 == [] && s'.prog == s.prog
            && (Writing(s.prog) || s.fsm.CleanUp1? ==> s'.fsm.CleanUp1?)
            && (s.fsm.AwaitResp? && !Writing(s.prog) ==>
                  if s.resp == Total(s.prog) then s'.fsm.CleanUp1? else s'.fsm.AwaitResp? && s'.resp == s.resp)
  {
    hide Total, Pattern, Writing, Request;
  }

  lemma ScriptsPush(c: Config, runs: seq<Program>, p: Program)
    ensures forall second :: Scripts(c, runs + [p], second) == Scripts(c, runs, second) + Script(c, p, second)
  {
    assert (runs + [p])[..|runs + [p]| - 1] == runs;
  }

  /** From idle, a program is loaded and all its requests are made, accepted and performed. */
  lemma Carry(c: Config, m: Memory, envs: seq<Env>, s: Drive, h: Hist, p: Program) returns (envs': seq<Env>, s': Drive, h': Hist)
    requires c.inDepth > 0 && c.subDepth > 0 && Blank(s) && s.resp == 0 && Reaches(c, m, envs, s, h) && Carried(c, h, h.runs)
    ensures Reaches(c, m, envs', s', h') && Carried(c, h', h.runs + [p])
    ensures h.log <= h'.log && forall b :: |h.log| <= b < |h'.log| ==> h'.log[b].index >= |Scripts(c, h.runs, false)|
    ensures h'.got0 == h.got0 && h'.got1 == h.got1 && Calm(s') && s'.q0 == [] && s'.prog == p
    ensures Writing(p) ==> s'.fsm.CleanUp1?
    ensures !Writing(p) ==> if Total(p) == 0 then s'.fsm.CleanUp1? else s'.fsm.AwaitResp? && s'.resp == 0
  {
    hide Reaches, Next, Record, Total, Writing, Scripts, Covers, Script;
    envs' := Load(c, m, envs, s, h, p);
    s', h' := s.(fsm := Requesting, prog := p, sub := 0, err0 := 0, err1 := 0), h.(runs := h.runs + [p]);
    envs', s', h' := SubmitAll(c, m, envs', s', h');
    envs', s', h' := Drain(c, m, envs', s', h');
    AcceptedWhole(c, m, envs', s', h', false);
    AcceptedWhole(c, m, envs', s', h', true);
    SameLength(c, h.runs + [p]);
    ScriptsPush(c, h.runs, p);
    var n := |Scripts(c, h.runs, false)|;
    var e := Lull(None, false, true).(performed := Rest(h', n));
    PerformCycle(c, s', h', e);
    PerformRest(c, m, envs', s', h', n, e);
    envs', s', h' := envs' + [e], Next(c, s', e.wires), Record(c, s', e, h');
  }

  // Answering the reads.

  /** Both programs' requests have been performed and some of the answers taken. */
  ghost predicate Reading(c: Config, m: Memory, envs: seq<Env>, s: Drive, h: Hist, write: Program, read: Program) {
    && Reaches(c, m, envs, s, h) && Carried(c, h, [write, read]) && ReadsBack(write, read)
    && Calm(s) && s.q0 == [] && s.prog == read
    && (if s.fsm.AwaitResp? then s.resp <= Total(read) else s.fsm.CleanUp1?)
  }

  lemma TakenSoFar(c: Config, m: Memory, envs: seq<Env>, s: Drive, h: Hist, write: Program, read: Program)
    requires Reading(c, m, envs, s, h, write, read) && s.fsm.AwaitResp?
    ensures |h.got0| == s.resp
  {
    UnfoldReadsBack(write, read);
    AfterInv(c, m, envs);
    OneWritingRun(write, read);
    hide Served, After, Scripted, Counted, Answered, Orderly, Total, Writing, ReadTotal, Before;
  }

  lemma OneWritingRun(write: Program, read: Program)
    requires Writing(write)
    ensures Before([write, read]) == [write] && ReadTotal([write]) == 0
  {
    assert [write, read][..1] == [write] && [write][..0] == [];
  }

  /** Before the reading run's request number `j` there are `j` reads. */
  lemma ReadsBefore(c: Config, write: Program, read: Program, second: bool, j: nat)
    requires ReadsBack(write, read) && j <= Total(read)
    ensures ReadCount(Scripts(c, [write], second) + Script(c, read, second)[..j]) == j
  {
    UnfoldReadsBack(write, read);
    assert [write][..0] == [];
    assert ReadTotal([write]) == 0;
    hide Total, Writing, ReadCount, Script, Scripts, ReadTotal;
    ScriptsReads(c, [write], second);
    ScriptReads(c, Scripts(c, [write], second), read, second, j);
  }

  lemma NextRead(c: Config, write: Program, read: Program, second: bool, issued: seq<Req>, o: Op, j: nat)
    requires ReadsBack(write, read) && j < Total(read) && issued == Scripts(c, [write, read], second)
    requires o.second == second && o.index == |Scripts(c, [write], second)| + j && o.index < |issued| && issued[o.index] == o.req
    ensures IsNth(issued, o, second, j)
  {
    UnfoldReadsBack(write, read);
    ScriptsPush(c, [write], read);
    assert [write] + [read] == [write, read];
    ScriptAt(c, read, second, j);
    IsRequest(c, read, second, j);
    ReadsBefore(c, write, read, second, j);
    hide Total, Writing, ReadCount, Request, Scripts, Script, ReadsBack;
    AtSum(Scripts(c, [write], second), Script(c, read, second), j);
  }

  lemma AtSum<T>(a: seq<T>, b: seq<T>, j: nat)
    requires j < |b|
    ensures (a + b)[..|a| + j] == a + b[..j] && (a + b)[|a| + j] == b[j]
  {
  }

  lemma IsRequest(c: Config, prog: Program, second: bool, j: nat)
    requires j < Total(prog)
    ensures Request(c, prog, second, j).isWrite <==> Writing(prog)
  {
  }

  /** Every read not answered yet can be. */
  lemma Ready(c: Config, m: Memory, envs: seq<Env>, s: Drive, h: Hist, write: Program, read: Program, second: bool)
    returns (line: Line)
    requires Reading(c, m, envs, s, h, write, read) && s.fsm.AwaitResp? && s.resp < Total(read)
    ensures Shows(m.cells, h, second, Some(line))
  {
    TakenSoFar(c, m, envs, s, h, write, read);
    ReachesOrderly(c, m, envs, s, h);
    hide Reaches, Total, Writing, IsNth, Value;
    ScriptsPush(c, [write], read);
    assert [write] + [read] == [write, read];
    SameLength(c, [write, read]);
    var issued, k := PortOf(h, second).issued, |Scripts(c, [write], second)| + s.resp;
    hide Scripts, Script;
    assert Earlier(h.log, |h.log|, second, k);
    var pos :| 0 <= pos < |h.log| && h.log[pos].second == second && h.log[pos].index == k;
    assert From(h, h.log[pos]);
    NextRead(c, write, read, second, issued, h.log[pos], s.resp);
    line := Value(m.cells, h.log[..pos], h.log[pos].req.addr);
  }

  lemma TakeStep(c: Config, s: Drive, h: Hist, e: Env)
    requires s.fsm.AwaitResp? && Calm(s) && s.q0 == [] && !Writing(s.prog) && s.resp < Total(s.prog) && e.performed == []
    requires e.wires.resp0.Some? && e.wires.resp1.Some? && e.wires == In(None, false, true, true, e.wires.resp0, e.wires.resp1)
    ensures Next(c, s, e.wires) == s.(resp := s.resp + 1, err0 := Next(c, s, e.wires).err0, err1 := Next(c, s, e.wires).err1)
    ensures var h' := Record(c, s, e, h);
            h'.log == h.log && h'.runs == h.runs && h'.port0.issued == h.port0.issued && h'.port1.issued == h.port1.issued
  {
    hide Total, Pattern, Writing, Request;
  }

  lemma EndStep(c: Config, s: Drive, h: Hist)
    requires s.fsm.AwaitResp? && Calm(s) && s.q0 == [] && !Writing(s.prog) && s.resp == Total(s.prog)
    ensures Next(c, s, Lull(None, false, true).wires) == s.(fsm := CleanUp1, resp := 0)
    ensures Record(c, s, Lull(None, false, true), h) == h
  {
    hide Total, Pattern, Writing, Request;
  }

  /** The run can be finished, with nothing more performed. */
  lemma {:induction false} Finish(c: Config, m: Memory, envs: seq<Env>, s: Drive, h: Hist, write: Program, read: Program)
    returns (envs': seq<Env>, s': Drive, h': Hist)
    requires Reading(c, m, envs, s, h, write, read)
    ensures Reading(c, m, envs', s', h', write, read) && s'.fsm.CleanUp1? && h'.log == h.log
    decreases s.fsm.AwaitResp?, Total(read) - s.resp
  {
    hide Total, Writing, ReadsBack, Carried, Reaches;
    envs', s', h' := envs, s, h;
    if s.fsm.AwaitResp? {
      if s.resp == Total(read) {
        UnfoldReadsBack(write, read);
        EndStep(c, s, h);
        GoLull(c, m, envs, s, h, Lull(None, false, true));
        envs', s', h' := envs + [Lull(None, false, true)], s.(fsm := CleanUp1, resp := 0), h;
      } else {
        envs', s', h' := TakeOne(c, m, envs, s, h, write, read);
        envs', s', h' := Finish(c, m, envs', s', h', write, read);
      }
    }
  }

  lemma TakeOne(c: Config, m: Memory, envs: seq<Env>, s: Drive, h: Hist, write: Program, read: Program)
    returns (envs': seq<Env>, s': Drive, h': Hist)
    requires Reading(c, m, envs, s, h, write, read) && s.fsm.AwaitResp? && s.resp < Total(read)
    ensures Reading(c, m, envs', s', h', write, read) && s'.fsm.AwaitResp? && s'.resp == s.resp + 1 && h'.log == h.log
  {
    UnfoldReadsBack(write, read);
    hide Total, Writing, ReadsBack, Reaches, Next, Record, Scripts, Covers, Shows;
    var line0 := Ready(c, m, envs, s, h, write, read, false);
    var line1 := Ready(c, m, envs, s, h, write, read, true);
    var e := Env(In(None, false, true, true, Some(line0), Some(line1)), []);
    TakeStep(c, s, h, e);
    TakeBoth(c, m, envs, s, h, e);
    envs', s', h' := envs + [e], Next(c, s, e.wires), Record(c, s, e, h);
  }

  lemma TakeBoth(c: Config, m: Memory, envs: seq<Env>, s: Drive, h: Hist, e: Env)
    requires Reaches(c, m, envs, s, h) && e.performed == []
    requires Shows(m.cells, h, false, e.wires.resp0) && Shows(m.cells, h, true, e.wires.resp1)
    ensures Reaches(c, m, envs + [e], Next(c, s, e.wires), Record(c, s, e, h))
  {
    ReachesOrderly(c, m, envs, s, h);
    hide Reaches, Next, Record, Orderly, Shows;
    assert h.log + [] == h.log;
    Go(c, m, envs, s, h, e);
  }

  // Exactness.

  lemma FromReset(c: Config, m: Memory)
    ensures Reaches(c, m, [], RESET, START) && Blank(RESET) && RESET.resp == 0 && Carried(c, START, [])
  {
  }

  lemma Returned(c: Config, m: Memory, envs: seq<Env>, s: Drive, h: Hist)
    requires Reaches(c, m, envs, s, h) && !Busy(s)
    ensures s.resp == 0
  {
    AfterInv(c, m, envs);
    hide Served, After, Scripted, Counted, Answered, Orderly;
  }

  lemma LateIsRead(c: Config, h: Hist, write: Program, read: Program, o: Op)
    requires ReadsBack(write, read) && Carried(c, h, [write, read]) && From(h, o)
    requires o.index >= |Scripts(c, [write], o.second)|
    ensures !o.req.isWrite
  {
    UnfoldReadsBack(write, read);
    assert [write] + [read] == [write, read];
    ScriptsPush(c, [write], read);
    hide Total, Writing, Scripts, Done, Script;
    var k := o.index - |Scripts(c, [write], o.second)|;
    ScriptAt(c, read, o.second, k);
    IsRequest(c, read, o.second, k);
  }

  lemma WritesBeforeReads(c: Config, h: Hist, first: seq<Op>, write: Program, read: Program)
    requires ReadsBack(write, read) && Carried(c, h, [write, read]) && first <= h.log
    requires forall b :: 0 <= b < |h.log| ==> From(h, h.log[b])
    requires forall b :: 0 <= b < |first| ==> first[b].index < |Scripts(c, [write], first[b].second)|
    requires forall b :: |first| <= b < |h.log| ==> h.log[b].index >= |Scripts(c, [write], h.log[b].second)|
    ensures Settled(c, h)
  {
    assert Before(h.runs) == [write];
    hide Scripts, From, ReadsBack, Carried;
    forall b | |first| <= b < |h.log| ensures !h.log[b].req.isWrite { LateIsRead(c, h, write, read, h.log[b]); }
  }

  /** The first half of a run: the writing program from reset to idle. */
  lemma WritingHalf(c: Config, m: Memory, write: Program) returns (envs: seq<Env>, s: Drive, h: Hist)
    requires c.inDepth > 0 && c.subDepth > 0 && Writing(write)
    ensures Reaches(c, m, envs, s, h) && Blank(s) && s.resp == 0 && Carried(c, h, [write])
  {
    FromReset(c, m);
    hide Total, Writing, Reaches, Carried;
    envs, s, h := Carry(c, m, [], RESET, START, write);
    assert [] + [write] == [write];
    envs := Clean(c, m, envs, s, h);
    s := s.(fsm := Idle);
    Returned(c, m, envs, s, h);
  }

  /** Whatever the memory, there is a run of the two programs that ends, with every write performed
      before the first read. */
  lemma RunsToTheEnd(c: Config, m: Memory, write: Program, read: Program) returns (envs: seq<Env>)
    requires c.inDepth > 0 && c.subDepth > 0 && ReadsBack(write, read)
    ensures Served(c, m, envs) && After(c, envs).1.runs == [write, read]
    ensures !Busy(After(c, envs).0) && Settled(c, After(c, envs).1)
  {
    UnfoldReadsBack(write, read);
    var s, h;
    envs, s, h := WritingHalf(c, m, write);
    var first := h.log;
    AllCovered(c, first, write);
    assert h.runs == [write];
    envs, s, h := Carry(c, m, envs, s, h, read);
    assert [write] + [read] == [write, read];
    assert |Scripts(c, [write], false)| == |Scripts(c, [write], true)| by { SameLength(c, [write]); }
    hide Total, Writing, Scripts, Covers, ReadsBack, Settled, Orderly, Served, After, Done;
    assert Reading(c, m, envs, s, h, write, read);
    envs, s, h := Finish(c, m, envs, s, h, write, read);
    assert forall b :: 0 <= b < |h.log| ==> From(h, h.log[b]) by { AllFrom(c, m, envs, s, h); }
    WritesBeforeReads(c, h, first, write, read);
  }

  lemma AllFrom(c: Config, m: Memory, envs: seq<Env>, s: Drive, h: Hist)
    requires Reaches(c, m, envs, s, h)
    ensures forall b :: 0 <= b < |h.log| ==> From(h, h.log[b])
  {
    ReachesOrderly(c, m, envs, s, h);
  }

  lemma AllCovered(c: Config, log: seq<Op>, write: Program)
    requires var n := |Scripts(c, [write], false)|; Covers(log, false, n) && Covers(log, true, n)
    ensures forall b :: 0 <= b < |log| ==> log[b].index < |Scripts(c, [write], log[b].second)|
  {
    SameLength(c, [write]);
  }

  /** The driver's check is exact: whatever the memory, every run of a writing program and its
      read-back that ends reports no error if and only if all addresses are distinct. */
  lemma ExactlyWhenDistinct(c: Config, m: Memory, write: Program, read: Program)
    requires c.inDepth > 0 && c.subDepth > 0 && ReadsBack(write, read)
    ensures AllDistinct(write)
       <==> forall envs :: Served(c, m, envs) && After(c, envs).1.runs == [write, read] && !Busy(After(c, envs).0) ==>
              After(c, envs).0.err0 == 0 && After(c, envs).0.err1 == 0
  {
    hide AllDistinct, Served, After, ReadsBack, Settled, Busy;
    if AllDistinct(write) {
      forall envs | Served(c, m, envs) && After(c, envs).1.runs == [write, read]
        ensures After(c, envs).0.err0 == 0 && After(c, envs).0.err1 == 0
      {
        WriteThenRead(c, m, envs, write, read);
      }
    } else {
      var envs := RunsToTheEnd(c, m, write, read);
      if After(c, envs).0.err0 == 0 && After(c, envs).0.err1 == 0 {
        ClashIsSeen(c, m, envs, write, read);
      }
    }
  }

  /** Each port's addresses are distinct, but both ports start at the same one. */
  const CLASH: Program := [0, 1, 0xFFFF_FFFF_FFFF_FFFF, 1, 0, 0, 5, 5]

  lemma ClashAddresses()
    ensures Total(CLASH) == 1 && ReadsBack(CLASH, CLASH[3 := 0])
    ensures Distinct(CLASH, false) && Distinct(CLASH, true) && !Apart(CLASH, CLASH)
  {
    assert Total(CLASH) == 1;
    assert Addr(CLASH, false, 0) == Addr(CLASH, true, 0);
  }

  /** On some run an error counter goes up although nothing went wrong. */
  lemma EqualStartsClash(c: Config, m: Memory)
    requires c.inDepth > 0 && c.subDepth > 0
    ensures ReadsBack(CLASH, CLASH[3 := 0]) && Distinct(CLASH, false) && Distinct(CLASH, true)
    ensures exists envs :: Served(c, m, envs) && After(c, envs).1.runs == [CLASH, CLASH[3 := 0]] && !Busy(After(c, envs).0)
                           && (After(c, envs).0.err0 > 0 || After(c, envs).0.err1 > 0)
  {
    ClashAddresses();
    assert !AllDistinct(CLASH);
    hide *;
    ExactlyWhenDistinct(c, m, CLASH, CLASH[3 := 0]);
  }
}
