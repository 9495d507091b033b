/** The memory driver: programmed by eight words, it writes or reads a pattern through both ports
    at once and counts the responses that do not match. */
module MemDrive {
  import opened Streams
  import opened Arithmetic
  import Fifo

  type Program = p: seq<bv64> | |p| == 8 witness [0, 0, 0, 0, 0, 0, 0, 0]

  /** The 512-bit pattern: application, fill bits, counter, canary. */
  datatype Line = Line(app: nat, fill: bool, count: nat, canary: bv64)

  datatype Req = Req(isWrite: bool, addr: bv64, data: Line)

  datatype Fsm = Idle | Programming | Requesting | AwaitResp | CleanUp1 | CleanUp2

  datatype Config = Config(app: nat, inDepth: nat, subDepth: nat)

  datatype Drive = Drive(fsm: Fsm, prog: Program, wrCount: nat, inQ: seq<bv64>, sub: nat,
                         q0: seq<Req>, q1: seq<Req>, resp: nat, err0: nat, err1: nat, credit: nat)

  const RESET := Drive(Idle, [0, 0, 0, 0, 0, 0, 0, 0], 0, [], 0, [], [], 0, 0, 0, 0)

  /** The host's register write or read, the memory's grants and the responses at the two ports. */
  datatype In = In(write: Option<bv64>, read: bool, grant0: bool, grant1: bool, resp0: Option<Line>, resp1: Option<Line>)

  // What a program means.

  function AsNat(word: bv64): nat { word as nat }

  function Total(prog: Program): nat { AsNat(prog[1]) }
  predicate Writing(prog: Program) { prog[3] & 1 == 1 }

  function Shl(x: bv64, n: bv64): bv64 { if n < 64 then x << n else 0 }

  function Counter(i: nat): bv64
    requires i < 0x1_0000_0000_0000_0000
  {
    i as bv64
  }

  function AddrFrom(start: bv64, delta: bv64, mask: bv64, i: nat): bv64
    requires i < 0x1_0000_0000_0000_0000
  {
    (start + Shl(Counter(i), delta)) & mask
  }

  /** The i-th address of a port. */
  function Addr(prog: Program, second: bool, i: nat): bv64
    requires i < 0x1_0000_0000_0000_0000
  {
    AddrFrom(if second then prog[4] else prog[0], prog[5], prog[2], i)
  }

  function Pattern(c: Config, prog: Program, second: bool, i: nat): Line {
    Line(c.app, second, i, if second then prog[7] else prog[6])
  }

  lemma TotalFits(prog: Program)
    ensures Total(prog) < 0x1_0000_0000_0000_0000
  {
  }

  function Request(c: Config, prog: Program, second: bool, i: nat): Req
    requires i < Total(prog)
  {
    TotalFits(prog);
    Req(Writing(prog), Addr(prog, second, i), Pattern(c, prog, second, i))
  }

  /** The words of a program in the order the host writes them. */
  function Words(start0: bv64, total: bv64, mask: bv64, mode: bv64, start1: bv64, delta: bv64, canary0: bv64, canary1: bv64): Program {
    [start0, total, mask, mode, start1, delta, canary0, canary1]
  }

  const STEPS := Words(0x1_0000, 5, 0xF_FFC0, 1, 0x8_0000, 6, 0xAAAA, 0xBBBB)

  /** Word by word: from 0x10000 and 0x80000 in steps of 64, five writes a port, each port with its own
      canary; a mask of fewer bits makes the addresses wrap. */
  lemma StepsAre(c: Config, i: nat)
    requires i < 5
    ensures Total(STEPS) == 5 && Writing(STEPS)
    ensures var address: bv64 := if i == 0 then 0 else if i == 1 then 0x40 else if i == 2 then 0x80 else if i == 3 then 0xC0 else 0x100;
            && Request(c, STEPS, false, i) == Req(true, 0x1_0000 + address, Line(c.app, false, i, 0xAAAA))
            && Request(c, STEPS, true, i) == Req(true, 0x8_0000 + address, Line(c.app, true, i, 0xBBBB))
            && Request(c, STEPS[3 := 2], true, i) == Req(false, 0x8_0000 + address, Line(c.app, true, i, 0xBBBB))
            && Request(c, STEPS[2 := 0x7F], true, i).addr == (if i % 2 == 0 then 0 else 0x40)
  {
    assert Total(STEPS) == 5 && STEPS[3 := 2][1] == STEPS[1] && STEPS[2 := 0x7F][1] == STEPS[1];
    assert Counter(0) == 0 && Counter(1) == 1 && Counter(2) == 2 && Counter(3) == 3 && Counter(4) == 4;
  }

  /** The step is two to any power up to 2^63; a larger shift leaves nothing of the count. */
  lemma ShiftsAre()
    ensures Shl(1, 0) == 1 && Shl(1, 31) == 0x8000_0000 && Shl(1, 32) == 0x1_0000_0000 && Shl(1, 63) == 0x8000_0000_0000_0000
    ensures Shl(3, 40) == 0x300_0000_0000 && Shl(1, 64) == 0 && Shl(1, 0x1_0000_0000) == 0
  {
  }

  // One clock edge.

  predicate Submitting(c: Config, s: Drive) {
    s.fsm.Requesting? && s.sub != Total(s.prog) && |s.q0| < c.subDepth && |s.q1| < c.subDepth
  }

  /** What a port's queue gets; the guard on the counter never fails. */
  function Submitted(c: Config, s: Drive, second: bool): Option<Req> {
    if Submitting(c, s) && s.sub < Total(s.prog) then Some(Request(c, s.prog, second, s.sub)) else None
  }

  /** Responses are taken only in pairs. */
  predicate Taking(i: In) { i.resp0.Some? && i.resp1.Some? }

  predicate Consuming(s: Drive) { s.fsm.Programming? && s.inQ != [] }
  predicate Starting(s: Drive) { Consuming(s) && s.wrCount + 1 == 8 }
  predicate Finished(s: Drive) { s.fsm.AwaitResp? && !Writing(s.prog) && s.resp == Total(s.prog) }
  predicate Reporting(s: Drive) { (s.fsm.CleanUp1? || s.fsm.CleanUp2?) && s.credit != 0 }

  function NextFsm(s: Drive): Fsm {
    match s.fsm
    case Idle => if s.inQ != [] then Programming else Idle
    case Programming => if Starting(s) then Requesting else Programming
    case Requesting => if s.sub == Total(s.prog) then AwaitResp else Requesting
    case AwaitResp => if Writing(s.prog) || Finished(s) then CleanUp1 else AwaitResp
    case CleanUp1 => if s.credit != 0 then CleanUp2 else CleanUp1
    case CleanUp2 => if s.credit != 0 then Idle else CleanUp2
  }

  function Errors(errors: nat, starting: bool, taking: bool, wrong: bool): nat {
    if starting then 0 else if taking && wrong then errors + 1 else errors
  }

  function Loaded(s: Drive): Program {
    if Consuming(s) && s.wrCount < 8 then s.prog[s.wrCount := s.inQ[0]] else s.prog
  }

  function Next(c: Config, s: Drive, i: In): Drive {
    Drive(NextFsm(s),
          Loaded(s),
          if Starting(s) then 0 else if Consuming(s) then s.wrCount + 1 else s.wrCount,
          Fifo.Next(s.inQ, c.inDepth, i.write, Consuming(s)),
          if Starting(s) || (s.fsm.Requesting? && s.sub == Total(s.prog)) then 0
          else if Submitted(c, s, false).Some? then s.sub + 1 else s.sub,
          Fifo.Next(s.q0, c.subDepth, Submitted(c, s, false), i.grant0),
          Fifo.Next(s.q1, c.subDepth, Submitted(c, s, true), i.grant1),
          if Finished(s) then 0 else if Taking(i) then s.resp + 1 else s.resp,
          Errors(s.err0, Starting(s), Taking(i), i.resp0 != Some(Pattern(c, s.prog, false, s.resp))),
          Errors(s.err1, Starting(s), Taking(i), i.resp1 != Some(Pattern(c, s.prog, true, s.resp))),
          Count(s.credit, i.read, Reporting(s)))
  }

  // The memory behind both ports.

  /** A request performed: whose, and its place among that port's requests. */
  datatype Op = Op(second: bool, index: nat, req: Req)

  /** The cells at the start, and the channel an address belongs to. */
  datatype Memory = Memory(cells: bv64 -> Line, lane: bv64 -> nat)

  /** What a cell holds after the operations performed, whichever port they came from. */
  function Value(cells: bv64 -> Line, log: seq<Op>, addr: bv64): Line {
    if log == [] then cells(addr)
    else
      var last := log[|log| - 1].req;
      if last.isWrite && last.addr == addr then last.data else Value(cells, log[..|log| - 1], addr)
  }

  /** What a port submitted and what the memory accepted from it. */
  datatype Port = Port(submitted: seq<Req>, issued: seq<Req>)

  /** Programs started, both ports, the operations performed, and the responses taken. */
  datatype Hist = Hist(runs: seq<Program>, port0: Port, port1: Port, log: seq<Op>, got0: seq<Line>, got1: seq<Line>)

  const START := Hist([], Port([], []), Port([], []), [], [], [])

  /** One cycle of the surroundings: the wires, and what the memory performs. */
  datatype Env = Env(wires: In, performed: seq<Op>)

  function RecordPort(h: Port, q: seq<Req>, submitted: Option<Req>, grant: bool): Port {
    Port(h.submitted + Opt(submitted), h.issued + Fifo.Given(q, grant))
  }

  function Record(c: Config, s: Drive, e: Env, h: Hist): Hist {
    var i := e.wires;
    Hist(if Starting(s) then h.runs + [Loaded(s)] else h.runs,
         RecordPort(h.port0, s.q0, Submitted(c, s, false), i.grant0),
         RecordPort(h.port1, s.q1, Submitted(c, s, true), i.grant1),
         h.log + e.performed,
         if Taking(i) then h.got0 + [i.resp0.value] else h.got0,
         if Taking(i) then h.got1 + [i.resp1.value] else h.got1)
  }

  function PortOf(h: Hist, second: bool): Port { if second then h.port1 else h.port0 }

  predicate Earlier(log: seq<Op>, b: nat, second: bool, k: nat)
    requires b <= |log|
  {
    exists a :: 0 <= a < b && log[a].second == second && log[a].index == k
  }

  predicate From(h: Hist, o: Op) {
    o.index < |PortOf(h, o.second).issued| && PortOf(h, o.second).issued[o.index] == o.req
  }

  /** The memory performs what it accepted, once, and each port's requests for one channel in the
      order the port made them. Nothing is said about different channels or ports. */
  ghost predicate Orderly(lane: bv64 -> nat, h: Hist, log: seq<Op>) {
    && (forall b :: 0 <= b < |log| ==> From(h, log[b]))
    && (forall a, b :: 0 <= a < b < |log| ==> log[a].second != log[b].second || log[a].index != log[b].index)
    && (forall b, k: nat :: 0 <= b < |log| && k < log[b].index && SameLane(lane, h, log[b], k) ==> Earlier(log, b, log[b].second, k))
  }

  predicate SameLane(lane: bv64 -> nat, h: Hist, o: Op, k: nat) {
    k < |PortOf(h, o.second).issued| && lane(PortOf(h, o.second).issued[k].addr) == lane(o.req.addr)
  }

  function ReadCount(reqs: seq<Req>): (n: nat)
    ensures n <= |reqs|
  {
    if reqs == [] then 0 else ReadCount(reqs[..|reqs| - 1]) + (if reqs[|reqs| - 1].isWrite then 0 else 1)
  }

  /** The operation is the port's read number `t`. */
  predicate IsNth(issued: seq<Req>, o: Op, second: bool, t: nat) {
    o.second == second && !o.req.isWrite && o.index < |issued| && ReadCount(issued[..o.index]) == t
  }

  /** The answer to a port's read number `t`: the cell when that read was performed. */
  ghost predicate Reply(cells: bv64 -> Line, issued: seq<Req>, log: seq<Op>, second: bool, t: nat, line: Line) {
    exists pos :: 0 <= pos < |log| && IsNth(issued, log[pos], second, t) && line == Value(cells, log[..pos], log[pos].req.addr)
  }

  /** A port shows the answer to its oldest read not taken yet, or nothing. */
  ghost predicate Shows(cells: bv64 -> Line, h: Hist, second: bool, resp: Option<Line>) {
    resp.Some? ==> Reply(cells, PortOf(h, second).issued, h.log, second, |h.got0|, resp.value)
  }

  ghost predicate Serves(m: Memory, h: Hist, e: Env) {
    && Orderly(m.lane, h, h.log + e.performed)
    && Shows(m.cells, h, false, e.wires.resp0) && Shows(m.cells, h, true, e.wires.resp1)
  }

  // What a run submits.

  function Script(c: Config, prog: Program, second: bool): (r: seq<Req>)
    ensures |r| == Total(prog)
  {
    seq(Total(prog), i requires 0 <= i < Total(prog) => Request(c, prog, second, i))
  }

  function Scripts(c: Config, runs: seq<Program>, second: bool): seq<Req> {
    if runs == [] then [] else Scripts(c, runs[..|runs| - 1], second) + Script(c, runs[|runs| - 1], second)
  }

  function ReadTotal(runs: seq<Program>): nat {
    if runs == [] then 0
    else ReadTotal(runs[..|runs| - 1]) + (if Writing(runs[|runs| - 1]) then 0 else Total(runs[|runs| - 1]))
  }

  function Before(runs: seq<Program>): seq<Program> { if runs == [] then [] else runs[..|runs| - 1] }

  /** How many requests of the last run have been submitted, and how many of its replies taken. */
  function Sent(s: Drive, runs: seq<Program>): nat {
    if runs == [] then 0 else if s.fsm.Requesting? then s.sub else Total(runs[|runs| - 1])
  }

  function Seen(s: Drive, runs: seq<Program>): nat {
    if runs == [] || Writing(runs[|runs| - 1]) then 0
    else if s.fsm.Requesting? || s.fsm.AwaitResp? then s.resp
    else Total(runs[|runs| - 1])
  }

  /** Mismatches among the first `n` responses from `base` on. */
  function Wrong(c: Config, replies: seq<Line>, base: nat, n: nat, prog: Program, second: bool): nat
    requires base + n <= |replies|
  {
    if n == 0 then 0
    else Wrong(c, replies, base, n - 1, prog, second) + (if replies[base + n - 1] != Pattern(c, prog, second, n - 1) then 1 else 0)
  }

  function Last(runs: seq<Program>): Program
    requires runs != []
  {
    runs[|runs| - 1]
  }

  ghost predicate Busy(s: Drive) { s.fsm.Requesting? || s.fsm.AwaitResp? }

  /** The controller and what it has let through so far. */
  ghost predicate Controlled(s: Drive, h: Hist) {
    && s.wrCount < 8 && (s.fsm.Requesting? ==> s.sub <= Total(s.prog))
    && (Busy(s) ==> h.runs != [] && s.prog == Last(h.runs))
    && Seen(s, h.runs) <= Sent(s, h.runs)
    && s.resp == (if Busy(s) then Seen(s, h.runs) else 0)
    && |h.got0| == |h.got1| == ReadTotal(Before(h.runs)) + Seen(s, h.runs)
  }

  /** A port has submitted exactly the runs before, then the part of the last run that is due. */
  ghost predicate Scripted(c: Config, s: Drive, runs: seq<Program>, second: bool, q: seq<Req>, h: Port) {
    && h.submitted == h.issued + q
    && (runs != [] ==> Sent(s, runs) <= Total(Last(runs)))
    && h.submitted == Scripts(c, Before(runs), second) + (if runs == [] then [] else Script(c, Last(runs), second)[..Sent(s, runs)])
  }

  /** An error counter counts the responses of the last run that do not match. */
  ghost predicate Counted(c: Config, second: bool, runs: seq<Program>, got: seq<Line>, errors: nat) {
    runs != [] ==>
      var base := ReadTotal(Before(runs));
      base <= |got| && errors == Wrong(c, got, base, |got| - base, Last(runs), second)
  }

  /** Every response taken was the answer to its read. */
  ghost predicate Answered(cells: bv64 -> Line, h: Hist, second: bool, got: seq<Line>) {
    forall t :: 0 <= t < |got| ==> Reply(cells, PortOf(h, second).issued, h.log, second, t, got[t])
  }

  ghost predicate Inv(c: Config, m: Memory, s: Drive, h: Hist) {
    && Controlled(s, h)
    && Scripted(c, s, h.runs, false, s.q0, h.port0) && Scripted(c, s, h.runs, true, s.q1, h.port1)
    && Counted(c, false, h.runs, h.got0, s.err0) && Counted(c, true, h.runs, h.got1, s.err1)
    && Orderly(m.lane, h, h.log) && Answered(m.cells, h, false, h.got0) && Answered(m.cells, h, true, h.got1)
  }

  // How many reads there are.

  lemma ReadCountPush(reqs: seq<Req>, r: Req)
    ensures ReadCount(reqs + [r]) == ReadCount(reqs) + (if r.isWrite then 0 else 1)
  {
    var all := reqs + [r];
    assert all[..|all| - 1] == reqs;
  }

  lemma {:induction false} ReadCountPrefix(x: seq<Req>, y: seq<Req>)
    requires x <= y
    ensures ReadCount(x) <= ReadCount(y)
    decreases |y|
  {
    if x != y {
      ReadCountPrefix(x, y[..|y| - 1]);
    } else {
      assert x == y;
    }
  }

  lemma ScriptPush(c: Config, prog: Program, second: bool, n: nat)
    requires n < Total(prog)
    ensures Script(c, prog, second)[..n + 1] == Script(c, prog, second)[..n] + [Request(c, prog, second, n)]
  {
    hide Request, Total;
  }

  /** A writing run has no reads, a reading run nothing else. */
  lemma {:induction false} ScriptReads(c: Config, reqs: seq<Req>, prog: Program, second: bool, n: nat)
    requires n <= Total(prog)
    ensures ReadCount(reqs + Script(c, prog, second)[..n]) == ReadCount(reqs) + (if Writing(prog) then 0 else n)
  {
    hide Total, ReadCount, Script;
    if n == 0 {
      assert reqs + Script(c, prog, second)[..0] == reqs;
    } else {
      ScriptReads(c, reqs, prog, second, n - 1);
      ScriptPush(c, prog, second, n - 1);
      var before, r := reqs + Script(c, prog, second)[..n - 1], Request(c, prog, second, n - 1);
      assert reqs + Script(c, prog, second)[..n] == before + [r];
      ReadCountPush(before, r);
    }
  }

  lemma {:induction false} ScriptsReads(c: Config, runs: seq<Program>, second: bool)
    ensures ReadCount(Scripts(c, runs, second)) == ReadTotal(runs)
  {
    if runs != [] {
      hide Total, Script;
      var before, last := runs[..|runs| - 1], runs[|runs| - 1];
      ScriptsReads(c, before, second);
      ScriptReads(c, Scripts(c, before, second), last, second, Total(last));
      assert Script(c, last, second)[..Total(last)] == Script(c, last, second);
    }
  }

  /** How many answers a port can get. */
  lemma Available(c: Config, s: Drive, runs: seq<Program>, second: bool, q: seq<Req>, p: Port, o: Op, t: nat)
    requires Scripted(c, s, runs, second, q, p) && IsNth(p.issued, o, second, t) && p.issued[o.index] == o.req
    ensures t < ReadTotal(Before(runs)) + (if runs == [] || Writing(Last(runs)) then 0 else Sent(s, runs))
  {
    hide Total, Script, ReadCount, Writing, Sent;
    var upto := p.issued[..o.index];
    assert p.issued[..o.index + 1] == upto + [o.req];
    ReadCountPush(upto, o.req);
    ReadCountPrefix(upto + [o.req], p.submitted);
    ScriptsReads(c, Before(runs), second);
    assert Scripts(c, Before(runs), second) + [] == Scripts(c, Before(runs), second);
    if runs != [] { ScriptReads(c, Scripts(c, Before(runs), second), Last(runs), second, Sent(s, runs)); }
  }

  /** Responses are taken in a reading run only, while some of its requests are unanswered. */
  lemma TakingWhen(c: Config, m: Memory, s: Drive, e: Env, h: Hist)
    requires Inv(c, m, s, h) && Serves(m, h, e) && Taking(e.wires)
    ensures Busy(s) && !Writing(s.prog) && Seen(s, h.runs) < Sent(s, h.runs)
  {
    hide Total, Script, Scripts, ReadCount, Value, Answered, Counted, ReadTotal;
    var issued, log := h.port0.issued, h.log;
    var pos :| 0 <= pos < |log| && IsNth(issued, log[pos], false, |h.got0|);
    assert From(h, log[pos]);
    Available(c, s, h.runs, false, s.q0, h.port0, log[pos], |h.got0|);
  }

  /** While a run has requests left, one more leaves through each port in every cycle in which both
      submission queues have room. */
  lemma SubmitsWhen(c: Config, m: Memory, s: Drive, h: Hist, second: bool)
    requires Inv(c, m, s, h)
    ensures Submitted(c, s, second).Some?
       <==> s.fsm.Requesting? && s.sub < Total(s.prog)
            && |h.port0.submitted| - |h.port0.issued| < c.subDepth && |h.port1.submitted| - |h.port1.issued| < c.subDepth
  {
    hide Total, Request, Counted, Orderly, Answered, Script, Scripts, Seen, Sent, ReadTotal;
  }

  /** Responses are taken in every cycle in which both ports show one, and in no other. */
  lemma PairsAreTaken(c: Config, s: Drive, e: Env, h: Hist)
    ensures var h', i := Record(c, s, e, h), e.wires;
            var both := i.resp0.Some? && i.resp1.Some?;
            && h'.got0 == h.got0 + (if both then [i.resp0.value] else [])
            && h'.got1 == h.got1 + (if both then [i.resp1.value] else [])
  {
  }

  // Every clock edge keeps it.

  lemma ControlledStep(c: Config, m: Memory, s: Drive, e: Env, h: Hist)
    requires Inv(c, m, s, h) && Serves(m, h, e)
    ensures Controlled(Next(c, s, e.wires), Record(c, s, e, h))
  {
    hide Total, Writing, Scripted, Counted, Controlled, Next, Record, Orderly, Answered, Shows;
    if Taking(e.wires) { TakingWhen(c, m, s, e, h); }
    if Starting(s) { ControlledStart(c, s, e, h); } else { ControlledRun(c, s, e, h); }
  }

  lemma ControlledStart(c: Config, s: Drive, e: Env, h: Hist)
    requires Controlled(s, h) && Starting(s) && !Taking(e.wires)
    ensures Controlled(Next(c, s, e.wires), Record(c, s, e, h))
  {
    hide Total, Writing, Fifo.Next, Errors, Count, Request;
    assert Before(Record(c, s, e, h).runs) == h.runs;
  }

  lemma ControlledRun(c: Config, s: Drive, e: Env, h: Hist)
    requires Controlled(s, h) && !Starting(s)
    requires Taking(e.wires) ==> Busy(s) && !Writing(s.prog) && Seen(s, h.runs) < Sent(s, h.runs)
    ensures Controlled(Next(c, s, e.wires), Record(c, s, e, h))
  {
    hide Total, Writing, Fifo.Next, Errors, Count, Request, ReadTotal, Before, RecordPort, Pattern;
  }

  lemma ScriptedStep(c: Config, s: Drive, e: Env, h: Hist, second: bool, q: seq<Req>, p: Port, grant: bool)
    requires Controlled(s, h) && Scripted(c, s, h.runs, second, q, p) && (Submitted(c, s, second).Some? ==> |q| < c.subDepth)
    ensures Scripted(c, Next(c, s, e.wires), Record(c, s, e, h).runs, second,
                     Fifo.Next(q, c.subDepth, Submitted(c, s, second), grant), RecordPort(p, q, Submitted(c, s, second), grant))
  {
    hide Total, Writing, Script, Fifo.Next, Errors, Count, Request, Seen;
    var submitted := Submitted(c, s, second);
    Fifo.Flow(q, c.subDepth, submitted, grant, p.submitted, p.issued);
    assert Fifo.Taken(q, c.subDepth, submitted) == Opt(submitted);
    ScriptedSoFar(c, s, e, h, second, p.submitted);
  }

  lemma ScriptedSoFar(c: Config, s: Drive, e: Env, h: Hist, second: bool, all: seq<Req>)
    requires Controlled(s, h) && (h.runs != [] ==> Sent(s, h.runs) <= Total(Last(h.runs)))
    requires all == Scripts(c, Before(h.runs), second) + (if h.runs == [] then [] else Script(c, Last(h.runs), second)[..Sent(s, h.runs)])
    ensures var runs, s' := Record(c, s, e, h).runs, Next(c, s, e.wires);
            && (runs != [] ==> Sent(s', runs) <= Total(Last(runs)))
            && all + Opt(Submitted(c, s, second))
               == Scripts(c, Before(runs), second) + (if runs == [] then [] else Script(c, Last(runs), second)[..Sent(s', runs)])
  {
    hide Total, Writing, Script, Fifo.Next, Errors, Count, Request, Seen;
    if Starting(s) {
      var runs := Record(c, s, e, h).runs;
      assert Before(runs) == h.runs;
      assert h.runs != [] ==> Script(c, Last(h.runs), second)[..Total(Last(h.runs))] == Script(c, Last(h.runs), second);
    } else if Submitted(c, s, second).Some? {
      ScriptPush(c, s.prog, second, s.sub);
    }
  }

  lemma WrongSame(c: Config, x: seq<Line>, y: seq<Line>, base: nat, n: nat, prog: Program, second: bool)
    requires x <= y && base + n <= |x|
    ensures Wrong(c, x, base, n, prog, second) == Wrong(c, y, base, n, prog, second)
  {
    if n > 0 { WrongSame(c, x, y, base, n - 1, prog, second); }
  }

  lemma CountedStep(c: Config, s: Drive, e: Env, h: Hist, second: bool, got: seq<Line>, resp: Option<Line>, errors: nat)
    requires Controlled(s, h) && Counted(c, second, h.runs, got, errors) && |got| == |h.got0|
    requires Taking(e.wires) ==> Busy(s) && !Writing(s.prog) && resp.Some?
    ensures Counted(c, second, Record(c, s, e, h).runs, got + (if Taking(e.wires) then [resp.value] else []),
                    Errors(errors, Starting(s), Taking(e.wires), resp != Some(Pattern(c, s.prog, second, s.resp))))
  {
    hide Total, Writing, Fifo.Next, Pattern;
    var got', runs := got + (if Taking(e.wires) then [resp.value] else []), Record(c, s, e, h).runs;
    if Starting(s) {
      assert Before(runs) == h.runs && ReadTotal(h.runs) == |h.got0|;
    } else if h.runs != [] {
      var base := ReadTotal(Before(h.runs));
      WrongSame(c, got, got', base, |got| - base, Last(h.runs), second);
    }
  }

  lemma AnsweredStep(c: Config, m: Memory, s: Drive, e: Env, h: Hist, second: bool, got: seq<Line>, resp: Option<Line>)
    requires Answered(m.cells, h, second, got) && Shows(m.cells, h, second, resp) && |got| == |h.got0|
    requires Taking(e.wires) ==> resp.Some?
    ensures Answered(m.cells, Record(c, s, e, h), second, got + (if Taking(e.wires) then [resp.value] else []))
  {
    var h', got' := Record(c, s, e, h), got + (if Taking(e.wires) then [resp.value] else []);
    assert PortOf(h, second).issued <= PortOf(h', second).issued && h.log <= h'.log;
    hide Record, PortOf;
    forall t | 0 <= t < |got'| ensures Reply(m.cells, PortOf(h', second).issued, h'.log, second, t, got'[t]) {
      ReplyStays(m.cells, PortOf(h, second).issued, PortOf(h', second).issued, h.log, h'.log, second, t, got'[t]);
    }
  }

  lemma ReplyStays(cells: bv64 -> Line, issued: seq<Req>, issued': seq<Req>, log: seq<Op>, log': seq<Op>, second: bool, t: nat, line: Line)
    requires Reply(cells, issued, log, second, t, line) && issued <= issued' && log <= log'
    ensures Reply(cells, issued', log', second, t, line)
  {
    hide Value, ReadCount;
    var pos :| 0 <= pos < |log| && IsNth(issued, log[pos], second, t) && line == Value(cells, log[..pos], log[pos].req.addr);
    assert log'[pos] == log[pos] && log'[..pos] == log[..pos];
    assert issued'[..log[pos].index] == issued[..log[pos].index];
  }

  /** More requests accepted leave the operations performed in order. */
  lemma OrderlyStays(lane: bv64 -> nat, h: Hist, h': Hist, log: seq<Op>)
    requires Orderly(lane, h, log) && h.port0.issued <= h'.port0.issued && h.port1.issued <= h'.port1.issued
    ensures Orderly(lane, h', log)
  {
    forall b | 0 <= b < |log| ensures From(h', log[b]) { assert From(h, log[b]); }
    forall b, k: nat | 0 <= b < |log| && k < log[b].index && SameLane(lane, h', log[b], k) ensures Earlier(log, b, log[b].second, k) {
      assert From(h, log[b]) && SameLane(lane, h, log[b], k);
    }
  }

  lemma InvStep(c: Config, m: Memory, s: Drive, e: Env, h: Hist)
    requires Inv(c, m, s, h) && Serves(m, h, e)
    ensures Inv(c, m, Next(c, s, e.wires), Record(c, s, e, h))
  {
    hide Total, Writing, Script, Scripts, Fifo.Next, Pattern, Errors, Request, Wrong, Orderly, Answered, Shows, Counted, Controlled;
    hide Scripted;
    var i, s', h' := e.wires, Next(c, s, e.wires), Record(c, s, e, h);
    if Taking(i) { TakingWhen(c, m, s, e, h); }
    assert |h.got0| == |h.got1| by { GotSame(s, h); }
    assert h'.got0 == h.got0 + (if Taking(i) then [i.resp0.value] else []);
    assert h'.got1 == h.got1 + (if Taking(i) then [i.resp1.value] else []);
    assert Controlled(s', h') by { ControlledStep(c, m, s, e, h); }
    assert Scripted(c, s', h'.runs, false, s'.q0, h'.port0) by { ScriptedStep(c, s, e, h, false, s.q0, h.port0, i.grant0); }
    assert Scripted(c, s', h'.runs, true, s'.q1, h'.port1) by { ScriptedStep(c, s, e, h, true, s.q1, h.port1, i.grant1); }
    assert Counted(c, false, h'.runs, h'.got0, s'.err0) by { CountedStep(c, s, e, h, false, h.got0, i.resp0, s.err0); }
    assert Counted(c, true, h'.runs, h'.got1, s'.err1) by { CountedStep(c, s, e, h, true, h.got1, i.resp1, s.err1); }
    assert Orderly(m.lane, h', h'.log) by { OrderlyStays(m.lane, h, h', h'.log); }
    assert Answered(m.cells, h', false, h'.got0) by { AnsweredStep(c, m, s, e, h, false, h.got0, i.resp0); }
    assert Answered(m.cells, h', true, h'.got1) by { AnsweredStep(c, m, s, e, h, true, h.got1, i.resp1); }
  }

  lemma GotSame(s: Drive, h: Hist)
    requires Controlled(s, h)
    ensures |h.got0| == |h.got1|
  {
  }

  // Runs of the driver.

  ghost predicate Served(c: Config, m: Memory, envs: seq<Env>)
    decreases |envs|, 1
  {
    envs == [] ||
    (var n := |envs| - 1;
     Served(c, m, envs[..n]) && Serves(m, After(c, envs[..n]).1, envs[n]))
  }

  function After(c: Config, envs: seq<Env>): (Drive, Hist)
    decreases |envs|, 0
  {
    if envs == [] then (RESET, START)
    else
      var (s, h) := After(c, envs[..|envs| - 1]);
      (Next(c, s, envs[|envs| - 1].wires), Record(c, s, envs[|envs| - 1], h))
  }

  lemma {:induction false} AfterInv(c: Config, m: Memory, envs: seq<Env>)
    requires Served(c, m, envs)
    ensures Inv(c, m, After(c, envs).0, After(c, envs).1)
  {
    hide Inv, Next, Record, Serves;
    if envs == [] {
      StartInv(c, m);
    } else {
      var n := |envs| - 1;
      AfterInv(c, m, envs[..n]);
      InvStep(c, m, After(c, envs[..n]).0, envs[n], After(c, envs[..n]).1);
    }
  }

  lemma StartInv(c: Config, m: Memory)
    ensures Inv(c, m, RESET, START)
  {
    StartControlled();
    StartScripted(c, false);
    StartScripted(c, true);
    hide Controlled, Scripted;
  }

  lemma StartControlled()
    ensures Controlled(RESET, START)
  {
    hide Total, Writing;
    assert Before(START.runs) == [] && ReadTotal([]) == 0;
  }

  lemma StartScripted(c: Config, second: bool)
    ensures Scripted(c, RESET, [], second, [], Port([], []))
  {
    assert Scripts(c, [], second) == [];
  }

  /** Both ports submit exactly the programs' requests, the same number at any time, whatever the
      backpressure; a run that is over has submitted all of them. */
  lemma ExactlyTheScript(c: Config, m: Memory, envs: seq<Env>, second: bool)
    requires Served(c, m, envs)
    ensures var (s, h) := After(c, envs);
            var port, q := if second then h.port1 else h.port0, if second then s.q1 else s.q0;
            && port.submitted == port.issued + q
            && port.submitted <= Scripts(c, h.runs, second)
            && |h.port0.submitted| == |h.port1.submitted|
            && (!s.fsm.Requesting? ==> port.submitted == Scripts(c, h.runs, second))
  {
    hide Next, Record, Total, Writing, Request, Counted, Orderly, Answered;
    AfterInv(c, m, envs);
    var (s, h) := After(c, envs);
    SameLength(c, Before(h.runs));
    if h.runs != [] {
      var last := Last(h.runs);
      assert Script(c, last, second)[..Total(last)] == Script(c, last, second);
      assert Scripts(c, h.runs, second) == Scripts(c, Before(h.runs), second) + Script(c, last, second);
    }
  }

  lemma {:induction false} SameLength(c: Config, runs: seq<Program>)
    ensures |Scripts(c, runs, false)| == |Scripts(c, runs, true)|
  {
    if runs != [] { SameLength(c, runs[..|runs| - 1]); }
  }

  // Reading back what was written.

  ghost predicate ReadsBack(write: Program, read: Program) {
    Writing(write) && !Writing(read) && read == write[3 := read[3]]
  }

  ghost predicate Distinct(prog: Program, second: bool) {
    forall i: nat, j: nat :: i < j < Total(prog) < 0x1_0000_0000_0000_0000 ==> Addr(prog, second, i) != Addr(prog, second, j)
  }

  /** No address of one port in `x` is an address of the other port in `y`. */
  ghost predicate Apart(x: Program, y: Program) {
    forall i: nat, j: nat :: i < Total(x) < 0x1_0000_0000_0000_0000 && j < Total(y) < 0x1_0000_0000_0000_0000 ==>
      Addr(x, false, i) != Addr(y, true, j) && Addr(x, true, i) != Addr(y, false, j)
  }

  /** All addresses of both ports are pairwise distinct. */
  ghost predicate AllDistinct(prog: Program) {
    Distinct(prog, false) && Distinct(prog, true) && Apart(prog, prog)
  }

  /** Every earlier writing run was read back since, or left the addresses of the other port alone. */
  ghost predicate Undisturbed(earlier: seq<Program>, prog: Program) {
    forall k :: 0 <= k < |earlier| && Writing(earlier[k]) ==> Apart(earlier[k], prog) || ReadSince(earlier, k)
  }

  ghost predicate ReadSince(runs: seq<Program>, k: nat)
    requires k < |runs|
  {
    exists y :: k < y < |runs| && ReadsBack(runs[k], runs[y])
  }

  /** The last write to a cell decides. */
  lemma {:induction false} LastWrite(cells: bv64 -> Line, log: seq<Op>, q: nat, addr: bv64)
    requires q < |log| && log[q].req.isWrite && log[q].req.addr == addr
    requires forall b :: q < b < |log| ==> !(log[b].req.isWrite && log[b].req.addr == addr)
    ensures Value(cells, log, addr) == log[q].req.data
  {
    if q < |log| - 1 { LastWrite(cells, log[..|log| - 1], q, addr); }
  }

  lemma {:induction false} NoWrites(cells: bv64 -> Line, log: seq<Op>, n: nat, addr: bv64)
    requires n <= |log| && forall b :: n <= b < |log| ==> !log[b].req.isWrite
    ensures Value(cells, log, addr) == Value(cells, log[..n], addr)
  {
    if n < |log| {
      NoWrites(cells, log[..|log| - 1], n, addr);
      assert log[..|log| - 1][..n] == log[..n];
    } else {
      assert log[..n] == log;
    }
  }

  lemma {:induction false} ScriptsPrefix(c: Config, runs: seq<Program>, second: bool, n: nat)
    requires n <= |runs|
    ensures Scripts(c, runs[..n], second) <= Scripts(c, runs, second) && ReadTotal(runs[..n]) <= ReadTotal(runs)
  {
    if n < |runs| {
      ScriptsPrefix(c, runs[..|runs| - 1], second, n);
      assert runs[..|runs| - 1][..n] == runs[..n];
    } else {
      assert runs[..n] == runs;
    }
  }

  lemma ScriptsNext(c: Config, runs: seq<Program>, second: bool, n: nat)
    requires n < |runs|
    ensures Scripts(c, runs[..n + 1], second) == Scripts(c, runs[..n], second) + Script(c, runs[n], second)
    ensures ReadTotal(runs[..n + 1]) == ReadTotal(runs[..n]) + (if Writing(runs[n]) then 0 else Total(runs[n]))
  {
    hide Total, Writing, Script;
    assert runs[..n + 1][..n] == runs[..n];
  }

  /** A write of some earlier run is one of a writing run's. */
  lemma {:induction false} ScriptsWrite(c: Config, runs: seq<Program>, second: bool, k: nat) returns (run: nat, i: nat)
    requires k < |Scripts(c, runs, second)| && Scripts(c, runs, second)[k].isWrite
    ensures run < |runs| && Writing(runs[run]) && i < Total(runs[run]) < 0x1_0000_0000_0000_0000
    ensures Scripts(c, runs, second)[k].addr == Addr(runs[run], second, i)
    ensures k == |Scripts(c, runs[..run], second)| + i
  {
    hide Total, Writing, Addr, Pattern;
    var before, last := runs[..|runs| - 1], runs[|runs| - 1];
    if k < |Scripts(c, before, second)| {
      run, i := ScriptsWrite(c, before, second, k);
      assert before[..run] == runs[..run];
    } else {
      run, i := |runs| - 1, k - |Scripts(c, before, second)|;
      TotalFits(last);
      assert Scripts(c, runs, second)[k] == Request(c, last, second, i);
    }
  }

  /** A port's read number `base + j`, counted from the start of a reading run, is that run's. */
  lemma ReadIs(c: Config, runs: seq<Program>, y: nat, second: bool, issued: seq<Req>, o: Op, j: nat)
    requires y < |runs| && !Writing(runs[y]) && j < Total(runs[y]) && issued <= Scripts(c, runs, second)
    requires IsNth(issued, o, second, ReadTotal(runs[..y]) + j) && issued[o.index] == o.req
    ensures o.index == |Scripts(c, runs[..y], second)| + j && o.req == Request(c, runs[y], second, j)
  {
    hide Total, Writing, ReadCount, Script, Scripts, Request, ReadTotal;
    var scripts, script, k := Scripts(c, runs[..y], second), Script(c, runs[y], second), o.index;
    ScriptsReads(c, runs[..y], second);
    ScriptsReads(c, runs[..y + 1], second);
    ScriptsNext(c, runs, second, y);
    ScriptsPrefix(c, runs, second, y + 1);
    assert issued[..k + 1] == issued[..k] + [o.req];
    ReadCountPush(issued[..k], o.req);
    if k < |scripts| {
      ReadCountPrefix(issued[..k + 1], scripts);
    } else if |scripts + script| <= k {
      ReadCountPrefix(scripts + script, issued[..k]);
    } else {
      assert issued[..k] == scripts + script[..k - |scripts|];
      ScriptReads(c, scripts, runs[y], second, k - |scripts|);
      ScriptAt(c, runs[y], second, j);
    }
  }

  lemma ScriptAt(c: Config, prog: Program, second: bool, i: nat)
    requires i < Total(prog)
    ensures Script(c, prog, second)[i] == Request(c, prog, second, i)
  {
  }

  lemma UnfoldReadsBack(write: Program, read: Program)
    requires ReadsBack(write, read)
    ensures Writing(write) && !Writing(read) && Total(write) == Total(read)
  {
  }

  lemma SameSettings(c: Config, write: Program, read: Program, second: bool, j: nat)
    requires ReadsBack(write, read) && j < Total(read)
    ensures Total(write) == Total(read) < 0x1_0000_0000_0000_0000
    ensures Request(c, write, second, j).addr == Request(c, read, second, j).addr == Addr(write, second, j)
    ensures Request(c, write, second, j).isWrite && Request(c, write, second, j).data == Pattern(c, read, second, j)
  {
    hide AddrFrom, AsNat;
    assert forall k :: 0 <= k < 8 && k != 3 ==> read[k] == write[k];
    assert read[0] == write[0] && read[1] == write[1] && read[2] == write[2] && read[4] == write[4];
    assert read[5] == write[5] && read[6] == write[6] && read[7] == write[7];
    TotalFits(read);
    assert Addr(write, second, j) == Addr(read, second, j);
  }

  /** Where a request stands: in an earlier run, the writing run or the reading run. */
  ghost predicate Placed(c: Config, earlier: seq<Program>, write: Program, read: Program, second: bool, issued: seq<Req>) {
    issued <= Scripts(c, earlier, second) + Script(c, write, second) + Script(c, read, second)
  }

  /** What is known when the last two programs wrote and read with the same settings. */
  ghost predicate Back(c: Config, h: Hist, write: Program, read: Program) {
    && |h.runs| >= 2 && write == h.runs[|h.runs| - 2] && read == Last(h.runs) && ReadsBack(write, read)
  }

  function EarlierRuns(h: Hist): seq<Program>
    requires |h.runs| >= 2
  {
    h.runs[..|h.runs| - 2]
  }

  predicate AnsweredBefore(h: Hist, b: nat, second: bool, t: nat)
    requires b <= |h.log|
  {
    exists a :: 0 <= a < b && IsNth(PortOf(h, second).issued, h.log[a], second, t)
  }

  ghost predicate Adds(h0: Hist, h: Hist) {
    && h0.runs <= h.runs && |h.runs| <= |h0.runs| + 1 && h0.log <= h.log
    && h0.port0.issued <= h.port0.issued && h0.port1.issued <= h.port1.issued
  }

  lemma AnsweredStays(h: Hist, h': Hist, b: nat, b': nat, second: bool, t: nat)
    requires b <= b' && b <= |h.log| && b' <= |h'.log| && AnsweredBefore(h, b, second, t)
    requires Adds(h, h')
    ensures AnsweredBefore(h', b', second, t)
  {
    hide ReadCount;
    var a :| 0 <= a < b && IsNth(PortOf(h, second).issued, h.log[a], second, t);
    assert h'.log[a] == h.log[a];
    assert PortOf(h', second).issued[..h.log[a].index] == PortOf(h, second).issued[..h.log[a].index];
  }

  /** Which run an accepted request is of: one that has been started. */
  lemma RunStarted(c: Config, m: Memory, envs: seq<Env>, o: Op, x: nat)
    requires Served(c, m, envs) && From(After(c, envs).1, o) && x <= |After(c, envs).1.runs|
    requires |Scripts(c, After(c, envs).1.runs[..x], o.second)| <= o.index
    ensures x < |After(c, envs).1.runs|
  {
    ExactlyTheScript(c, m, envs, o.second);
    hide Served, After, Scripts;
    var h := After(c, envs).1;
    assert h.runs[..|h.runs|] == h.runs;
  }

  lemma AnswerThere(cells: bv64 -> Line, h: Hist, second: bool, got: seq<Line>, t: nat)
    requires Answered(cells, h, second, got) && t < |got|
    ensures AnsweredBefore(h, |h.log|, second, t)
  {
    hide Value, IsNth;
    assert Reply(cells, PortOf(h, second).issued, h.log, second, t, got[t]);
  }

  /** Once a run has been started, every read of the runs before it has been answered. */
  lemma EarlierReads(c: Config, m: Memory, envs: seq<Env>, x: nat, second: bool, t: nat)
    requires Served(c, m, envs) && x < |After(c, envs).1.runs| && t < ReadTotal(After(c, envs).1.runs[..x])
    ensures AnsweredBefore(After(c, envs).1, |After(c, envs).1.log|, second, t)
  {
    AfterInv(c, m, envs);
    hide Served, After;
    TakenBefore(c, m, After(c, envs).0, After(c, envs).1, x, second, t);
  }

  lemma TakenBefore(c: Config, m: Memory, s: Drive, h: Hist, x: nat, second: bool, t: nat)
    requires Inv(c, m, s, h) && x < |h.runs| && t < ReadTotal(h.runs[..x])
    ensures AnsweredBefore(h, |h.log|, second, t)
  {
    ScriptsPrefix(c, Before(h.runs), second, x);
    assert Before(h.runs)[..x] == h.runs[..x];
    assert ReadTotal(Before(h.runs)) <= |h.got0| == |h.got1|;
    hide Scripted, Counted, Orderly, Answered, ReadTotal, AnsweredBefore, Controlled, Scripts;
    AnswerThere(m.cells, h, second, if second then h.got1 else h.got0, t);
  }

  /** One more cycle adds to everything. */
  lemma Extends(c: Config, m: Memory, envs: seq<Env>)
    requires Served(c, m, envs) && envs != []
    ensures Served(c, m, envs[..|envs| - 1])
    ensures Adds(After(c, envs[..|envs| - 1]).1, After(c, envs).1)
    ensures forall b :: 0 <= b < |After(c, envs).1.log| ==> From(After(c, envs[..|envs| - 1]).1, After(c, envs).1.log[b])
  {
    hide Next, Shows, Submitted;
  }

  /** An operation performed belongs to a run started before. */
  lemma OfStartedRun(c: Config, m: Memory, envs: seq<Env>, h: Hist, b: nat, x: nat)
    requires Served(c, m, envs) && envs != [] && h == After(c, envs).1 && b < |h.log| && x < |h.runs|
    requires |Scripts(c, h.runs[..x], h.log[b].second)| <= h.log[b].index
    ensures x < |After(c, envs[..|envs| - 1]).1.runs|
  {
    Extends(c, m, envs);
    var h0 := After(c, envs[..|envs| - 1]).1;
    assert From(h0, h.log[b]) && h.runs[..x] == h0.runs[..x];
    hide Served, After, Scripts, From;
    RunStarted(c, m, envs[..|envs| - 1], h.log[b], x);
  }

  lemma NewlyAnswered(c: Config, m: Memory, envs: seq<Env>, h0: Hist, h: Hist, b: nat, x: nat, second: bool, t: nat)
    requires Served(c, m, envs) && h0 == After(c, envs).1 && x < |h0.runs| && t < ReadTotal(h0.runs[..x])
    requires Adds(h0, h)
    requires |h0.log| <= b < |h.log|
    ensures AnsweredBefore(h, b, second, t)
  {
    hide Served, After, ReadTotal, AnsweredBefore;
    EarlierReads(c, m, envs, x, second, t);
    AnsweredStays(h0, h, |h0.log|, b, second, t);
  }

  /** An operation of a run is performed after every read of the runs before it. */
  lemma {:induction false} AfterEarlierReads(c: Config, m: Memory, envs: seq<Env>, h: Hist, b: nat, x: nat, second: bool, t: nat)
    requires Served(c, m, envs) && h == After(c, envs).1
    requires b < |h.log| && x < |h.runs| && t < ReadTotal(h.runs[..x])
    requires |Scripts(c, h.runs[..x], h.log[b].second)| <= h.log[b].index
    ensures AnsweredBefore(h, b, second, t)
    decreases |envs|
  {
    hide *;
    SomethingHappened(c, envs, h, b);
    var before := envs[..|envs| - 1];
    var h0 := After(c, before).1;
    Extends(c, m, envs);
    OfStartedRun(c, m, envs, h, b, x);
    AddsOnly(h0, h, x);
    if b < |h0.log| {
      AfterEarlierReads(c, m, before, h0, b, x, second, t);
      AnsweredStays(h0, h, b, b, second, t);
    } else {
      NewlyAnswered(c, m, before, h0, h, b, x, second, t);
    }
  }

  lemma SomethingHappened(c: Config, envs: seq<Env>, h: Hist, b: nat)
    requires h == After(c, envs).1 && b < |h.log|
    ensures envs != []
  {
  }

  lemma AddsOnly(h0: Hist, h: Hist, x: nat)
    requires Adds(h0, h) && x <= |h0.runs|
    ensures h.runs[..x] == h0.runs[..x] && |h0.log| <= |h.log| && forall b :: 0 <= b < |h0.log| ==> h.log[b] == h0.log[b]
  {
  }

  /** No operation but the writing run's own writes the cell of its `j`-th request after it. */
  lemma NoLaterWrite(c: Config, m: Memory, envs: seq<Env>, h: Hist, write: Program, read: Program, second: bool, j: nat, q: nat, b: nat)
    requires Served(c, m, envs) && h == After(c, envs).1 && Back(c, h, write, read)
    requires Orderly(m.lane, h, h.log) && q < b < |h.log|
    requires Placed(c, EarlierRuns(h), write, read, false, h.port0.issued) && Placed(c, EarlierRuns(h), write, read, true, h.port1.issued)
    requires AllDistinct(write) && Undisturbed(EarlierRuns(h), write) && j < Total(write)
    requires h.log[q] == Op(second, |Scripts(c, EarlierRuns(h), second)| + j, Request(c, write, second, j))
    ensures j < 0x1_0000_0000_0000_0000 && !(h.log[b].req.isWrite && h.log[b].req.addr == Addr(write, second, j))
  {
    TotalFits(write);
    hide Total, Writing, Addr, Pattern, Script, Value, Served, After, Orderly, Undisturbed;
    if h.log[b].req.isWrite {
      if h.log[b].second == second {
        OwnWrite(c, m.lane, h, EarlierRuns(h), write, read, second, j, q, b);
      } else {
        OtherWrite(c, m, envs, h, write, read, h.log[b].second, j, q, b);
      }
    }
  }

  lemma OwnWrite(c: Config, lane: bv64 -> nat, h: Hist, earlier: seq<Program>, write: Program, read: Program,
                 second: bool, j: nat, q: nat, b: nat)
    requires Orderly(lane, h, h.log) && q < b < |h.log|
    requires Placed(c, earlier, write, read, second, PortOf(h, second).issued)
    requires ReadsBack(write, read) && Distinct(write, second) && j < Total(write)
    requires h.log[q] == Op(second, |Scripts(c, earlier, second)| + j, Request(c, write, second, j))
    requires h.log[b].second == second && h.log[b].req.isWrite
    ensures h.log[b].req.addr != Addr(write, second, j)
  {
    hide Total, Writing, Addr, Pattern, Scripts;
    var k, w0 := h.log[b].index, |Scripts(c, earlier, second)|;
    TotalFits(write);
    assert From(h, h.log[q]) && From(h, h.log[b]);
    if h.log[b].req.addr == h.log[q].req.addr { LaterIsHigher(lane, h, q, b); }
    if w0 + j < k < w0 + Total(write) {
      ScriptAt(c, write, second, k - w0);
    } else if w0 + Total(write) <= k {
      ScriptAt(c, read, second, k - w0 - Total(write));
    }
  }

  /** A port's operations on one cell are performed in its own order. */
  lemma LaterIsHigher(lane: bv64 -> nat, h: Hist, q: nat, b: nat)
    requires Orderly(lane, h, h.log) && q < b < |h.log|
    requires h.log[q].second == h.log[b].second && h.log[q].req.addr == h.log[b].req.addr
    ensures h.log[q].index < h.log[b].index
  {
    assert From(h, h.log[b]) && From(h, h.log[q]);
    if h.log[b].index < h.log[q].index {
      assert SameLane(lane, h, h.log[q], h.log[b].index);
    }
  }

  lemma OtherWrite(c: Config, m: Memory, envs: seq<Env>, h: Hist, write: Program, read: Program, other: bool, j: nat, q: nat, b: nat)
    requires Served(c, m, envs) && h == After(c, envs).1 && Back(c, h, write, read)
    requires Orderly(m.lane, h, h.log) && q < b < |h.log| && j < Total(write)
    requires Placed(c, EarlierRuns(h), write, read, other, PortOf(h, other).issued)
    requires Apart(write, write) && Undisturbed(EarlierRuns(h), write)
    requires h.log[q] == Op(!other, |Scripts(c, EarlierRuns(h), !other)| + j, Request(c, write, !other, j))
    requires h.log[b].second == other && h.log[b].req.isWrite
    ensures j < 0x1_0000_0000_0000_0000 && h.log[b].req.addr != Addr(write, !other, j)
  {
    TotalFits(write);
    assert From(h, h.log[b]);
    hide Total, Writing, Addr, Pattern, Served, After, Orderly, Undisturbed, Apart, Request, ReadsBack;
    if h.log[b].index < |Scripts(c, EarlierRuns(h), other)| {
      assert h.log[b].req == Scripts(c, EarlierRuns(h), other)[h.log[b].index];
      hide Placed, Script, Scripts;
      EarlierWrite(c, m, envs, h, EarlierRuns(h), write, other, j, q, b);
    } else {
      hide Scripts, Script;
      SameRunWrite(c, EarlierRuns(h), write, read, other, PortOf(h, other).issued, h.log[b].index, j);
    }
  }

  lemma SameRunWrite(c: Config, earlier: seq<Program>, write: Program, read: Program, other: bool, issued: seq<Req>, k: nat, j: nat)
    requires Placed(c, earlier, write, read, other, issued) && ReadsBack(write, read) && Apart(write, write)
    requires |Scripts(c, earlier, other)| <= k < |issued| && issued[k].isWrite && j < Total(write) < 0x1_0000_0000_0000_0000
    ensures issued[k].addr != Addr(write, !other, j)
  {
    hide Total, Writing, Addr, Pattern, Scripts;
    var w0 := |Scripts(c, earlier, other)|;
    if k < w0 + Total(write) { ScriptAt(c, write, other, k - w0); }
  }

  lemma EarlierWrite(c: Config, m: Memory, envs: seq<Env>, h: Hist, earlier: seq<Program>, write: Program,
                     other: bool, j: nat, q: nat, b: nat)
    requires Served(c, m, envs) && h == After(c, envs).1 && |earlier| < |h.runs| && earlier == h.runs[..|earlier|]
    requires Orderly(m.lane, h, h.log) && q < b < |h.log| && j < Total(write) < 0x1_0000_0000_0000_0000
    requires Undisturbed(earlier, write)
    requires h.log[q].second == !other && |Scripts(c, earlier, !other)| <= h.log[q].index
    requires h.log[b].second == other && h.log[b].req.isWrite && h.log[b].index < |Scripts(c, earlier, other)|
    requires h.log[b].req == Scripts(c, earlier, other)[h.log[b].index]
    ensures h.log[b].req.addr != Addr(write, !other, j)
  {
    hide *;
    var run, i := ScriptsWrite(c, earlier, other, h.log[b].index);
    if Apart(earlier[run], write) {
      ApartAt(earlier[run], write, other, i, j);
    } else {
      var y := ReadBackAt(earlier, write, run);
      assert earlier[..run] == h.runs[..run];
      Flushed(c, m, envs, h, |earlier|, other, q, b, run, i, y);
    }
  }

  lemma ApartAt(x: Program, y: Program, second: bool, i: nat, j: nat)
    requires Apart(x, y) && i < Total(x) < 0x1_0000_0000_0000_0000 && j < Total(y) < 0x1_0000_0000_0000_0000
    ensures Addr(x, second, i) != Addr(y, !second, j)
  {
  }

  lemma ReadBackAt(earlier: seq<Program>, prog: Program, run: nat) returns (y: nat)
    requires Undisturbed(earlier, prog) && run < |earlier| && Writing(earlier[run]) && !Apart(earlier[run], prog)
    ensures run < y < |earlier| && ReadsBack(earlier[run], earlier[y])
  {
    assert ReadSince(earlier, run);
    var at :| run < at < |earlier| && ReadsBack(earlier[run], earlier[at]);
    y := at;
  }

  /** Where a reading run's read number `i` stands among all reads. */
  lemma ReadNumber(c: Config, runs: seq<Program>, n: nat, y: nat, second: bool, i: nat)
    requires y < n <= |runs| && !Writing(runs[y]) && i < Total(runs[y])
    ensures ReadTotal(runs[..y]) + i < ReadTotal(runs[..n])
  {
    hide Total, Writing, Script, Scripts, ReadTotal;
    ScriptsNext(c, runs, second, y);
    ScriptsPrefix(c, runs[..n], second, y + 1);
    assert runs[..n][..y + 1] == runs[..y + 1];
  }

  /** The read that confirmed an earlier write came before any later run's operation. */
  lemma ReadConfirmed(c: Config, m: Memory, envs: seq<Env>, h: Hist, n: nat, other: bool, q: nat, y: nat, i: nat) returns (a: nat)
    requires Served(c, m, envs) && h == After(c, envs).1 && Orderly(m.lane, h, h.log)
    requires q < |h.log| && y < n < |h.runs| && !Writing(h.runs[y]) && i < Total(h.runs[y])
    requires |Scripts(c, h.runs[..n], h.log[q].second)| <= h.log[q].index
    ensures a < q && h.log[a] == Op(other, |Scripts(c, h.runs[..y], other)| + i, Request(c, h.runs[y], other, i))
  {
    hide Total, Writing, Served, After, Script, Scripts, ReadTotal, ReadCount, Request, Orderly;
    var t := ReadTotal(h.runs[..y]) + i;
    ReadNumber(c, h.runs, n, y, other, i);
    AfterEarlierReads(c, m, envs, h, q, n, other, t);
    var at :| 0 <= at < q && IsNth(PortOf(h, other).issued, h.log[at], other, t);
    a := at;
    InLog(m.lane, h, a);
    assert PortOf(h, other).issued <= Scripts(c, h.runs, other) by { ExactlyTheScript(c, m, envs, other); }
    ReadIs(c, h.runs, y, other, PortOf(h, other).issued, h.log[a], i);
  }

  lemma InLog(lane: bv64 -> nat, h: Hist, a: nat)
    requires Orderly(lane, h, h.log) && a < |h.log|
    ensures From(h, h.log[a])
  {
  }

  /** A write that has been read back was performed before any later run's operation. */
  lemma Flushed(c: Config, m: Memory, envs: seq<Env>, h: Hist, n: nat, other: bool, q: nat, b: nat, run: nat, i: nat, y: nat)
    requires Served(c, m, envs) && h == After(c, envs).1 && Orderly(m.lane, h, h.log)
    requires q < |h.log| && b < |h.log| && run < y < n < |h.runs| && i < Total(h.runs[run]) < 0x1_0000_0000_0000_0000
    requires |Scripts(c, h.runs[..n], h.log[q].second)| <= h.log[q].index
    requires ReadsBack(h.runs[run], h.runs[y])
    requires h.log[b].second == other && h.log[b].index == |Scripts(c, h.runs[..run], other)| + i
    requires h.log[b].req.addr == Addr(h.runs[run], other, i)
    ensures b <= q
  {
    var a := ConfirmedAt(c, m, envs, h, n, other, q, run, i, y);
    hide Addr, Served, After, Orderly, Scripts, ReadsBack, Total;
    if a < b { LaterIsHigher(m.lane, h, a, b); }
  }

  lemma ConfirmedAt(c: Config, m: Memory, envs: seq<Env>, h: Hist, n: nat, other: bool, q: nat, run: nat, i: nat, y: nat) returns (a: nat)
    requires Served(c, m, envs) && h == After(c, envs).1 && Orderly(m.lane, h, h.log)
    requires q < |h.log| && run < y < n < |h.runs| && i < Total(h.runs[run]) < 0x1_0000_0000_0000_0000
    requires |Scripts(c, h.runs[..n], h.log[q].second)| <= h.log[q].index
    requires ReadsBack(h.runs[run], h.runs[y])
    ensures a < q && h.log[a].second == other && h.log[a].req.addr == Addr(h.runs[run], other, i)
    ensures h.log[a].index > |Scripts(c, h.runs[..run], other)| + i
  {
    UnfoldReadsBack(h.runs[run], h.runs[y]);
    SameSettings(c, h.runs[run], h.runs[y], other, i);
    hide Total, Writing, Addr, Served, After, Orderly, Script, Scripts, ReadTotal, ReadsBack, Request;
    a := ReadConfirmed(c, m, envs, h, n, other, q, y, i);
    RunsInOrder(c, h.runs, other, run, y);
  }

  lemma RunsInOrder(c: Config, runs: seq<Program>, second: bool, x: nat, y: nat)
    requires x < y <= |runs|
    ensures |Scripts(c, runs[..x], second)| + Total(runs[x]) <= |Scripts(c, runs[..y], second)|
  {
    hide Total, Script, Scripts, ReadTotal;
    ScriptsNext(c, runs, second, x);
    ScriptsPrefix(c, runs[..y], second, x + 1);
    assert runs[..y][..x + 1] == runs[..x + 1];
  }

  /** A read of the reading run is performed after its write. */
  lemma WriteCameFirst(c: Config, lane: bv64 -> nat, h: Hist, earlier: seq<Program>, write: Program, read: Program,
                       second: bool, j: nat, pos: nat) returns (q: nat)
    requires Orderly(lane, h, h.log) && pos < |h.log|
    requires Placed(c, earlier, write, read, second, PortOf(h, second).issued)
    requires ReadsBack(write, read) && j < Total(read)
    requires h.log[pos] == Op(second, |Scripts(c, earlier, second)| + Total(write) + j, Request(c, read, second, j))
    ensures j < Total(write) && q < pos
    ensures h.log[q] == Op(second, |Scripts(c, earlier, second)| + j, Request(c, write, second, j))
  {
    SameSettings(c, write, read, second, j);
    hide Total, Writing, Addr, Pattern, Scripts, Value, ReadsBack;
    var o, k := h.log[pos], |Scripts(c, earlier, second)| + j;
    assert From(h, o);
    assert PortOf(h, second).issued[k] == Request(c, write, second, j) by { ScriptAt(c, write, second, j); }
    assert SameLane(lane, h, o, k);
    assert Earlier(h.log, pos, second, k);
    var at :| 0 <= at < pos && h.log[at].second == second && h.log[at].index == k;
    assert From(h, h.log[at]);
    q := at;
  }

  /** And sees it. */
  lemma SeesItsWrite(c: Config, m: Memory, envs: seq<Env>, h: Hist, write: Program, read: Program, second: bool, j: nat, pos: nat)
    requires Served(c, m, envs) && h == After(c, envs).1 && Back(c, h, write, read)
    requires Orderly(m.lane, h, h.log) && pos < |h.log|
    requires Placed(c, EarlierRuns(h), write, read, false, h.port0.issued) && Placed(c, EarlierRuns(h), write, read, true, h.port1.issued)
    requires AllDistinct(write) && Undisturbed(EarlierRuns(h), write) && j < Total(read)
    requires h.log[pos] == Op(second, |Scripts(c, EarlierRuns(h), second)| + Total(write) + j, Request(c, read, second, j))
    ensures Value(m.cells, h.log[..pos], h.log[pos].req.addr) == Pattern(c, read, second, j)
  {
    SameSettings(c, write, read, second, j);
    hide Total, Writing, Addr, Pattern, Script, Value, Orderly, Placed, AllDistinct, Undisturbed, ReadsBack, Scripts, Served, After;
    var q := WriteCameFirst(c, m.lane, h, EarlierRuns(h), write, read, second, j, pos);
    forall b | q < b < pos ensures !(h.log[..pos][b].req.isWrite && h.log[..pos][b].req.addr == Addr(write, second, j)) {
      NoLaterWrite(c, m, envs, h, write, read, second, j, q, b);
    }
    LastWrite(m.cells, h.log[..pos], q, Addr(write, second, j));
  }

  lemma {:induction false} NoneWrong(c: Config, got: seq<Line>, base: nat, n: nat, prog: Program, second: bool)
    requires base + n <= |got|
    ensures Wrong(c, got, base, n, prog, second) == 0 <==> forall j :: 0 <= j < n ==> got[base + j] == Pattern(c, prog, second, j)
  {
    if n > 0 { NoneWrong(c, got, base, n - 1, prog, second); }
  }

  lemma BeforeBack(c: Config, h: Hist, write: Program, read: Program, second: bool)
    requires Back(c, h, write, read)
    ensures Scripts(c, Before(h.runs), second) == Scripts(c, EarlierRuns(h), second) + Script(c, write, second)
    ensures |Scripts(c, Before(h.runs), second)| == |Scripts(c, EarlierRuns(h), second)| + Total(write)
  {
    hide Total, Writing, Script;
    assert Before(h.runs)[..|Before(h.runs)| - 1] == EarlierRuns(h);
  }

  lemma IsPlaced(c: Config, s: Drive, h: Hist, write: Program, read: Program, second: bool, q: seq<Req>)
    requires Back(c, h, write, read) && Scripted(c, s, h.runs, second, q, PortOf(h, second))
    ensures Placed(c, EarlierRuns(h), write, read, second, PortOf(h, second).issued)
    ensures PortOf(h, second).issued <= Scripts(c, h.runs, second)
  {
    hide Total, Writing, Script, Sent;
    BeforeBack(c, h, write, read, second);
    var before, script := Scripts(c, Before(h.runs), second), Script(c, read, second);
    assert before + script[..Sent(s, h.runs)] <= before + script;
  }

  /** A response of the last run, and the operation it answers. */
  lemma ResponseOf(c: Config, m: Memory, s: Drive, h: Hist, write: Program, read: Program, second: bool, q: seq<Req>,
                   got: seq<Line>, j: nat) returns (pos: nat)
    requires Back(c, h, write, read) && Scripted(c, s, h.runs, second, q, PortOf(h, second)) && Orderly(m.lane, h, h.log)
    requires Answered(m.cells, h, second, got) && ReadTotal(Before(h.runs)) + j < |got| && j < Total(read)
    ensures pos < |h.log|
    ensures h.log[pos] == Op(second, |Scripts(c, EarlierRuns(h), second)| + Total(write) + j, Request(c, read, second, j))
    ensures got[ReadTotal(Before(h.runs)) + j] == Value(m.cells, h.log[..pos], h.log[pos].req.addr)
  {
    hide *;
    pos := AnswerPlace(m, h, second, got, ReadTotal(Before(h.runs)) + j);
    IsPlaced(c, s, h, write, read, second, q);
    PlaceIs(c, h, write, read, second, PortOf(h, second).issued, h.log[pos], j);
  }

  lemma PlaceIs(c: Config, h: Hist, write: Program, read: Program, second: bool, issued: seq<Req>, o: Op, j: nat)
    requires Back(c, h, write, read) && j < Total(read) && issued <= Scripts(c, h.runs, second)
    requires IsNth(issued, o, second, ReadTotal(Before(h.runs)) + j) && issued[o.index] == o.req
    ensures o == Op(second, |Scripts(c, EarlierRuns(h), second)| + Total(write) + j, Request(c, read, second, j))
  {
    BeforeBack(c, h, write, read, second);
    UnfoldReadsBack(write, read);
    assert h.runs[..|h.runs| - 1] == Before(h.runs) && h.runs[|h.runs| - 1] == read && o.second == second;
    hide *;
    ReadIs(c, h.runs, |h.runs| - 1, second, issued, o, j);
  }

  /** The operation a response answers. */
  lemma AnswerPlace(m: Memory, h: Hist, second: bool, got: seq<Line>, t: nat) returns (pos: nat)
    requires Orderly(m.lane, h, h.log) && Answered(m.cells, h, second, got) && t < |got|
    ensures pos < |h.log| && IsNth(PortOf(h, second).issued, h.log[pos], second, t)
    ensures PortOf(h, second).issued[h.log[pos].index] == h.log[pos].req
    ensures got[t] == Value(m.cells, h.log[..pos], h.log[pos].req.addr)
  {
    hide Value, ReadCount;
    var issued := PortOf(h, second).issued;
    assert Reply(m.cells, issued, h.log, second, t, got[t]);
    var at :| 0 <= at < |h.log| && IsNth(issued, h.log[at], second, t) && got[t] == Value(m.cells, h.log[..at], h.log[at].req.addr);
    pos := at;
    assert From(h, h.log[pos]);
  }

  /** One port: no mismatch. */
  lemma PortReadsBack(c: Config, m: Memory, envs: seq<Env>, s: Drive, h: Hist, write: Program, read: Program, second: bool, q: seq<Req>,
                      got: seq<Line>, errors: nat)
    requires Served(c, m, envs) && h == After(c, envs).1
    requires Back(c, h, write, read) && AllDistinct(write) && Undisturbed(EarlierRuns(h), write)
    requires Placed(c, EarlierRuns(h), write, read, false, h.port0.issued) && Placed(c, EarlierRuns(h), write, read, true, h.port1.issued)
    requires Scripted(c, s, h.runs, second, q, PortOf(h, second)) && Orderly(m.lane, h, h.log)
    requires Answered(m.cells, h, second, got) && Counted(c, second, h.runs, got, errors)
    requires |got| <= ReadTotal(Before(h.runs)) + Total(read)
    ensures errors == 0
  {
    hide Total, Writing, Script, Sent, Scripts, Value, Scripted, Orderly, Answered, AllDistinct, Undisturbed, Placed, Pattern, Wrong;
    hide Served, After;
    var base := ReadTotal(Before(h.runs));
    forall j | 0 <= j < |got| - base ensures got[base + j] == Pattern(c, read, second, j) {
      var pos := ResponseOf(c, m, s, h, write, read, second, q, got, j);
      SeesItsWrite(c, m, envs, h, write, read, second, j, pos);
    }
    NoneWrong(c, got, base, |got| - base, read, second);
  }

  lemma TakenAtMost(c: Config, s: Drive, h: Hist, second: bool, q: seq<Req>)
    requires Controlled(s, h) && h.runs != [] && Scripted(c, s, h.runs, second, q, PortOf(h, second))
    ensures |h.got0| == |h.got1| <= ReadTotal(Before(h.runs)) + Total(Last(h.runs))
    ensures !Busy(s) && !Writing(Last(h.runs)) ==> |h.got0| == ReadTotal(Before(h.runs)) + Total(Last(h.runs))
  {
    hide Total, Writing, Script, Scripts, ReadTotal;
  }

  /** After a writing run, a reading run with the same settings finds no error at either port,
      provided all addresses of both ports are distinct and every earlier writing run was read back
      or left the other port's addresses alone; when it is over it has taken one pair of responses
      per request. */
  lemma WriteThenRead(c: Config, m: Memory, envs: seq<Env>, write: Program, read: Program)
    requires Served(c, m, envs) && Back(c, After(c, envs).1, write, read)
    requires AllDistinct(write) && Undisturbed(EarlierRuns(After(c, envs).1), write)
    ensures var (s, h) := After(c, envs);
            s.err0 == 0 && s.err1 == 0 && (!Busy(s) ==> |h.got0| == |h.got1| == ReadTotal(Before(h.runs)) + Total(read))
  {
    AfterInv(c, m, envs);
    var (s, h) := After(c, envs);
    UnfoldReadsBack(write, read);
    hide Total, Writing, Scripted, Orderly, Answered, AllDistinct, Undisturbed, Counted, Placed, Controlled, ReadsBack, Served, After;
    TakenAtMost(c, s, h, false, s.q0);
    IsPlaced(c, s, h, write, read, false, s.q0);
    IsPlaced(c, s, h, write, read, true, s.q1);
    PortReadsBack(c, m, envs, s, h, write, read, false, s.q0, h.got0, s.err0);
    PortReadsBack(c, m, envs, s, h, write, read, true, s.q1, h.got1, s.err1);
  }

  // When addresses clash.

  /** By the time the first request of the last run is performed, all writes have been. */
  ghost predicate Settled(c: Config, h: Hist)
    requires h.runs != []
  {
    forall a, b :: 0 <= a < b < |h.log| && h.log[a].index >= |Scripts(c, Before(h.runs), h.log[a].second)| ==> !h.log[b].req.isWrite
  }

  /** Two reads of one cell, of which at most one can see its own pattern. */
  lemma SameCell(c: Config, m: Memory, h: Hist, write: Program, read: Program, x: nat, y: nat, p: bool, i: nat, p': bool, j: nat)
    requires Back(c, h, write, read) && Settled(c, h) && x <= y < |h.log| && i < Total(read) && j < Total(read)
    requires h.log[x] == Op(p, |Scripts(c, EarlierRuns(h), p)| + Total(write) + i, Request(c, read, p, i))
    requires h.log[y] == Op(p', |Scripts(c, EarlierRuns(h), p')| + Total(write) + j, Request(c, read, p', j))
    requires h.log[x].req.addr == h.log[y].req.addr
    requires Value(m.cells, h.log[..x], h.log[x].req.addr) == Pattern(c, read, p, i)
    requires Value(m.cells, h.log[..y], h.log[y].req.addr) == Pattern(c, read, p', j)
    ensures p == p' && i == j
  {
    hide Total, Script, Scripts, Value, Addr;
    BeforeBack(c, h, write, read, p);
    assert h.log[..y][..x] == h.log[..x];
    NoWrites(m.cells, h.log[..y], x, h.log[x].req.addr);
  }

  lemma NoMismatch(c: Config, second: bool, runs: seq<Program>, got: seq<Line>, i: nat)
    requires runs != [] && Counted(c, second, runs, got, 0) && ReadTotal(Before(runs)) + i < |got|
    ensures got[ReadTotal(Before(runs)) + i] == Pattern(c, Last(runs), second, i)
  {
    var base := ReadTotal(Before(runs));
    NoneWrong(c, got, base, |got| - base, Last(runs), second);
  }

  lemma AllMatch(c: Config, m: Memory, envs: seq<Env>, write: Program, read: Program, p: bool, i: nat) returns (pos: nat)
    requires Served(c, m, envs) && Back(c, After(c, envs).1, write, read) && i < Total(read)
    requires var (s, h) := After(c, envs); !Busy(s) && s.err0 == 0 && s.err1 == 0
    ensures var h := After(c, envs).1;
            && pos < |h.log|
            && h.log[pos] == Op(p, |Scripts(c, EarlierRuns(h), p)| + Total(write) + i, Request(c, read, p, i))
            && Value(m.cells, h.log[..pos], h.log[pos].req.addr) == Pattern(c, read, p, i)
  {
    hide Next, Record, Total, Writing, Request, Script, Scripted, Wrong, Orderly, Answered, Counted, Pattern, Value, After, Served;
    AfterInv(c, m, envs);
    var (s, h) := After(c, envs);
    var got := if p then h.got1 else h.got0;
    UnfoldReadsBack(write, read);
    TakenAtMost(c, s, h, false, s.q0);
    pos := ResponseOf(c, m, s, h, write, read, p, if p then s.q1 else s.q0, got, i);
    NoMismatch(c, p, h.runs, got, i);
  }

  lemma BothConfirmed(c: Config, m: Memory, envs: seq<Env>, write: Program, read: Program, p: bool, i: nat, p': bool, j: nat)
    requires Served(c, m, envs) && Back(c, After(c, envs).1, write, read)
    requires !Busy(After(c, envs).0) && Settled(c, After(c, envs).1)
    requires After(c, envs).0.err0 == 0 && After(c, envs).0.err1 == 0
    requires i < Total(write) < 0x1_0000_0000_0000_0000 && j < Total(write) && Addr(write, p, i) == Addr(write, p', j)
    ensures p == p' && i == j
  {
    var h := After(c, envs).1;
    assert Total(write) == Total(read) by { UnfoldReadsBack(write, read); }
    SameSettings(c, write, read, p, i);
    SameSettings(c, write, read, p', j);
    var x := AllMatch(c, m, envs, write, read, p, i);
    var y := AllMatch(c, m, envs, write, read, p', j);
    hide Total, Addr, Script, Scripts, Value, Writing, Served, After, Pattern, Request, Back, Settled;
    if x <= y {
      SameCell(c, m, h, write, read, x, y, p, i, p', j);
    } else {
      SameCell(c, m, h, write, read, y, x, p', j, p, i);
    }
  }

  /** Two requests at one address cannot both be confirmed, once every write has been performed
      before the first read. */
  lemma ClashIsSeen(c: Config, m: Memory, envs: seq<Env>, write: Program, read: Program)
    requires Served(c, m, envs) && Back(c, After(c, envs).1, write, read)
    requires !Busy(After(c, envs).0) && Settled(c, After(c, envs).1)
    requires After(c, envs).0.err0 == 0 && After(c, envs).0.err1 == 0
    ensures AllDistinct(write)
  {
    hide Total, Addr, Script, Scripts, Value, Writing, Served, After, Pattern, Request, Back, Settled;
    forall p, i: nat, p', j: nat
      | i < Total(write) < 0x1_0000_0000_0000_0000 && j < Total(write) && Addr(write, p, i) == Addr(write, p', j)
      ensures p == p' && i == j
    {
      BothConfirmed(c, m, envs, write, read, p, i, p', j);
    }
  }

  // The driver as it is clocked.

  /** The counters stay within the program. */
  ghost predicate Sound(s: Drive) {
    s.wrCount < 8 && (s.fsm.Requesting? ==> s.sub <= Total(s.prog))
  }

  lemma SoundStep(c: Config, s: Drive, i: In)
    requires Sound(s)
    ensures Sound(Next(c, s, i))
  {
    hide AsNat, Writing, Errors, Fifo.Next, Count, Request;
  }

  class MemDriveSoftReg {
    const config: Config
    const programStruct: array<bv64>
    var currentState: Fsm
    var wrCount: nat
    var srInQ: seq<bv64>
    var subCounter: nat
    var subQ0: seq<Req>
    var subQ1: seq<Req>
    var respCounter: nat
    var port0Errors: nat
    var port1Errors: nat
    var readRespCreditCnt: nat

    ghost predicate Wired()
      reads this, programStruct
    {
      programStruct.Length == 8 && Sound(State())
    }

    constructor (config: Config)
      ensures Wired() && fresh(programStruct) && State() == RESET && this.config == config
    {
      this.config := config;
      programStruct := new bv64[8](_ => 0);
      currentState, wrCount, srInQ, subCounter := Idle, 0, [], 0;
      subQ0, subQ1, respCounter, port0Errors, port1Errors, readRespCreditCnt := [], [], 0, 0, 0, 0;
    }

    ghost function State(): Drive
      reads this, programStruct
      requires programStruct.Length == 8
    {
      Drive(currentState, programStruct[..], wrCount, srInQ, subCounter, subQ0, subQ1, respCounter, port0Errors, port1Errors,
            readRespCreditCnt)
    }

    /** One request per port, in the same cycle, when neither queue is full. */
    method Submission() returns (r0: Option<Req>, r1: Option<Req>)
      requires Wired()
      ensures r0 == Submitted(config, State(), false) && r1 == Submitted(config, State(), true)
    {
      hide AsNat, Addr, Writing;
      ghost var s := State();
      r0, r1 := None, None;
      if currentState.Requesting? && subCounter != AsNat(programStruct[1])
         && |subQ0| < config.subDepth && |subQ1| < config.subDepth
      {
        var prog := programStruct[..];
        r0 := Some(Request(config, prog, false, subCounter));
        r1 := Some(Request(config, prog, true, subCounter));
      }
    }

    /** What the controller decides in this cycle. */
    method Decide() returns (nextState: Fsm, consuming: bool, starting: bool, finished: bool, reporting: bool)
      requires Wired()
      ensures nextState == NextFsm(State()) && consuming == Consuming(State()) && starting == Starting(State())
      ensures finished == Finished(State()) && reporting == Reporting(State())
    {
      hide AsNat;
      var writing, total := programStruct[3] & 1 == 1, AsNat(programStruct[1]);
      nextState, consuming, starting, finished, reporting := currentState, false, false, false, false;
      match currentState
      case Idle =>
        if srInQ != [] { nextState := Programming; }
      case Programming =>
        consuming := srInQ != [];
        starting := consuming && wrCount + 1 == 8;
        if starting { nextState := Requesting; }
      case Requesting =>
        if subCounter == total { nextState := AwaitResp; }
      case AwaitResp =>
        finished := !writing && respCounter == total;
        if writing || finished { nextState := CleanUp1; }
      case CleanUp1 =>
        reporting := readRespCreditCnt != 0;
        if reporting { nextState := CleanUp2; }
      case CleanUp2 =>
        reporting := readRespCreditCnt != 0;
        if reporting { nextState := Idle; }
    }

    /** Responses are taken in pairs and compared with the pattern. */
    method ClockResponses(i: In, starting: bool, finished: bool)
      requires programStruct.Length == 8
      modifies this`respCounter, this`port0Errors, this`port1Errors
      ensures respCounter == if finished then 0 else if Taking(i) then old(respCounter) + 1 else old(respCounter)
      ensures port0Errors == Errors(old(port0Errors), starting, Taking(i),
                                    i.resp0 != Some(Pattern(config, programStruct[..], false, old(respCounter))))
      ensures port1Errors == Errors(old(port1Errors), starting, Taking(i),
                                    i.resp1 != Some(Pattern(config, programStruct[..], true, old(respCounter))))
    {
      var wrong0, wrong1 := false, false;
      var both := i.resp0.Some? && i.resp1.Some?;
      if both {
        wrong0 := i.resp0.value != Line(config.app, false, respCounter, programStruct[6]);
        wrong1 := i.resp1.value != Line(config.app, true, respCounter, programStruct[7]);
      }
      port0Errors := if starting then 0 else if wrong0 then port0Errors + 1 else port0Errors;
      port1Errors := if starting then 0 else if wrong1 then port1Errors + 1 else port1Errors;
      respCounter := if finished then 0 else if both then respCounter + 1 else respCounter;
    }

    /** The word at the head of the input queue goes into the program, at the write counter. */
    method ClockProgram(write: Option<bv64>, consuming: bool, starting: bool)
      requires programStruct.Length == 8 && wrCount < 8 && (consuming ==> srInQ != [])
      requires starting <==> consuming && wrCount + 1 == 8
      modifies this`wrCount, this`srInQ, programStruct
      ensures programStruct[..] == if consuming then old(programStruct[..])[old(wrCount) := old(srInQ)[0]] else old(programStruct[..])
      ensures wrCount == if starting then 0 else if consuming then old(wrCount) + 1 else old(wrCount)
      ensures srInQ == Fifo.Next(old(srInQ), config.inDepth, write, consuming)
    {
      if consuming {
        programStruct[wrCount] := srInQ[0];
        wrCount := if wrCount + 1 == 8 then 0 else wrCount + 1;
      }
      srInQ := Fifo.Next(srInQ, config.inDepth, write, consuming);
    }

    /** The submission queues and counter. */
    method ClockSubmission(i: In, starting: bool)
      requires Wired()
      modifies this`subQ0, this`subQ1, this`subCounter
      ensures subQ0 == Fifo.Next(old(subQ0), config.subDepth, Submitted(config, old(State()), false), i.grant0)
      ensures subQ1 == Fifo.Next(old(subQ1), config.subDepth, Submitted(config, old(State()), true), i.grant1)
      ensures subCounter == if starting || (currentState.Requesting? && old(subCounter) == AsNat(programStruct[1])) then 0
                            else if Submitted(config, old(State()), false).Some? then old(subCounter) + 1 else old(subCounter)
    {
      hide AsNat, Fifo.Next, Submitted;
      var r0, r1 := Submission();
      subQ0 := Fifo.Next(subQ0, config.subDepth, r0, i.grant0);
      subQ1 := Fifo.Next(subQ1, config.subDepth, r1, i.grant1);
      if starting || (currentState.Requesting? && subCounter == AsNat(programStruct[1])) {
        subCounter := 0;
      } else if r0.Some? {
        subCounter := subCounter + 1;
      }
    }

    method Edge(i: In)
      requires Wired()
      modifies this, programStruct
      ensures programStruct.Length == 8 && State() == Next(config, old(State()), i)
    {
      hide AsNat, Writing, Pattern, Errors, Fifo.Next, NextFsm, Finished, Reporting, Submitted, Count, Taking;
      var nextState, consuming, starting, finished, reporting := Decide();
      ClockSubmission(i, starting);
      ClockResponses(i, starting, finished);
      readRespCreditCnt := Count(readRespCreditCnt, i.read, reporting);
      ClockProgram(i.write, consuming, starting);
      currentState := nextState;
    }

    /** One clock edge; the counters stay within the program. */
    method Clock(i: In)
      requires Wired()
      modifies this, programStruct
      ensures Wired() && State() == Next(config, old(State()), i)
    {
      hide Next, Sound;
      SoundStep(config, State(), i);
      Edge(i);
    }
  }
}
