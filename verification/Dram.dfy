/** The simulated channel memory: a queue of requests in front of a small array, served in order. */
module Dram {
  import opened Streams
  import opened AmiTypes
  import Fifo

  const SIZE: nat := 1024
  const VALUES: int := 0x1_0000_0000_0000_0000

  /** Only the low address bits select a cell, only the low 64 data bits are kept. */
  function Index(addr: nat): (k: nat) ensures k < SIZE { addr % SIZE }
  function Low(data: Word): Word { data % VALUES }

  datatype Dram = Dram(reqQ: seq<MemReq>, cells: seq<Word>)

  /** The answer shown for the oldest request, if it reads. */
  function Shown(s: Dram): Option<Word>
    requires |s.cells| == SIZE
  {
    if s.reqQ != [] && !s.reqQ[0].isWrite then Some(s.cells[Index(s.reqQ[0].addr)]) else None
  }

  /** The request performed this cycle: a read leaves when its answer is taken. */
  function Served(s: Dram, taken: bool): seq<MemReq> {
    if s.reqQ != [] && (s.reqQ[0].isWrite || taken) then [s.reqQ[0]] else []
  }

  function Write(cells: seq<Word>, r: MemReq): (cells': seq<Word>)
    requires |cells| == SIZE
    ensures |cells'| == SIZE
  {
    if r.isWrite then cells[Index(r.addr) := Low(r.data)] else cells
  }

  function Next(s: Dram, depth: nat, req: Option<MemReq>, taken: bool): (s': Dram)
    requires |s.cells| == SIZE
    ensures |s'.cells| == SIZE
  {
    var served := Served(s, taken);
    Dram(Fifo.Next(s.reqQ, depth, req, served != []), if served == [] then s.cells else Write(s.cells, served[0]))
  }

  // A memory that is sequential over the requests it accepted.

  function WriteAll(cells: seq<Word>, reqs: seq<MemReq>): (cells': seq<Word>)
    requires |cells| == SIZE
    ensures |cells'| == SIZE
  {
    if reqs == [] then cells else Write(WriteAll(cells, reqs[..|reqs| - 1]), reqs[|reqs| - 1])
  }

  function Answers(cells: seq<Word>, reqs: seq<MemReq>): seq<Word>
    requires |cells| == SIZE
  {
    if reqs == [] then []
    else
      var before, last := reqs[..|reqs| - 1], reqs[|reqs| - 1];
      Answers(cells, before) + (if last.isWrite then [] else [WriteAll(cells, before)[Index(last.addr)]])
  }

  datatype Cycle = Cycle(req: Option<MemReq>, taken: bool)

  /** The state, the requests accepted, those served and the answers taken, after a run. */
  function Run(depth: nat, cells: seq<Word>, cycles: seq<Cycle>): (r: (Dram, seq<MemReq>, seq<MemReq>, seq<Word>))
    requires |cells| == SIZE
    ensures |r.0.cells| == SIZE
  {
    if cycles == [] then (Dram([], cells), [], [], [])
    else
      var i := cycles[|cycles| - 1];
      var (s, accepted, served, answers) := Run(depth, cells, cycles[..|cycles| - 1]);
      (Next(s, depth, i.req, i.taken), accepted + Fifo.Taken(s.reqQ, depth, i.req), served + Served(s, i.taken),
       answers + (if i.taken then Opt(Shown(s)) else []))
  }

  /** Requests are served in the order accepted, and the answers taken are those of a sequential
      memory, whatever the requester's pace. */
  lemma {:induction false} ServesInOrder(depth: nat, cells: seq<Word>, cycles: seq<Cycle>)
    requires |cells| == SIZE
    ensures var (s, accepted, served, answers) := Run(depth, cells, cycles);
            && accepted == served + s.reqQ
            && s.cells == WriteAll(cells, served)
            && answers == Answers(cells, served)
  {
    if cycles != [] {
      hide Write, Low, Index;
      var i := cycles[|cycles| - 1];
      var (s, accepted, served, answers) := Run(depth, cells, cycles[..|cycles| - 1]);
      ServesInOrder(depth, cells, cycles[..|cycles| - 1]);
      Fifo.Flow(s.reqQ, depth, i.req, Served(s, i.taken) != [], accepted, served);
      if Served(s, i.taken) != [] {
        Push(cells, served, s.reqQ[0]);
        assert served + Served(s, i.taken) == served + [s.reqQ[0]];
      } else {
        assert served + Served(s, i.taken) == served;
        assert answers + (if i.taken then Opt(Shown(s)) else []) == answers;
      }
    }
  }

  lemma Push(cells: seq<Word>, reqs: seq<MemReq>, r: MemReq)
    requires |cells| == SIZE
    ensures WriteAll(cells, reqs + [r]) == Write(WriteAll(cells, reqs), r)
    ensures Answers(cells, reqs + [r])
         == Answers(cells, reqs) + (if r.isWrite then [] else [WriteAll(cells, reqs)[Index(r.addr)]])
  {
    var all := reqs + [r];
    assert all[..|all| - 1] == reqs;
  }

  /** The last write among the requests served to one of 1024 places, chosen by the low address bits,
      decides what the place holds: the low 64 bits of its data. */
  lemma {:induction false} PlaceHolds(cells: seq<Word>, reqs: seq<MemReq>, j: nat, place: nat)
    requires |cells| == 1024 && j < |reqs| && reqs[j].isWrite && reqs[j].addr % 1024 == place
    requires forall k :: j < k < |reqs| && reqs[k].isWrite ==> reqs[k].addr % 1024 != place
    ensures WriteAll(cells, reqs)[place] == reqs[j].data % 0x1_0000_0000_0000_0000
  {
    var before, r := reqs[..|reqs| - 1], reqs[|reqs| - 1];
    if j < |before| { PlaceHolds(cells, before, j, place); }
  }

  /** And a place not written holds what it did. */
  lemma {:induction false} PlaceKeeps(cells: seq<Word>, reqs: seq<MemReq>, place: nat)
    requires |cells| == 1024 && place < 1024
    requires forall k :: 0 <= k < |reqs| && reqs[k].isWrite ==> reqs[k].addr % 1024 != place
    ensures WriteAll(cells, reqs)[place] == cells[place]
  {
    if reqs != [] { PlaceKeeps(cells, reqs[..|reqs| - 1], place); }
  }

  /** Read number `n` among those served is answered with what its place held then. */
  lemma {:induction false} AnswerIs(cells: seq<Word>, reqs: seq<MemReq>, i: nat)
    requires |cells| == 1024 && i < |reqs| && !reqs[i].isWrite
    ensures var n := ReadCount(reqs[..i]);
            n < |Answers(cells, reqs)| && Answers(cells, reqs)[n] == WriteAll(cells, reqs[..i])[reqs[i].addr % 1024]
  {
    var before := reqs[..|reqs| - 1];
    AnswersCount(cells, before);
    if i < |before| {
      AnswerIs(cells, before, i);
      assert before[..i] == reqs[..i];
    } else {
      assert reqs[..i] == before;
    }
  }

  function ReadCount(reqs: seq<MemReq>): nat {
    if reqs == [] then 0 else ReadCount(reqs[..|reqs| - 1]) + (if reqs[|reqs| - 1].isWrite then 0 else 1)
  }

  lemma {:induction false} AnswersCount(cells: seq<Word>, reqs: seq<MemReq>)
    requires |cells| == SIZE
    ensures |Answers(cells, reqs)| == ReadCount(reqs)
  {
    if reqs != [] { AnswersCount(cells, reqs[..|reqs| - 1]); }
  }

  /** The oldest request is performed as soon as it can: a write at once, a read when its answer is
      taken; and one is accepted whenever fewer than the queue holds are waiting. */
  lemma ServedWhen(depth: nat, cells: seq<Word>, cycles: seq<Cycle>, i: Cycle)
    requires |cells| == SIZE
    ensures var (s, accepted, served, answers) := Run(depth, cells, cycles);
            var (s', accepted', served', answers') := Run(depth, cells, cycles + [i]);
            && |served| <= |accepted|
            && accepted' == accepted + (if |accepted| - |served| < depth then Opt(i.req) else [])
            && served' == served + (if |served| < |accepted| && (accepted[|served|].isWrite || i.taken) then [accepted[|served|]] else [])
  {
    ServesInOrder(depth, cells, cycles);
    assert (cycles + [i])[..|cycles + [i]| - 1] == cycles;
    hide Answers, WriteAll, Index, Low, Write;
  }

  class SimSimpleDram {
    const depth: nat
    const memory: array<Word>
    var memReqQ: seq<MemReq>

    constructor (depth: nat, cells: seq<Word>)
      requires |cells| == SIZE
      ensures this.depth == depth && memory.Length == SIZE && fresh(memory) && State() == Dram([], cells)
    {
      this.depth := depth;
      memory := new Word[SIZE](k requires 0 <= k < SIZE => cells[k]);
      memReqQ := [];
    }

    function State(): Dram
      reads this, memory
    {
      Dram(memReqQ, memory[..])
    }

    method Response() returns (resp: Option<Word>)
      requires memory.Length == SIZE
      ensures resp == Shown(State())
    {
      resp := None;
      if memReqQ != [] && !memReqQ[0].isWrite {
        resp := Some(memory[Index(memReqQ[0].addr)]);
      }
    }

    method Clock(req: Option<MemReq>, respGrant: bool) returns (grant: bool)
      requires memory.Length == SIZE
      modifies this, memory
      ensures grant == (req.Some? && |old(memReqQ)| < depth)
      ensures State() == Next(old(State()), depth, req, respGrant)
    {
      hide Index, Low;
      grant := req.Some? && |memReqQ| < depth;
      var deq := false;
      if memReqQ != [] {
        var r := memReqQ[0];
        if r.isWrite {
          deq := true;
          memory[Index(r.addr)] := Low(r.data);
        } else if respGrant {
          deq := true;
        }
      }
      memReqQ := Fifo.Next(memReqQ, depth, if grant then req else None, deq);
    }
  }
}
