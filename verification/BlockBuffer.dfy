/** A one-block write-allocate, write-back buffer in front of a block memory, and the flat memory
    of 8-byte words it must not be told apart from. */
module BlockBuffer {
  import opened Streams
  import opened AmiTypes
  import Fifo

  const SECTORS: nat := 8
  const SECTOR_VALUES: nat := 0x1_0000_0000_0000_0000

  datatype Fsm = Invalid | Pending | Clean | Modified

  /** The registers. `block` is the 64-byte block held, one word per sector. */
  datatype Buffer = Buffer(fsm: Fsm, block: nat, sectors: seq<nat>, reqQ: seq<Request>, outQ: seq<Response>)

  /** One cycle of the outside: the application's request and readiness, whether the two memory
      ports grant, and the block arriving on the read port. */
  datatype Input = Input(req: Option<Request>, take: bool, rdGrant: bool, wrGrant: bool, arriving: Option<seq<nat>>)

  function Reset(): Buffer {
    Buffer(Invalid, 0, [0, 0, 0, 0, 0, 0, 0, 0], [], [])
  }

  function BlockOf(addr: nat): nat { addr / 64 }
  function SectorOf(addr: nat): (k: nat) ensures k < SECTORS { addr / 8 % 8 }
  function WordOf(addr: nat): (w: nat) ensures w == 8 * BlockOf(addr) + SectorOf(addr) { addr / 8 }
  function Low64(data: Word): (v: nat) ensures v < SECTOR_VALUES { data % SECTOR_VALUES }

  // The wires.

  /** The request at the head hits the block held. */
  function Hit(b: Buffer): bool {
    (b.fsm.Clean? || b.fsm.Modified?) && b.reqQ != [] && BlockOf(b.reqQ[0].addr) == b.block
  }

  /** The block asked of the read port. */
  function ReadOut(b: Buffer): Option<nat> {
    if b.reqQ != [] && (b.fsm.Invalid? || (b.fsm.Clean? && !Hit(b))) then Some(BlockOf(b.reqQ[0].addr)) else None
  }

  /** Whether the block held is offered to the write port. */
  function Evicting(b: Buffer): bool {
    b.fsm.Modified? && b.reqQ != [] && !Hit(b)
  }

  function Fetched(b: Buffer, i: Input): bool { ReadOut(b).Some? && i.rdGrant }
  function Evicted(b: Buffer, i: Input): bool { Evicting(b) && i.wrGrant }
  function Filled(b: Buffer, i: Input): bool { b.fsm.Pending? && i.arriving.Some? }

  /** The response produced this cycle; nothing checks that there is room for it. */
  function Produced(b: Buffer): Option<Response>
    requires |b.sectors| == SECTORS
  {
    if Hit(b) && !b.reqQ[0].isWrite then Some(Response(b.sectors[SectorOf(b.reqQ[0].addr)], 8)) else None
  }

  function NextFsm(b: Buffer, i: Input): Fsm {
    if Fetched(b, i) then Pending
    else if Filled(b, i) || Evicted(b, i) then Clean
    else if Hit(b) && b.reqQ[0].isWrite then Modified
    else b.fsm
  }

  function NextSectors(b: Buffer, i: Input): (s: seq<nat>)
    requires |b.sectors| == SECTORS
  {
    if Filled(b, i) then i.arriving.value
    else if Hit(b) && b.reqQ[0].isWrite then b.sectors[SectorOf(b.reqQ[0].addr) := Low64(b.reqQ[0].data)]
    else b.sectors
  }

  function Next(reqDepth: nat, outDepth: nat, b: Buffer, i: Input): Buffer
    requires |b.sectors| == SECTORS
  {
    Buffer(NextFsm(b, i),
           if Fetched(b, i) then ReadOut(b).value else b.block,
           NextSectors(b, i),
           Fifo.Next(b.reqQ, reqDepth, i.req, Hit(b)),
           Fifo.Next(b.outQ, outDepth, Produced(b), i.take))
  }

  // The buffer in front of a memory whose granted writes are seen by later granted reads.

  type Block = s: seq<nat> | |s| == 8 witness [0, 0, 0, 0, 0, 0, 0, 0]

  /** `owed` is the block of a granted read on its way back. */
  datatype System = System(buf: Buffer, mem: nat -> Block, owed: Option<Block>)

  /** What the environment decides: the application's side, the memory's grants, and whether an
      owed block arrives. */
  datatype Env = Env(req: Option<Request>, take: bool, rdGrant: bool, wrGrant: bool, arrive: bool)

  function Wires(s: System, e: Env): Input {
    Input(e.req, e.take, e.rdGrant, e.wrGrant, if e.arrive && s.owed.Some? then Some(s.owed.value) else None)
  }

  function NextMem(s: System, i: Input): nat -> Block
    requires |s.buf.sectors| == SECTORS
  {
    if Evicted(s.buf, i) then ((k: nat) => if k == s.buf.block then s.buf.sectors else s.mem(k)) else s.mem
  }

  function NextOwed(s: System, i: Input): Option<Block> {
    if Fetched(s.buf, i) then Some(s.mem(ReadOut(s.buf).value))
    else if Filled(s.buf, i) then None
    else s.owed
  }

  function NextSystem(reqDepth: nat, outDepth: nat, s: System, e: Env): System
    requires |s.buf.sectors| == SECTORS
  {
    var i := Wires(s, e);
    System(Next(reqDepth, outDepth, s.buf, i), NextMem(s, i), NextOwed(s, i))
  }

  ghost predicate Coherent(s: System) {
    && |s.buf.sectors| == SECTORS
    && (s.buf.fsm.Pending? <==> s.owed.Some?)
    && (s.buf.fsm.Pending? ==> s.owed.value == s.mem(s.buf.block))
    && (s.buf.fsm.Clean? ==> s.buf.sectors == s.mem(s.buf.block))
  }

  /** The memory as the application sees it, by 8-byte word. */
  function Abs(s: System): nat -> nat
    requires |s.buf.sectors| == SECTORS
  {
    var b := s.buf;
    (w: nat) => if (b.fsm.Clean? || b.fsm.Modified?) && w / 8 == b.block then b.sectors[w % 8] else s.mem(w / 8)[w % 8]
  }

  lemma CoherentStep(reqDepth: nat, outDepth: nat, s: System, e: Env)
    requires Coherent(s)
    ensures Coherent(NextSystem(reqDepth, outDepth, s, e))
  {
  }

  /** Serving a write changes its own word; fetching, filling and evicting change nothing. */
  lemma AbsStep(reqDepth: nat, outDepth: nat, s: System, e: Env, w: nat)
    requires Coherent(s)
    ensures Abs(NextSystem(reqDepth, outDepth, s, e))(w)
         == if Hit(s.buf) && s.buf.reqQ[0].isWrite && s.buf.reqQ[0].addr / 8 == w
            then s.buf.reqQ[0].data % 0x1_0000_0000_0000_0000
            else Abs(s)(w)
  {
  }

  // The flat memory.

  /** The flat memory holds 64-bit words, eight bytes apart. */
  function FlatWrite(mem: nat -> nat, r: Request): nat -> nat {
    if r.isWrite then ((w: nat) => if w == r.addr / 8 then r.data % 0x1_0000_0000_0000_0000 else mem(w)) else mem
  }

  function FlatWrites(mem: nat -> nat, reqs: seq<Request>): nat -> nat {
    if reqs == [] then mem else FlatWrite(FlatWrites(mem, reqs[..|reqs| - 1]), reqs[|reqs| - 1])
  }

  /** The answers of a flat memory to the requests, in order. */
  function FlatAnswers(mem: nat -> nat, reqs: seq<Request>): seq<Response> {
    if reqs == [] then []
    else
      var before, r := reqs[..|reqs| - 1], reqs[|reqs| - 1];
      FlatAnswers(mem, before) + (if r.isWrite then [] else [Response(FlatWrites(mem, before)(r.addr / 8), 8)])
  }

  // Runs, with what they have done so far.

  /** `acc` accepted, `done` served, `ans` produced, `del` delivered, `lost` dropped for want of room. */
  datatype Trace = Trace(sys: System, acc: seq<Request>, done: seq<Request>, ans: seq<Response>, del: seq<Response>, lost: nat)

  /** A response is produced while the response queue is full. */
  function Dropping(outDepth: nat, b: Buffer): bool
    requires |b.sectors| == SECTORS
  {
    Produced(b).Some? && |b.outQ| >= outDepth
  }

  function NextTrace(reqDepth: nat, outDepth: nat, t: Trace, e: Env): Trace
    requires |t.sys.buf.sectors| == SECTORS
  {
    var b := t.sys.buf;
    Trace(NextSystem(reqDepth, outDepth, t.sys, e),
          t.acc + Fifo.Taken(b.reqQ, reqDepth, e.req),
          t.done + Fifo.Given(b.reqQ, Hit(b)),
          t.ans + Opt(Produced(b)),
          t.del + Fifo.Given(b.outQ, e.take),
          t.lost + (if Dropping(outDepth, b) then 1 else 0))
  }

  function Run(reqDepth: nat, outDepth: nat, mem: nat -> Block, envs: seq<Env>): (t: Trace)
    ensures Coherent(t.sys)
  {
    if envs == [] then Trace(System(Reset(), mem, None), [], [], [], [], 0)
    else
      var before := Run(reqDepth, outDepth, mem, envs[..|envs| - 1]);
      CoherentStep(reqDepth, outDepth, before.sys, envs[|envs| - 1]);
      NextTrace(reqDepth, outDepth, before, envs[|envs| - 1])
  }

  function Flat(mem: nat -> Block): nat -> nat { (w: nat) => mem(w / 8)[w % 8] }

  ghost predicate Refines(mem: nat -> Block, t: Trace) {
    && |t.sys.buf.sectors| == SECTORS
    && t.acc == t.done + t.sys.buf.reqQ
    && (forall w: nat :: Abs(t.sys)(w) == FlatWrites(Flat(mem), t.done)(w))
    && t.ans == FlatAnswers(Flat(mem), t.done)
    && |t.ans| == |t.del| + |t.sys.buf.outQ| + t.lost
    && (t.lost == 0 <==> t.ans == t.del + t.sys.buf.outQ)
  }

  lemma FlatPush(mem: nat -> nat, reqs: seq<Request>, r: Request)
    ensures FlatWrites(mem, reqs + [r]) == FlatWrite(FlatWrites(mem, reqs), r)
    ensures FlatAnswers(mem, reqs + [r]) == FlatAnswers(mem, reqs)
            + (if r.isWrite then [] else [Response(FlatWrites(mem, reqs)(r.addr / 8), 8)])
  {
  }

  lemma RefinesStep(reqDepth: nat, outDepth: nat, mem: nat -> Block, t: Trace, e: Env)
    requires Coherent(t.sys) && Refines(mem, t)
    ensures Refines(mem, NextTrace(reqDepth, outDepth, t, e))
  {
    var b, t' := t.sys.buf, NextTrace(reqDepth, outDepth, t, e);
    Fifo.Flow(b.reqQ, reqDepth, e.req, Hit(b), t.acc, t.done);
    forall w: nat ensures Abs(t'.sys)(w) == FlatWrites(Flat(mem), t'.done)(w) {
      AbsStep(reqDepth, outDepth, t.sys, e, w);
      ServedOne(mem, t, w);
    }
    AnsweredOne(mem, t);
    Returned(outDepth, t, e);
  }

  lemma ServedOne(mem: nat -> Block, t: Trace, w: nat)
    requires Refines(mem, t)
    ensures FlatWrites(Flat(mem), t.done + Fifo.Given(t.sys.buf.reqQ, Hit(t.sys.buf)))(w)
         == if Hit(t.sys.buf) && t.sys.buf.reqQ[0].isWrite && t.sys.buf.reqQ[0].addr / 8 == w
            then t.sys.buf.reqQ[0].data % 0x1_0000_0000_0000_0000 else Abs(t.sys)(w)
  {
    if Hit(t.sys.buf) {
      FlatPush(Flat(mem), t.done, t.sys.buf.reqQ[0]);
    } else {
      assert t.done + Fifo.Given(t.sys.buf.reqQ, false) == t.done;
    }
  }

  lemma AnsweredOne(mem: nat -> Block, t: Trace)
    requires Refines(mem, t)
    ensures t.ans + Opt(Produced(t.sys.buf)) == FlatAnswers(Flat(mem), t.done + Fifo.Given(t.sys.buf.reqQ, Hit(t.sys.buf)))
  {
    var b := t.sys.buf;
    if Hit(b) {
      var r := b.reqQ[0];
      FlatPush(Flat(mem), t.done, r);
      assert Abs(t.sys)(WordOf(r.addr)) == b.sectors[SectorOf(r.addr)];
    } else {
      assert t.done + Fifo.Given(b.reqQ, false) == t.done;
    }
  }

  lemma Returned(outDepth: nat, t: Trace, e: Env)
    requires |t.sys.buf.sectors| == SECTORS
    requires |t.ans| == |t.del| + |t.sys.buf.outQ| + t.lost
    requires t.lost == 0 <==> t.ans == t.del + t.sys.buf.outQ
    ensures var b := t.sys.buf;
            var ans, del := t.ans + Opt(Produced(b)), t.del + Fifo.Given(b.outQ, e.take);
            var outQ, lost := Fifo.Next(b.outQ, outDepth, Produced(b), e.take), t.lost + (if Dropping(outDepth, b) then 1 else 0);
            |ans| == |del| + |outQ| + lost && (lost == 0 <==> ans == del + outQ)
  {
  }

  /** The buffer is a flat memory: over any run, whatever the memory grants and however long it
      takes, the requests are served in order, each read produces the last value written to its
      word, a clean block equals the memory's, and every response comes out, in order, exactly
      when no read was ever served while the response queue was full. */
  lemma {:induction false} RefinesFlatMemory(reqDepth: nat, outDepth: nat, mem: nat -> Block, envs: seq<Env>)
    ensures Refines(mem, Run(reqDepth, outDepth, mem, envs)) && Coherent(Run(reqDepth, outDepth, mem, envs).sys)
  {
    if envs != [] {
      var before := envs[..|envs| - 1];
      RefinesFlatMemory(reqDepth, outDepth, mem, before);
      RefinesStep(reqDepth, outDepth, mem, Run(reqDepth, outDepth, mem, before), envs[|envs| - 1]);
    }
  }

  /** Reads accepted whose response the application has not taken. */
  function Unread(t: Trace): int { |Filter(t.acc, Reading())| - |t.del| }

  lemma {:induction false} AnswersAreReads(mem: nat -> nat, reqs: seq<Request>)
    ensures |FlatAnswers(mem, reqs)| == |Filter(reqs, Reading())|
  {
    if reqs != [] {
      var before, r := reqs[..|reqs| - 1], reqs[|reqs| - 1];
      AnswersAreReads(mem, before);
      assert reqs == before + [r];
      FilterPush(before, r, Reading());
    }
  }

  lemma NoDropHere(outDepth: nat, mem: nat -> Block, t: Trace)
    requires Refines(mem, t) && Unread(t) <= outDepth
    ensures !Dropping(outDepth, t.sys.buf) || t.lost > 0
  {
    var b := t.sys.buf;
    AnswersAreReads(Flat(mem), t.done);
    FilterAppend(t.done, b.reqQ, Reading());
    if Hit(b) && !b.reqQ[0].isWrite {
      FilterMember(b.reqQ, b.reqQ[0], Reading());
    }
  }

  ghost predicate NeverFlooded(reqDepth: nat, outDepth: nat, mem: nat -> Block, envs: seq<Env>) {
    forall k :: 0 <= k <= |envs| ==> Unread(Run(reqDepth, outDepth, mem, envs[..k])) <= outDepth
  }

  lemma {:induction false} NothingLost(reqDepth: nat, outDepth: nat, mem: nat -> Block, envs: seq<Env>)
    requires NeverFlooded(reqDepth, outDepth, mem, envs)
    ensures Run(reqDepth, outDepth, mem, envs).lost == 0
  {
    if envs != [] {
      var before := envs[..|envs| - 1];
      assert NeverFlooded(reqDepth, outDepth, mem, before) by {
        forall k | 0 <= k <= |before| ensures Unread(Run(reqDepth, outDepth, mem, before[..k])) <= outDepth {
          assert before[..k] == envs[..k];
        }
      }
      NothingLost(reqDepth, outDepth, mem, before);
      RefinesFlatMemory(reqDepth, outDepth, mem, before);
      assert before[..|before|] == before;
      NoDropHere(outDepth, mem, Run(reqDepth, outDepth, mem, before));
    }
  }

  /** An application that never has more unread responses than the queue holds gets, in request
      order, exactly the answers of a flat memory: a prefix at any time, all of them once nothing
      is left inside. */
  lemma AnswersInOrder(reqDepth: nat, outDepth: nat, mem: nat -> Block, envs: seq<Env>)
    requires NeverFlooded(reqDepth, outDepth, mem, envs)
    ensures var t := Run(reqDepth, outDepth, mem, envs);
            && t.del + t.sys.buf.outQ == FlatAnswers(Flat(mem), t.done)
            && t.done + t.sys.buf.reqQ == t.acc
            && (t.sys.buf.reqQ == [] && t.sys.buf.outQ == [] ==> t.del == FlatAnswers(Flat(mem), t.acc))
  {
    RefinesFlatMemory(reqDepth, outDepth, mem, envs);
    NothingLost(reqDepth, outDepth, mem, envs);
    var t := Run(reqDepth, outDepth, mem, envs);
    if t.sys.buf.reqQ == [] && t.sys.buf.outQ == [] {
      assert t.done == t.acc && t.del == t.ans;
    }
  }

  // What a read returns.

  /** Write `j` is the last one to the word that read `i` asks for. */
  ghost predicate LastWriteBefore(reqs: seq<Request>, j: nat, i: nat) {
    && j < i < |reqs| && reqs[j].isWrite && reqs[j].addr / 8 == reqs[i].addr / 8
    && forall k :: j < k < i && reqs[k].isWrite ==> reqs[k].addr / 8 != reqs[i].addr / 8
  }

  lemma {:induction false} LastWriteStays(mem: nat -> nat, reqs: seq<Request>, j: nat, w: nat)
    requires j < |reqs| && reqs[j].isWrite && reqs[j].addr / 8 == w
    requires forall k :: j < k < |reqs| && reqs[k].isWrite ==> reqs[k].addr / 8 != w
    ensures FlatWrites(mem, reqs)(w) == reqs[j].data % 0x1_0000_0000_0000_0000
  {
    if j < |reqs| - 1 { LastWriteStays(mem, reqs[..|reqs| - 1], j, w); }
  }

  /** Before the first write to it a word is as it was. */
  lemma {:induction false} UnwrittenStays(mem: nat -> nat, reqs: seq<Request>, w: nat)
    requires forall k :: 0 <= k < |reqs| && reqs[k].isWrite ==> reqs[k].addr / 8 != w
    ensures FlatWrites(mem, reqs)(w) == mem(w)
  {
    if reqs != [] { UnwrittenStays(mem, reqs[..|reqs| - 1], w); }
  }

  /** Read `i`'s answer comes after those of the reads before it. */
  lemma {:induction false} AnswerNumber(mem: nat -> nat, reqs: seq<Request>, i: nat)
    requires i < |reqs| && !reqs[i].isWrite
    ensures var n := |Filter(reqs[..i], Reading())|;
            n < |FlatAnswers(mem, reqs)| && FlatAnswers(mem, reqs)[n] == Response(FlatWrites(mem, reqs[..i])(reqs[i].addr / 8), 8)
  {
    var before := reqs[..|reqs| - 1];
    AnswersAreReads(mem, before);
    if i < |before| {
      AnswerNumber(mem, before, i);
      assert before[..i] == reqs[..i];
    } else {
      assert reqs[..i] == before;
    }
  }

  /** Every read the application has had accepted and answered returned the very data of the last
      write to its word, and what memory held if there was none. */
  lemma ReadsReturnWrites(reqDepth: nat, outDepth: nat, mem: nat -> Block, envs: seq<Env>, i: nat)
    requires NeverFlooded(reqDepth, outDepth, mem, envs)
    requires var t := Run(reqDepth, outDepth, mem, envs);
             i < |t.acc| && !t.acc[i].isWrite && |Filter(t.acc[..i], Reading())| < |t.del|
    ensures var t := Run(reqDepth, outDepth, mem, envs); var answer := t.del[|Filter(t.acc[..i], Reading())|];
            && (forall j: nat :: LastWriteBefore(t.acc, j, i) && 0 <= t.acc[j].data < 0x1_0000_0000_0000_0000 ==>
                  answer == Response(t.acc[j].data, 8))
            && ((forall j :: 0 <= j < i && t.acc[j].isWrite ==> t.acc[j].addr / 8 != t.acc[i].addr / 8) ==>
                  answer == Response(mem(t.acc[i].addr / 64)[t.acc[i].addr / 8 % 8], 8))
  {
    var t := Run(reqDepth, outDepth, mem, envs);
    AnswersInOrder(reqDepth, outDepth, mem, envs);
    FlatAnswersPrefix(Flat(mem), t.done, t.acc);
    AnswerNumber(Flat(mem), t.acc, i);
    FlatValue(mem, t.acc, i);
    hide Run, NeverFlooded, FlatAnswers, FlatWrites, Filter, Flat;
  }

  lemma FlatValue(mem: nat -> Block, reqs: seq<Request>, i: nat)
    requires i < |reqs|
    ensures var value := FlatWrites(Flat(mem), reqs[..i])(reqs[i].addr / 8);
            && (forall j: nat :: LastWriteBefore(reqs, j, i) && 0 <= reqs[j].data < 0x1_0000_0000_0000_0000 ==> value == reqs[j].data)
            && ((forall j :: 0 <= j < i && reqs[j].isWrite ==> reqs[j].addr / 8 != reqs[i].addr / 8) ==>
                  value == mem(reqs[i].addr / 64)[reqs[i].addr / 8 % 8])
  {
    var w := reqs[i].addr / 8;
    forall j: nat | LastWriteBefore(reqs, j, i) && 0 <= reqs[j].data < 0x1_0000_0000_0000_0000
      ensures FlatWrites(Flat(mem), reqs[..i])(w) == reqs[j].data
    {
      LastWriteStays(Flat(mem), reqs[..i], j, w);
    }
    if forall j :: 0 <= j < i && reqs[j].isWrite ==> reqs[j].addr / 8 != w {
      UnwrittenStays(Flat(mem), reqs[..i], w);
      assert w / 8 == reqs[i].addr / 64;
    }
  }

  lemma {:induction false} FlatAnswersPrefix(mem: nat -> nat, x: seq<Request>, y: seq<Request>)
    requires x <= y
    ensures FlatAnswers(mem, x) <= FlatAnswers(mem, y)
    decreases |y|
  {
    if |x| < |y| { FlatAnswersPrefix(mem, x, y[..|y| - 1]); } else { assert x == y; }
  }

  // What it costs.

  /** A request to the block held is served at once and costs no memory access; one to another block
      fetches it, after writing back the block held if that has been written to. */
  lemma ServedAtOnce(reqDepth: nat, outDepth: nat, t: Trace, e: Env)
    requires Coherent(t.sys) && t.sys.buf.reqQ != []
    ensures var b, r, t' := t.sys.buf, t.sys.buf.reqQ[0], NextTrace(reqDepth, outDepth, t, e);
            var held := (b.fsm.Clean? || b.fsm.Modified?) && b.block == r.addr / 64;
            && (held ==> t'.done == t.done + [r] && ReadOut(b) == None && !Evicting(b))
            && (!held ==> t'.done == t.done)
            && (!held && !b.fsm.Pending? ==> (Evicting(b) <==> b.fsm.Modified?) && (ReadOut(b) == Some(r.addr / 64) <==> !b.fsm.Modified?))
            && (b.fsm.Pending? ==> ReadOut(b) == None && !Evicting(b))
  {
  }

  /** A block written back stays in the buffer, clean; the one fetched replaces it when it arrives. */
  lemma BlockStays(reqDepth: nat, outDepth: nat, s: System, e: Env)
    requires Coherent(s)
    ensures var b, b', i := s.buf, NextSystem(reqDepth, outDepth, s, e).buf, Wires(s, e);
            && (Evicted(b, i) ==> b'.fsm.Clean? && b'.block == b.block && b'.sectors == b.sectors)
            && (Fetched(b, i) ==> b'.fsm.Pending? && b'.block == b.reqQ[0].addr / 64)
            && (Filled(b, i) ==> b'.fsm.Clean? && b'.block == b.block && b'.sectors == s.owed.value)
  {
  }

  // When a response is lost.

  /** The outside asks nothing, takes nothing and grants everything. */
  const IDLE := Env(None, false, true, true, true)

  function Idles(n: nat): seq<Env> { seq(n, _ => IDLE) }

  predicate Silent(envs: seq<Env>) { forall k :: 0 <= k < |envs| ==> envs[k].req == None }

  /** Cycles in which the requests waiting are served when everything is granted. */
  function Work(b: Buffer): nat {
    if b.reqQ == [] then 0
    else
      5 * (|b.reqQ| - 1)
      + (if Hit(b) then 1
         else if b.fsm.Pending? && b.block == BlockOf(b.reqQ[0].addr) then 2
         else if b.fsm.Invalid? || b.fsm.Clean? then 3
         else 4)
  }

  lemma WorkStep(reqDepth: nat, outDepth: nat, s: System)
    requires Coherent(s) && s.buf.reqQ != []
    ensures Work(NextSystem(reqDepth, outDepth, s, IDLE).buf) < Work(s.buf)
  {
    var b, b' := s.buf, NextSystem(reqDepth, outDepth, s, IDLE).buf;
    if Hit(b) {
      assert b'.reqQ == b.reqQ[1..];
    } else {
      assert b'.reqQ == b.reqQ;
    }
  }

  lemma RunPush(reqDepth: nat, outDepth: nat, mem: nat -> Block, envs: seq<Env>, e: Env)
    ensures Run(reqDepth, outDepth, mem, envs + [e]) == NextTrace(reqDepth, outDepth, Run(reqDepth, outDepth, mem, envs), e)
  {
    assert (envs + [e])[..|envs|] == envs;
  }

  /** One idle cycle does some of the work. */
  lemma IdleWorks(reqDepth: nat, outDepth: nat, mem: nat -> Block, envs: seq<Env>)
    requires Run(reqDepth, outDepth, mem, envs).sys.buf.reqQ != []
    ensures var t, t' := Run(reqDepth, outDepth, mem, envs), Run(reqDepth, outDepth, mem, envs + [IDLE]);
            Work(t'.sys.buf) < Work(t.sys.buf) && t'.acc == t.acc && t'.del == t.del
  {
    RunPush(reqDepth, outDepth, mem, envs, IDLE);
    var t := Run(reqDepth, outDepth, mem, envs);
    hide Run, Work;
    WorkStep(reqDepth, outDepth, t.sys);
    hide NextSystem;
  }

  lemma OneIdle(envs: seq<Env>, n: nat)
    ensures envs + Idles(0) == envs && envs + Idles(n + 1) == envs + [IDLE] + Idles(n)
  {
  }

  /** Left alone, the buffer serves everything it accepted. */
  lemma {:induction false} IdlesServe(reqDepth: nat, outDepth: nat, mem: nat -> Block, envs: seq<Env>) returns (n: nat)
    ensures var t, t' := Run(reqDepth, outDepth, mem, envs), Run(reqDepth, outDepth, mem, envs + Idles(n));
            t'.sys.buf.reqQ == [] && t'.acc == t.acc && t'.del == t.del
    decreases Work(Run(reqDepth, outDepth, mem, envs).sys.buf)
  {
    hide *;
    n := 0;
    OneIdle(envs, 0);
    if Run(reqDepth, outDepth, mem, envs).sys.buf.reqQ != [] {
      IdleWorks(reqDepth, outDepth, mem, envs);
      var m := IdlesServe(reqDepth, outDepth, mem, envs + [IDLE]);
      OneIdle(envs, m);
      n := m + 1;
    }
  }

  lemma {:induction false} QueueFits(reqDepth: nat, outDepth: nat, mem: nat -> Block, envs: seq<Env>)
    ensures |Run(reqDepth, outDepth, mem, envs).sys.buf.outQ| <= outDepth
  {
    if envs != [] { QueueFits(reqDepth, outDepth, mem, envs[..|envs| - 1]); }
  }

  /** Once everything is served, what is unread waits in the queue or was lost. */
  lemma ServedOrLost(reqDepth: nat, outDepth: nat, mem: nat -> Block, envs: seq<Env>)
    requires Run(reqDepth, outDepth, mem, envs).sys.buf.reqQ == []
    ensures var t := Run(reqDepth, outDepth, mem, envs); Unread(t) == |t.sys.buf.outQ| + t.lost <= outDepth + t.lost
  {
    var t := Run(reqDepth, outDepth, mem, envs);
    RefinesFlatMemory(reqDepth, outDepth, mem, envs);
    AnswersAreReads(Flat(mem), t.done);
    QueueFits(reqDepth, outDepth, mem, envs);
    assert t.acc == t.done;
  }

  lemma {:induction false} SilentKeeps(reqDepth: nat, outDepth: nat, mem: nat -> Block, envs: seq<Env>, more: seq<Env>)
    requires Silent(more)
    requires Run(reqDepth, outDepth, mem, envs).lost == 0 && Unread(Run(reqDepth, outDepth, mem, envs)) <= outDepth
    ensures var t := Run(reqDepth, outDepth, mem, envs + more); t.lost == 0 && Unread(t) <= outDepth
  {
    if more == [] {
      assert envs + more == envs;
    } else {
      var last := more[|more| - 1];
      var before := envs + more[..|more| - 1];
      SilentKeeps(reqDepth, outDepth, mem, envs, more[..|more| - 1]);
      assert envs + more == before + [last];
      RunPush(reqDepth, outDepth, mem, before, last);
      RefinesFlatMemory(reqDepth, outDepth, mem, before);
      NoDropHere(outDepth, mem, Run(reqDepth, outDepth, mem, before));
      var t := Run(reqDepth, outDepth, mem, before);
      assert NextTrace(reqDepth, outDepth, t, last).acc == t.acc;
    }
  }

  /** While nothing has been lost, the responses still owed are safe, whatever the memory and the
      application do, exactly when no more of them are unread than the response queue holds. */
  lemma SafeIffUnreadFit(reqDepth: nat, outDepth: nat, mem: nat -> Block, envs: seq<Env>)
    requires Run(reqDepth, outDepth, mem, envs).lost == 0
    ensures (forall more :: Silent(more) ==> Run(reqDepth, outDepth, mem, envs + more).lost == 0)
       <==> Unread(Run(reqDepth, outDepth, mem, envs)) <= outDepth
  {
    if Unread(Run(reqDepth, outDepth, mem, envs)) <= outDepth {
      forall more | Silent(more) ensures Run(reqDepth, outDepth, mem, envs + more).lost == 0 {
        SilentKeeps(reqDepth, outDepth, mem, envs, more);
      }
    } else {
      var n := IdlesServe(reqDepth, outDepth, mem, envs);
      ServedOrLost(reqDepth, outDepth, mem, envs + Idles(n));
      assert Silent(Idles(n)) && Run(reqDepth, outDepth, mem, envs + Idles(n)).lost > 0;
    }
  }

  const READ := Request(false, 0, 0, 8)

  /** A read of word 0 that nobody takes, and the time to serve it. */
  function OneRead(): seq<Env> { [IDLE.(req := Some(READ)), IDLE, IDLE, IDLE] }

  /** Nothing is waiting, and the block held, if there is one, is block 0. */
  predicate Rested(b: Buffer) { b.reqQ == [] && (b.fsm.Invalid? || (b.fsm.Clean? && b.block == 0)) }

  lemma RestedStep(reqDepth: nat, outDepth: nat, t: Trace)
    requires reqDepth > 0 && Coherent(t.sys) && Rested(t.sys.buf)
    ensures NextTrace(reqDepth, outDepth, t, IDLE) == t
    ensures var t' := NextTrace(reqDepth, outDepth, t, IDLE.(req := Some(READ)));
            t'.sys == t.sys.(buf := t.sys.buf.(reqQ := [READ])) && t' == t.(sys := t'.sys, acc := t.acc + [READ])
  {
  }

  /** The read's turn: it is served if its block is here, and nothing else happens otherwise. */
  lemma ReadStep(reqDepth: nat, outDepth: nat, t: Trace)
    requires Coherent(t.sys) && t.sys.buf.reqQ == [READ] && !t.sys.buf.fsm.Modified?
    requires !t.sys.buf.fsm.Invalid? ==> t.sys.buf.block == 0
    requires |t.sys.buf.outQ| <= outDepth
    ensures var b, t' := t.sys.buf, NextTrace(reqDepth, outDepth, t, IDLE); var b' := t'.sys.buf;
            && Coherent(t'.sys) && t'.acc == t.acc && t'.del == t.del && b'.block == 0
            && (b.fsm.Invalid? ==> b'.fsm.Pending?) && (!b.fsm.Invalid? ==> b'.fsm.Clean?)
            && (!b.fsm.Clean? ==> b'.reqQ == [READ] && b'.outQ == b.outQ && t'.lost == t.lost)
            && (b.fsm.Clean? ==>
                  b'.reqQ == [] && |b'.outQ| + t'.lost == |b.outQ| + t.lost + 1
                  && (t'.lost > t.lost ==> |b.outQ| == outDepth) && |b'.outQ| >= |b.outQ|)
  {
  }

  lemma RunFour(reqDepth: nat, outDepth: nat, mem: nat -> Block, envs: seq<Env>)
    ensures var t := Run(reqDepth, outDepth, mem, envs);
            var t1 := NextTrace(reqDepth, outDepth, t, IDLE.(req := Some(READ)));
            && Coherent(t1.sys)
            && var t2 := NextTrace(reqDepth, outDepth, t1, IDLE);
               && Coherent(t2.sys)
               && var t3 := NextTrace(reqDepth, outDepth, t2, IDLE);
                  && Coherent(t3.sys)
                  && Run(reqDepth, outDepth, mem, envs + OneRead()) == NextTrace(reqDepth, outDepth, t3, IDLE)
  {
    var a := envs + [IDLE.(req := Some(READ))];
    RunPush(reqDepth, outDepth, mem, envs, IDLE.(req := Some(READ)));
    RunPush(reqDepth, outDepth, mem, a, IDLE);
    RunPush(reqDepth, outDepth, mem, a + [IDLE], IDLE);
    RunPush(reqDepth, outDepth, mem, a + [IDLE] + [IDLE], IDLE);
    assert envs + OneRead() == a + [IDLE] + [IDLE] + [IDLE];
    hide NextTrace;
  }

  lemma OneMoreRead(reqDepth: nat, outDepth: nat, mem: nat -> Block, envs: seq<Env>)
    requires reqDepth > 0 && Rested(Run(reqDepth, outDepth, mem, envs).sys.buf)
    ensures var t, t' := Run(reqDepth, outDepth, mem, envs), Run(reqDepth, outDepth, mem, envs + OneRead());
            var q, q' := t.sys.buf.outQ, t'.sys.buf.outQ;
            && Rested(t'.sys.buf) && t'.del == t.del && t'.acc == t.acc + [READ]
            && |q'| + t'.lost == |q| + t.lost + 1 && |q'| >= |q| && (t'.lost > t.lost ==> |q| == outDepth)
  {
    var t := Run(reqDepth, outDepth, mem, envs);
    RunFour(reqDepth, outDepth, mem, envs);
    QueueFits(reqDepth, outDepth, mem, envs);
    RestedStep(reqDepth, outDepth, t);
    var t1 := NextTrace(reqDepth, outDepth, t, IDLE.(req := Some(READ)));
    var t2 := NextTrace(reqDepth, outDepth, t1, IDLE);
    ReadStep(reqDepth, outDepth, t1);
    hide NextTrace, Coherent;
    if t.sys.buf.fsm.Clean? {
      RestedStep(reqDepth, outDepth, t2);
    } else {
      ReadStep(reqDepth, outDepth, t2);
      ReadStep(reqDepth, outDepth, NextTrace(reqDepth, outDepth, t2, IDLE));
    }
  }

  function Reads(n: nat): seq<Env> { if n == 0 then [] else Reads(n - 1) + OneRead() }

  lemma NoReads(reqDepth: nat, outDepth: nat, mem: nat -> Block)
    ensures var t := Run(reqDepth, outDepth, mem, Reads(0)); Rested(t.sys.buf) && t.del == [] && t.sys.buf.outQ == [] && t.lost == 0
  {
  }

  lemma ReadsNext(n: nat)
    requires n > 0
    ensures Reads(n) == Reads(n - 1) + OneRead()
  {
  }

  lemma {:induction false} ReadsAreServed(reqDepth: nat, outDepth: nat, mem: nat -> Block, n: nat)
    requires reqDepth > 0
    ensures var t := Run(reqDepth, outDepth, mem, Reads(n));
            Rested(t.sys.buf) && t.del == [] && |t.sys.buf.outQ| + t.lost == n && (t.lost > 0 ==> |t.sys.buf.outQ| == outDepth)
  {
    hide *;
    if n == 0 {
      NoReads(reqDepth, outDepth, mem);
    } else {
      ReadsNext(n);
      ReadsAreServed(reqDepth, outDepth, mem, n - 1);
      OneMoreRead(reqDepth, outDepth, mem, Reads(n - 1));
      QueueFits(reqDepth, outDepth, mem, Reads(n));
    }
  }

  lemma AnswersCount(reqDepth: nat, outDepth: nat, mem: nat -> Block, envs: seq<Env>)
    ensures var t := Run(reqDepth, outDepth, mem, envs); |t.ans| == |t.del| + |t.sys.buf.outQ| + t.lost
  {
    RefinesFlatMemory(reqDepth, outDepth, mem, envs);
  }

  /** The block buffer is asked for word 0 once more than its response queue holds and nobody takes
      a response: the last read is answered into a full queue, and its response is gone. */
  lemma OneReadTooMany(reqDepth: nat, outDepth: nat, mem: nat -> Block)
    requires reqDepth > 0
    ensures Run(reqDepth, outDepth, mem, Reads(outDepth)).lost == 0
    ensures var t := Run(reqDepth, outDepth, mem, Reads(outDepth + 1)); t.lost == 1 && |t.ans| == outDepth + 1 && t.del == []
  {
    AnswersCount(reqDepth, outDepth, mem, Reads(outDepth + 1));
    hide *;
    ReadsNext(outDepth + 1);
    ReadsAreServed(reqDepth, outDepth, mem, outDepth);
    ReadsAreServed(reqDepth, outDepth, mem, outDepth + 1);
    OneMoreRead(reqDepth, outDepth, mem, Reads(outDepth));
    QueueFits(reqDepth, outDepth, mem, Reads(outDepth));
    QueueFits(reqDepth, outDepth, mem, Reads(outDepth + 1));
  }

  /** The buffer as registers clocked in place. */
  class BlockBuffer {
    const reqDepth: nat
    const outDepth: nat
    const sectors: array<nat>
    var fsm: Fsm
    var block: nat
    var reqQ: seq<Request>
    var outQ: seq<Response>

    ghost predicate Valid()
      reads this
    {
      sectors.Length == SECTORS
    }

    ghost function State(): (b: Buffer)
      reads this, sectors
      requires Valid()
      ensures |b.sectors| == SECTORS
    {
      Buffer(fsm, block, sectors[..], reqQ, outQ)
    }

    constructor (reqDepth: nat, outDepth: nat)
      ensures Valid() && fresh(sectors) && this.reqDepth == reqDepth && this.outDepth == outDepth
      ensures State() == Reset()
    {
      this.reqDepth, this.outDepth := reqDepth, outDepth;
      sectors := new nat[SECTORS](_ => 0);
      fsm, block, reqQ, outQ := Invalid, 0, [], [];
    }

    /** The requests shown to the memory system: a fetch on port 0, a write-back on port 1. */
    method Requests() returns (port0: Option<nat>, port1: Option<(nat, seq<nat>)>)
      requires Valid()
      ensures port0 == ReadOut(State())
      ensures port1.Some? <==> Evicting(State())
      ensures port1.Some? ==> port1.value == (block, sectors[..])
    {
      port0, port1 := None, None;
      if reqQ != [] {
        var wanted := BlockOf(reqQ[0].addr);
        match fsm
        case Invalid => port0 := Some(wanted);
        case Pending =>
        case Clean => if wanted != block { port0 := Some(wanted); }
        case Modified => if wanted != block { port1 := Some((block, sectors[..])); }
      }
    }

    method Clock(i: Input)
      requires Valid()
      requires i.arriving.Some? ==> |i.arriving.value| == SECTORS
      modifies this, sectors
      ensures Valid() && State() == Next(reqDepth, outDepth, old(State()), i)
    {
      ghost var b := State();
      var deq, resp := false, None;
      match fsm {
        case Invalid =>
          if reqQ != [] && i.rdGrant {
            block, fsm := BlockOf(reqQ[0].addr), Pending;
          }
        case Pending =>
          if i.arriving.Some? {
            forall k | 0 <= k < SECTORS { sectors[k] := i.arriving.value[k]; }
            fsm := Clean;
          }
        case Clean =>
          if reqQ != [] {
            if BlockOf(reqQ[0].addr) == block {
              deq := true;
              if reqQ[0].isWrite {
                sectors[SectorOf(reqQ[0].addr)] := Low64(reqQ[0].data);
                fsm := Modified;
              } else {
                resp := Some(Response(sectors[SectorOf(reqQ[0].addr)], 8));
              }
            } else if i.rdGrant {
              block, fsm := BlockOf(reqQ[0].addr), Pending;
            }
          }
        case Modified =>
          if reqQ != [] {
            if BlockOf(reqQ[0].addr) == block {
              deq := true;
              if reqQ[0].isWrite {
                sectors[SectorOf(reqQ[0].addr)] := Low64(reqQ[0].data);
              } else {
                resp := Some(Response(sectors[SectorOf(reqQ[0].addr)], 8));
              }
            } else if i.wrGrant {
              fsm := Clean;
            }
          }
      }
      assert deq == Hit(b) && resp == Produced(b) && fsm == NextFsm(b, i);
      assert sectors[..] == NextSectors(b, i);
      reqQ := Fifo.Next(reqQ, reqDepth, i.req, deq);
      outQ := Fifo.Next(outQ, outDepth, resp, i.take);
    }
  }
}
