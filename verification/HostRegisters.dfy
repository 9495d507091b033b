/** Register accesses end to end: the host's calls, the bus beats they become, the bridge, the
    routing to applications and the way back. */
module HostRegisters {
  import opened Streams
  import opened AxiLite
  import opened SoftReg

  /** Calls of a client; a slot is one of eight, an address one of its 8-byte registers. */
  datatype Call = WriteCall(slot: nat, addr: bv64, value: bv64) | ReadCall(slot: nat, addr: bv64)

  function ApplySlotMask(slot: nat, addr: bv64): bv64
    requires slot < 8
  {
    (((Bits(slot) as bv64) << 13) | addr) & 0xFFFF
  }

  function BusAddr(slot: nat, addr: bv64): Half
    requires slot < 8
  {
    ApplySlotMask(slot, addr) as bv32
  }

  predicate Legal(c: Call) { c.slot < 8 && c.addr < 0x2000 && c.addr % 8 == 0 }

  /** What the host puts on the write address, write data and read address channels. */
  function AwOf(c: Call): seq<Half>
    requires c.slot < 8
  {
    if c.WriteCall? then [BusAddr(c.slot, c.addr), BusAddr(c.slot, c.addr + 4)] else []
  }

  function WOf(c: Call): seq<Half> {
    if c.WriteCall? then [LowHalf(c.value), HighHalf(c.value)] else []
  }

  function ArOf(c: Call): seq<Half>
    requires c.slot < 8
  {
    if c.ReadCall? then [BusAddr(c.slot, c.addr), BusAddr(c.slot, c.addr + 4)] else []
  }

  /** The register request a call stands for, as the bridge should issue it. */
  function RequestOf(c: Call): SrReq
    requires c.slot < 8
  {
    match c
    case WriteCall(slot, addr, value) => Write(BusAddr(slot, addr), value)
    case ReadCall(slot, addr) => Read(BusAddr(slot, addr))
  }

  /** A register's offset within its application, in 32 bits. */
  function AppAddr(addr: bv64): Half {
    (addr & 0x1FFF) as bv32
  }

  /** The same request as its application should see it: the address within its registers. */
  function Meant(c: Call): SrReq {
    match c
    case WriteCall(_, addr, value) => Write(AppAddr(addr), value)
    case ReadCall(_, addr) => Read(AppAddr(addr))
  }

  /** The slot number is the application number, and the address survives. */
  lemma CallRoutes(c: Call, app: nat)
    requires Legal(c) && app < 8
    ensures RoutedTo(BusAddr(c.slot, c.addr), app) <==> app == c.slot
    ensures Routed(Some(RequestOf(c)), app) == if app == c.slot then Some(Meant(c)) else None
  {
  }

  lemma MaskIs(wide: bv64, slot: nat, addr: bv64)
    requires wide < 8 && addr < 0x2000 && Num64(wide) == slot
    ensures ((wide << 13) | addr) & 0xFFFF < 0x1_0000
    ensures Num((((wide << 13) | addr) & 0xFFFF) as bv32) == slot * 8192 + Num64(addr)
  {
    hide Num, Num64;
    BusBits(wide, addr);
    Masked(wide, addr);
    Narrow(((wide << 13) | addr) & 0xFFFF);
  }

  /** The same in numbers: on the bus an application's slot is 8192 bytes. */
  lemma BusAddrIs(slot: nat, addr: bv64)
    requires slot < 8 && addr < 0x2000
    ensures Num(BusAddr(slot, addr)) == slot * 8192 + Num64(addr)
  {
    hide Num, Num64;
    WideSlot(slot);
    MaskIs(Bits(slot) as bv64, slot, addr);
  }

  /** And the application sees the address the caller gave. */
  lemma AppAddrIs(addr: bv64)
    requires addr < 0x2000
    ensures Num(AppAddr(addr)) == Num64(addr)
  {
    hide Num, Num64;
    Masked(0, addr);
    Narrow(addr);
  }

  lemma WideSlot(slot: nat)
    requires slot < 8
    ensures Bits(slot) as bv64 < 8 && Num64(Bits(slot) as bv64) == slot
  {
    Widen(Bits(slot));
    hide Num64;
  }

  lemma Masked(slot: bv64, addr: bv64)
    requires addr < 0x2000
    ensures addr & 0x1FFF == addr && ((slot << 13) | addr) & 0xFFFF < 0x1_0000
  {
  }

  lemma Widen(b: bv32)
    requires b < 8
    ensures (b as bv64) < 8 && Num64(b as bv64) == b as nat
  {
  }

  lemma Narrow(x: bv64)
    requires x < 0x1_0000
    ensures Num(x as bv32) == Num64(x)
  {
  }

  lemma BusBits(slot: bv64, addr: bv64)
    requires slot < 8 && addr < 0x2000
    ensures Num64(((slot << 13) | addr) & 0xFFFF) == Num64(slot) * 8192 + Num64(addr)
  {
  }

  /** The bus as the host's accesses leave it: what went out on each channel. */
  class PciBar {
    var aws: seq<Half>
    var ws: seq<Half>
    var ars: seq<Half>

    constructor ()
      ensures aws == ws == ars == []
    {
      aws, ws, ars := [], [], [];
    }

    method Poke(addr: Half, data: Half)
      modifies this`aws, this`ws
      ensures aws == old(aws) + [addr] && ws == old(ws) + [data]
    {
      aws, ws := aws + [addr], ws + [data];
    }

    method Peek(addr: Half)
      modifies this`ars
      ensures ars == old(ars) + [addr]
    {
      ars := ars + [addr];
    }
  }

  method WritePciBar1(bar: PciBar, slot: nat, addr: bv64, value: bv64)
    requires slot < 8 && addr % 8 == 0
    modifies bar`aws, bar`ws
    ensures bar.aws == old(bar.aws) + AwOf(WriteCall(slot, addr, value))
    ensures bar.ws == old(bar.ws) + WOf(WriteCall(slot, addr, value))
  {
    bar.Poke(BusAddr(slot, addr), LowHalf(value));
    bar.Poke(BusAddr(slot, addr + 4), HighHalf(value));
  }

  /** The two peeks return what the bus answers: `bottom` and `upper`. */
  method ReadPciBar1(bar: PciBar, slot: nat, addr: bv64, bottom: Half, upper: Half) returns (value: bv64)
    requires slot < 8 && addr % 8 == 0
    modifies bar`ars
    ensures bar.ars == old(bar.ars) + ArOf(ReadCall(slot, addr))
    ensures value == Combine(bottom, upper)
  {
    bar.Peek(BusAddr(slot, addr));
    bar.Peek(BusAddr(slot, addr + 4));
    value := (bottom as bv64) | ((upper as bv64) << 32);
  }

  // The channels' streams of a sequence of calls.

  predicate AllLegal(calls: seq<Call>) { forall k :: 0 <= k < |calls| ==> Legal(calls[k]) }

  function Requests(calls: seq<Call>): (r: seq<SrReq>)
    requires AllLegal(calls)
    ensures |r| == |calls|
  {
    seq(|calls|, k requires 0 <= k < |calls| && AllLegal(calls) => RequestOf(calls[k]))
  }

  function AwStream(calls: seq<Call>): seq<Half>
    requires AllLegal(calls)
  {
    if calls == [] then [] else AwStream(calls[..|calls| - 1]) + AwOf(calls[|calls| - 1])
  }

  function WStream(calls: seq<Call>): seq<Half> {
    if calls == [] then [] else WStream(calls[..|calls| - 1]) + WOf(calls[|calls| - 1])
  }

  function ArStream(calls: seq<Call>): seq<Half>
    requires AllLegal(calls)
  {
    if calls == [] then [] else ArStream(calls[..|calls| - 1]) + ArOf(calls[|calls| - 1])
  }

  function AddrOf(r: SrReq): Half { r.addr }
  function LowOf(r: SrReq): Half { if r.Write? then LowHalf(r.data) else 0 }
  function HighOf(r: SrReq): Half { if r.Write? then HighHalf(r.data) else 0 }

  lemma PairPush<T>(s: seq<T>, x: T, y: T)
    requires |s| % 2 == 0
    ensures Evens(s + [x, y]) == Evens(s) + [x] && Odds(s + [x, y]) == Odds(s) + [y]
  {
    hide Evens, Odds;
    assert s + [x, y] == (s + [x]) + [y];
    EvensPushOne(s, x);
    EvensPushOne(s + [x], y);
  }

  lemma {:induction false} EvensPrefix<T>(a: seq<T>, b: seq<T>)
    requires a <= b
    ensures Evens(a) <= Evens(b) && Odds(a) <= Odds(b)
  {
    if a != b {
      var c := b[..|b| - 1];
      EvensPrefix(a, c);
      assert b == c + [b[|b| - 1]];
      EvensPushOne(c, b[|b| - 1]);
    }
  }

  lemma RequestsPush(calls: seq<Call>)
    requires AllLegal(calls) && calls != []
    ensures AllLegal(calls[..|calls| - 1])
    ensures var last := RequestOf(calls[|calls| - 1]);
            && Requests(calls) == Requests(calls[..|calls| - 1]) + [last]
            && Writes(Requests(calls)) == Writes(Requests(calls[..|calls| - 1])) + (if last.Write? then [last] else [])
            && Reads(Requests(calls)) == Reads(Requests(calls[..|calls| - 1])) + (if last.Read? then [last] else [])
  {
    var before, last := calls[..|calls| - 1], RequestOf(calls[|calls| - 1]);
    assert Requests(calls) == Requests(before) + [last];
    FilterPush(Requests(before), last, IsWrite);
    FilterPush(Requests(before), last, IsRead);
  }

  /** The write address channel carries every write's address at its even places. */
  lemma {:induction false} AwStreamIs(calls: seq<Call>)
    requires AllLegal(calls)
    ensures |AwStream(calls)| == 2 * |Writes(Requests(calls))|
    ensures Evens(AwStream(calls)) == Map(Writes(Requests(calls)), AddrOf)
  {
    if calls != [] {
      hide Evens, Odds, BusAddr, Requests;
      var before, last := calls[..|calls| - 1], calls[|calls| - 1];
      RequestsPush(calls);
      AwStreamIs(before);
      if last.WriteCall? {
        PairPush(AwStream(before), AwOf(last)[0], AwOf(last)[1]);
        MapPush(Writes(Requests(before)), RequestOf(last), AddrOf);
      } else {
        assert AwStream(calls) == AwStream(before);
      }
    }
  }

  /** The write data channel alternates the low and high halves. */
  lemma {:induction false} WStreamIs(calls: seq<Call>)
    requires AllLegal(calls)
    ensures |WStream(calls)| == 2 * |Writes(Requests(calls))|
    ensures Evens(WStream(calls)) == Map(Writes(Requests(calls)), LowOf)
    ensures Odds(WStream(calls)) == Map(Writes(Requests(calls)), HighOf)
  {
    if calls != [] {
      hide Evens, Odds, BusAddr, Requests, LowHalf, HighHalf;
      var before, last := calls[..|calls| - 1], calls[|calls| - 1];
      RequestsPush(calls);
      WStreamIs(before);
      if last.WriteCall? {
        PairPush(WStream(before), WOf(last)[0], WOf(last)[1]);
        MapPush(Writes(Requests(before)), RequestOf(last), LowOf);
        MapPush(Writes(Requests(before)), RequestOf(last), HighOf);
      } else {
        assert WStream(calls) == WStream(before);
      }
    }
  }

  lemma {:induction false} ArStreamIs(calls: seq<Call>)
    requires AllLegal(calls)
    ensures |ArStream(calls)| == 2 * |Reads(Requests(calls))|
    ensures Evens(ArStream(calls)) == Map(Reads(Requests(calls)), AddrOf)
  {
    if calls != [] {
      hide Evens, Odds, BusAddr, Requests;
      var before, last := calls[..|calls| - 1], calls[|calls| - 1];
      RequestsPush(calls);
      ArStreamIs(before);
      if last.ReadCall? {
        PairPush(ArStream(before), ArOf(last)[0], ArOf(last)[1]);
        MapPush(Reads(Requests(before)), RequestOf(last), AddrOf);
      } else {
        assert ArStream(calls) == ArStream(before);
      }
    }
  }

  // A host that finishes each call before it starts the next.

  function Upto(calls: seq<Call>, i: nat): nat
    requires i <= |calls|
  {
    if i < |calls| then i + 1 else i
  }

  /** The calls before the `i`-th are complete, reads with their answers; of the `i`-th some beats
      have been transferred. */
  ghost predicate Follows(calls: seq<Call>, i: nat, h: Hist)
    requires AllLegal(calls)
  {
    && i <= |calls|
    && AwStream(calls[..i]) <= h.aws <= AwStream(calls[..Upto(calls, i)])
    && WStream(calls[..i]) <= h.ws <= WStream(calls[..Upto(calls, i)])
    && ArStream(calls[..i]) <= h.ars <= ArStream(calls[..Upto(calls, i)])
    && 2 * |Reads(Requests(calls[..i]))| <= |h.beats|
  }

  /** When all requests of the other kind up to `i` are done, the next of this kind is the next of
      all. */
  lemma NextOfKind(t: seq<SrReq>, keep: SrReq -> bool, other: SrReq -> bool, n: nat, i: nat, u: nat)
    requires i <= u <= i + 1 && u <= |t| && n <= |t|
    requires forall r :: keep(r) <==> !other(r)
    requires |Filter(t[..n], keep)| < |Filter(t[..u], keep)|
    requires |Filter(t[..i], other)| <= |Filter(t[..n], other)|
    ensures n < |t| && t[n] == Filter(t[..u], keep)[|Filter(t[..n], keep)|]
  {
    hide Filter;
    assert n < u by {
      if u <= n { FilterPrefix(t[..u], t[..n], keep); }
    }
    assert t[..n + 1] == t[..n] + [t[n]];
    FilterPush(t[..n], t[n], keep);
    FilterPush(t[..n], t[n], other);
    assert Filter(t[..n + 1], keep) <= Filter(t[..u], keep) by { FilterPrefix(t[..n + 1], t[..u], keep); }
    if n < i { FilterPrefix(t[..n + 1], t[..i], other); }
    assert keep(t[n]);
  }
}
