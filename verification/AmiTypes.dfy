/** Requests, tags and responses of the memory system, and where an address lives. */
module AmiTypes {
  import opened Arithmetic
  import opened Streams
  import Fifo

  /** A memory word; nothing in the memory system computes on it. */
  type Word = int

  /** What a port submits (the valid wire is the Option around it). */
  datatype Request = Request(isWrite: bool, addr: nat, data: Word, size: nat)

  function Reading(): Request -> bool { (r: Request) => !r.isWrite }

  /** A translated request labelled with its origin and channel. */
  datatype ChanReq = ChanReq(isWrite: bool, srcPort: nat, srcApp: nat, channel: nat, addr: nat, data: Word, size: nat)

  /** What a channel memory sees of it. */
  datatype MemReq = MemReq(isWrite: bool, addr: nat, data: Word, size: nat)

  datatype Tag = Tag(srcPort: nat, srcApp: nat, channel: nat, size: nat)

  datatype Resp = Resp(srcPort: nat, srcApp: nat, channel: nat, data: Word, size: nat)

  datatype Response = Response(data: Word, size: nat)

  /** How the physical address space is shared out: one memory system on F1, several of them
      (2^shift) on F1, or a Catapult board. */
  datatype Platform = F1 | F1Multi(shift: nat) | Catapult

  datatype Config = Config(
    platform: Platform,
    appBits: nat, portBits: nat, channelBits: nat,
    xlatDepth: nat, xlatedDepth: nat, mergeDepth: nat,
    tagDepth: nat, chanDepth: nat, outDepth: nat,
    arbReqDepth: nat, arbTagDepth: nat, arbRespDepth: nat)
  {
    function Apps(): (n: nat) { Fifo.Pow2(appBits) }
    function Ports(): (n: nat) { Fifo.Pow2(portBits) }
    function Channels(): (n: nat) ensures n >= 1 { Fifo.Pow2(channelBits) }
  }

  const GIB := 0x4000_0000
  const TWO64 := 0x1_0000_0000_0000_0000

  function ShiftRight(x: nat, n: nat): (r: nat)
    ensures r <= x
  {
    if n == 0 then x else ShiftRight(x / 2, n - 1)
  }

  /** The offset of each application's region, as the table lists it. */
  function Base(platform: Platform, apps: nat, app: nat): nat {
    match platform
    case F1 => if app < 8 then 0x2_0000_0000 * app else 0
    case F1Multi(shift) => if app < 8 then ShiftRight(0x2_0000_0000, shift) * app else 0
    case Catapult =>
      if app == 1 then (if apps == 2 then 4 * GIB else if apps == 4 then 2 * GIB else GIB)
      else if app == 2 then (if apps == 4 then 4 * GIB else 2 * GIB)
      else if app == 3 then (if apps == 4 then 6 * GIB else 3 * GIB)
      else if 4 <= app < 8 then app * GIB
      else 0
  }

  /** The size of one application's region. */
  function Region(platform: Platform, apps: nat): nat {
    match platform
    case F1 => 8 * GIB
    case F1Multi(shift) => ShiftRight(8 * GIB, shift)
    case Catapult => if apps == 8 then GIB else if apps == 4 then 2 * GIB else if apps == 2 then 4 * GIB else 8 * GIB
  }

  /** Virtual to physical: a 64-bit addition. */
  function Physical(cfg: Config, app: nat, va: nat): (pa: nat)
    ensures pa < TWO64
  {
    (va + Base(cfg.platform, cfg.Apps(), app)) % TWO64
  }

  /** AMI_CHANNEL_BITS is one even when there is a single channel, so one address bit is
      always dropped from the local address. */
  function Stride(cfg: Config): (n: nat)
    ensures n >= 2
  {
    if cfg.Channels() > 1 then cfg.Channels() else 2
  }

  function ChannelOf(cfg: Config, pa: nat): (c: nat)
    ensures c < cfg.Channels()
  {
    if cfg.Channels() == 1 then 0 else (pa / 64) % cfg.Channels()
  }

  function LocalOf(cfg: Config, pa: nat): nat {
    (pa / 64 / Stride(cfg)) * 64 + pa % 64
  }

  /** The physical address behind a channel and a local address. */
  function Join(cfg: Config, channel: nat, local: nat): nat {
    (local / 64 * Stride(cfg) + channel) * 64 + local % 64
  }

  lemma JoinLocal(cfg: Config, pa: nat)
    requires cfg.Channels() > 1
    ensures Join(cfg, ChannelOf(cfg, pa), LocalOf(cfg, pa)) == pa
  {
  }

  lemma LocalJoin(cfg: Config, channel: nat, local: nat)
    requires cfg.Channels() > 1 && channel < cfg.Channels()
    ensures ChannelOf(cfg, Join(cfg, channel, local)) == channel
    ensures LocalOf(cfg, Join(cfg, channel, local)) == local
  {
    var d := Stride(cfg);
    DivModUnique(local / 64 * d + channel, local % 64, 64);
    DivModUnique(local / 64, channel, d);
  }

  /** The interleave loses nothing exactly when there is more than one channel: with one channel
      the address bit above the block offset is dropped. */
  lemma InterleaveIsInjective(cfg: Config)
    ensures cfg.Channels() > 1 <==>
            forall x: nat, y: nat :: ChannelOf(cfg, x) == ChannelOf(cfg, y) && LocalOf(cfg, x) == LocalOf(cfg, y) ==> x == y
  {
    if cfg.Channels() > 1 {
      forall x: nat, y: nat | ChannelOf(cfg, x) == ChannelOf(cfg, y) && LocalOf(cfg, x) == LocalOf(cfg, y)
        ensures x == y
      {
        JoinLocal(cfg, x);
        JoinLocal(cfg, y);
      }
    } else {
      assert ChannelOf(cfg, 0) == ChannelOf(cfg, 64) && LocalOf(cfg, 0) == LocalOf(cfg, 64);
    }
  }

  ghost predicate KnownApps(cfg: Config) {
    cfg.appBits <= 3
  }

  lemma AppsAre(cfg: Config)
    requires KnownApps(cfg)
    ensures cfg.Apps() in {1, 2, 4, 8}
  {
  }

  /** The table places region after region. */
  lemma BaseIsMultiple(cfg: Config, app: nat)
    requires KnownApps(cfg) && app < cfg.Apps()
    ensures Base(cfg.platform, cfg.Apps(), app) == app * Region(cfg.platform, cfg.Apps())
  {
  }

  lemma RegionBound(cfg: Config)
    requires KnownApps(cfg)
    ensures Region(cfg.platform, cfg.Apps()) <= 8 * GIB
  {
  }

  /** The sizes of the regions: on F1 8 GiB, halved for every doubling of memory systems; on Catapult
      the applications share 8 GiB. */
  lemma RegionsAre(cfg: Config, shift: nat)
    requires KnownApps(cfg)
    ensures Region(F1, cfg.Apps()) == 0x2_0000_0000 == Region(F1Multi(0), cfg.Apps())
    ensures 2 * Region(F1Multi(shift + 1), cfg.Apps()) <= Region(F1Multi(shift), cfg.Apps())
    ensures shift < 33 ==> 2 * Region(F1Multi(shift + 1), cfg.Apps()) == Region(F1Multi(shift), cfg.Apps()) > 0
    ensures cfg.Apps() * Region(Catapult, cfg.Apps()) == 0x2_0000_0000
  {
    AppsAre(cfg);
    Pow33();
    Halving(0x2_0000_0000, 33, shift);
  }

  lemma Pow33()
    ensures Fifo.Pow2(33) == 0x2_0000_0000
  {
    assert Fifo.Pow2(8) == 256 && Fifo.Pow2(16) == 0x1_0000 && Fifo.Pow2(24) == 0x100_0000 && Fifo.Pow2(32) == 0x1_0000_0000;
  }

  lemma {:induction false} Halving(x: nat, bits: nat, shift: nat)
    requires x == Fifo.Pow2(bits)
    ensures 2 * ShiftRight(x, shift + 1) <= ShiftRight(x, shift)
    ensures shift < bits ==> 2 * ShiftRight(x, shift + 1) == ShiftRight(x, shift) > 0
  {
    if shift > 0 {
      if bits > 0 {
        Halving(x / 2, bits - 1, shift - 1);
      } else {
        ShiftZero(shift - 1);
        ShiftZero(shift);
      }
    }
  }

  lemma {:induction false} ShiftZero(n: nat)
    ensures ShiftRight(0, n) == 0
  {
    if n > 0 { ShiftZero(n - 1); }
  }

  /** A 64-bit sum: exact while it fits, modulo 2^64 always. */
  lemma PhysicalWraps(cfg: Config, app: nat, va: nat)
    ensures var sum := va + Base(cfg.platform, cfg.Apps(), app);
            && Physical(cfg, app, va) == sum % 0x1_0000_0000_0000_0000
            && (sum < 0x1_0000_0000_0000_0000 ==> Physical(cfg, app, va) == sum)
  {
  }

  lemma PhysicalIsSum(cfg: Config, app: nat, va: nat)
    requires KnownApps(cfg) && app < cfg.Apps() && va < Region(cfg.platform, cfg.Apps())
    ensures Physical(cfg, app, va) == app * Region(cfg.platform, cfg.Apps()) + va
    ensures Physical(cfg, app, va) < cfg.Apps() * Region(cfg.platform, cfg.Apps())
  {
    BaseIsMultiple(cfg, app);
    AppsAre(cfg);
    RegionBound(cfg);
    var r := Region(cfg.platform, cfg.Apps());
    assert (app + 1) * r <= cfg.Apps() * r;
    assert cfg.Apps() * r <= 8 * r;
  }

  /** Two requests meet in one cell of one channel exactly when they are the same application's
      request for the same virtual address. */
  lemma Isolation(cfg: Config, a: nat, va: nat, b: nat, vb: nat)
    requires KnownApps(cfg) && cfg.Channels() > 1
    requires a < cfg.Apps() && b < cfg.Apps()
    requires va < Region(cfg.platform, cfg.Apps()) && vb < Region(cfg.platform, cfg.Apps())
    ensures ChannelOf(cfg, Physical(cfg, a, va)) == ChannelOf(cfg, Physical(cfg, b, vb))
            && LocalOf(cfg, Physical(cfg, a, va)) == LocalOf(cfg, Physical(cfg, b, vb))
            <==> a == b && va == vb
  {
    var r := Region(cfg.platform, cfg.Apps());
    PhysicalIsSum(cfg, a, va);
    PhysicalIsSum(cfg, b, vb);
    JoinLocal(cfg, Physical(cfg, a, va));
    JoinLocal(cfg, Physical(cfg, b, vb));
    if Physical(cfg, a, va) == Physical(cfg, b, vb) {
      DivModUnique(a, va, r);
      DivModUnique(b, vb, r);
    }
  }

  /** With four channels every application's cells fit in 16 GiB per channel. */
  lemma LocalBound(cfg: Config, app: nat, va: nat)
    requires KnownApps(cfg) && cfg.channelBits == 2
    requires app < cfg.Apps() && va < Region(cfg.platform, cfg.Apps())
    ensures LocalOf(cfg, Physical(cfg, app, va)) < 16 * GIB
  {
    PhysicalIsSum(cfg, app, va);
    RegionBound(cfg);
    AppsAre(cfg);
    assert cfg.Channels() == 4 by { assert Fifo.Pow2(2) == 2 * Fifo.Pow2(1); }
    assert Physical(cfg, app, va) < 64 * GIB by {
      assert cfg.Apps() * Region(cfg.platform, cfg.Apps()) <= 8 * Region(cfg.platform, cfg.Apps());
    }
  }
}
