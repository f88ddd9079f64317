/** r_vir2abs: from blocks of a file to blocks of the disk, through indirect blocks that are read at
    most once in a row. */
module BootRawfs {
  import opened Arithmetic
  import opened BootBytes

  datatype Inode = Inode(size: nat, zones: seq<nat>)

  /** A file system: blocks per zone as a power of two, bytes per block, direct zones per inode,
      zone numbers per block, and what its blocks hold when read as zone numbers. */
  datatype Volume = Volume(shift: nat, blockSize: nat, direct: nat, perBlock: nat, block: nat -> seq<nat>)
  {
    ghost predicate Ok() {
      blockSize > 0 && direct > 0 && perBlock > 0 && forall b :: |block(b)| == perBlock
    }

    function ZoneSize(): (n: nat)
      ensures n > 0
    {
      Pow2(shift)
    }

    /** The zone of block `b` of a file, and where in the zone it is. */
    function ZoneOf(b: nat): nat {
      Quotients(b, ZoneSize());
      b / ZoneSize()
    }

    function Within(b: nat): (i: nat)
      ensures i < ZoneSize()
    {
      b % ZoneSize()
    }

    /** The first block of a zone. */
    function First(zone: nat): (b: nat)
      ensures zone > 0 ==> b >= ZoneSize()
      ensures zone == 0 ==> b == 0
    {
      if zone > 0 then
        MulAtLeast(zone, ZoneSize());
        zone * ZoneSize()
      else 0
    }

    /** The zones under the inode and its indirect blocks. */
    function Capacity(): (n: nat)
      requires perBlock > 0
      ensures n >= direct + perBlock
    {
      assert perBlock * perBlock >= 0;
      direct + perBlock + perBlock * perBlock
    }

    predicate InFile(f: Inode, b: nat) {
      b * blockSize < f.size
    }

    /** The file fits under a double indirect block. */
    ghost predicate FileOk(f: Inode) {
      && Ok() && |f.zones| >= direct + 2
      && forall b: nat :: InFile(f, b) ==> ZoneOf(b) < Capacity()
    }

    /** The single indirect zone that zone `z` of the file is under, or 0. */
    function Indirect(f: Inode, z: nat): nat
      requires Ok() && |f.zones| >= direct + 2 && direct <= z < Capacity()
    {
      var n := z - direct;
      if n < perBlock then f.zones[direct]
      else if f.zones[direct + 1] == 0 then 0
      else
        InDouble(n - perBlock, perBlock);
        block(First(f.zones[direct + 1]))[(n - perBlock) / perBlock]
    }

    /** The zone number of zone `z` of the file, 0 if there is none. */
    function Zone(f: Inode, z: nat): nat
      requires Ok() && |f.zones| >= direct + 2 && z < Capacity()
    {
      if z < direct then f.zones[z]
      else
        var ind := Indirect(f, z);
        if ind == 0 then 0 else block(First(ind))[(z - direct) % perBlock]
    }

    /** Nothing leads to zone `z` of the file, not even an indirect block. */
    predicate Cut(f: Inode, z: nat)
      requires Ok() && |f.zones| >= direct + 2 && z < Capacity()
    {
      z >= direct && Indirect(f, z) == 0
    }

    /** The block on disk, without any caches. */
    function Vir2Abs(f: Inode, b: nat): int
      requires FileOk(f)
    {
      if !InFile(f, b) then -1
      else if Cut(f, ZoneOf(b)) then 0
      else First(Zone(f, ZoneOf(b))) + Within(b)
    }
  }

  // The zones and the blocks of a file, one after the other.

  /** What is known of a place in a file: is the indirect block missing that would say what is there,
      and what is the zone, or 0? */
  datatype Slot = Slot(cut: bool, zone: nat)

  /** All of them joined. */
  function Flat<A>(ss: seq<seq<A>>): seq<A> {
    if ss == [] then [] else ss[0] + Flat(ss[1..])
  }

  /** The zone numbers in an indirect block, all 0 if there is none. */
  function Entries(v: Volume, ind: nat): (r: seq<nat>)
    requires v.Ok()
    ensures |r| == v.perBlock && (ind == 0 ==> forall k :: 0 <= k < |r| ==> r[k] == 0)
  {
    if ind == 0 then seq(v.perBlock, _ => 0) else v.block(v.First(ind))
  }

  function Under(v: Volume, ind: nat): (r: seq<Slot>)
    requires v.Ok()
    ensures |r| == v.perBlock && forall k :: 0 <= k < |r| ==> r[k] == Slot(ind == 0, Entries(v, ind)[k])
  {
    seq(v.perBlock, k requires 0 <= k < v.perBlock => Slot(ind == 0, Entries(v, ind)[k]))
  }

  function UnderAll(v: Volume, inds: seq<nat>): (r: seq<seq<Slot>>)
    requires v.Ok()
    ensures |r| == |inds| && forall k :: 0 <= k < |r| ==> r[k] == Under(v, inds[k])
  {
    seq(|inds|, k requires 0 <= k < |inds| => Under(v, inds[k]))
  }

  /** The direct zones, those under the indirect block, and those under each of the indirect blocks
      that the double indirect block lists. */
  function Slots(v: Volume, f: Inode): seq<Slot>
    requires v.Ok() && |f.zones| >= v.direct + 2
  {
    seq(v.direct, k requires 0 <= k < v.direct => Slot(false, f.zones[k])) + Under(v, f.zones[v.direct])
    + Flat(UnderAll(v, Entries(v, f.zones[v.direct + 1])))
  }

  /** The blocks of a zone follow each other; those of a hole are numbered as if it was zone 0, but if
      there is no indirect block all of them are 0. */
  function ZoneBlocks(v: Volume, s: Slot): (r: seq<nat>)
    ensures |r| == v.ZoneSize()
  {
    seq(v.ZoneSize(), k requires 0 <= k < v.ZoneSize() => BlockNumber(s, k, v.ZoneSize()))
  }

  function BlockNumber(s: Slot, k: nat, n: nat): nat {
    assert s.zone * n >= 0;
    if s.cut then 0 else s.zone * n + k
  }

  function Blocks(v: Volume, f: Inode): seq<nat>
    requires v.Ok() && |f.zones| >= v.direct + 2
  {
    var slots := Slots(v, f);
    Flat(seq(|slots|, k requires 0 <= k < |slots| => ZoneBlocks(v, slots[k])))
  }

  lemma {:induction false} FlatAt<A>(ss: seq<seq<A>>, n: nat, q: nat, r: nat)
    requires (forall k :: 0 <= k < |ss| ==> |ss[k]| == n) && q < |ss| && r < n
    ensures q * n + r < |Flat(ss)| && Flat(ss)[q * n + r] == ss[q][r]
    decreases |ss|
  {
    if q > 0 {
      FlatAt(ss[1..], n, q - 1, r);
      assert (q - 1) * n + n == q * n;
    }
  }

  lemma {:induction false} FlatLength<A>(ss: seq<seq<A>>, n: nat)
    requires forall k :: 0 <= k < |ss| ==> |ss[k]| == n
    ensures |Flat(ss)| == |ss| * n
    decreases |ss|
  {
    if ss != [] {
      FlatLength(ss[1..], n);
      assert (|ss| - 1) * n + n == |ss| * n;
    }
  }

  lemma SlotsLength(v: Volume, f: Inode)
    requires v.Ok() && |f.zones| >= v.direct + 2
    ensures |Slots(v, f)| == v.Capacity()
  {
    hide Under, Entries, UnderAll;
    FlatLength(UnderAll(v, Entries(v, f.zones[v.direct + 1])), v.perBlock);
  }

  /** The divisions of the walk find the right place in the list of zones. */
  lemma SlotIs(v: Volume, f: Inode, z: nat)
    requires v.Ok() && |f.zones| >= v.direct + 2 && z < v.Capacity()
    ensures z < |Slots(v, f)| && Slots(v, f)[z] == Slot(v.Cut(f, z), v.Zone(f, z))
  {
    hide Pow2, v.First, Under, Entries, v.Indirect;
    SlotsLength(v, f);
    if z >= v.direct + v.perBlock {
      SlotDouble(v, f, z);
    } else if z >= v.direct {
      SlotSingle(v, f, z);
    }
  }

  /** What is at place `k` under an indirect block. */
  lemma UnderIs(v: Volume, ind: nat, k: nat)
    requires v.Ok() && k < v.perBlock
    ensures Under(v, ind)[k] == Slot(ind == 0, if ind == 0 then 0 else v.block(v.First(ind))[k])
  {
    hide Pow2, v.First;
  }

  lemma ZoneIs(v: Volume, f: Inode, z: nat, ind: nat, k: nat)
    requires v.Ok() && |f.zones| >= v.direct + 2 && v.direct <= z < v.Capacity()
    requires ind == v.Indirect(f, z) && k == (z - v.direct) % v.perBlock < v.perBlock
    ensures Slot(v.Cut(f, z), v.Zone(f, z)) == Under(v, ind)[k]
  {
    hide Pow2, v.First, v.Indirect, Under, v.Capacity;
    UnderIs(v, ind, k);
  }

  lemma SlotSingle(v: Volume, f: Inode, z: nat)
    requires v.Ok() && |f.zones| >= v.direct + 2 && v.direct <= z < v.direct + v.perBlock
    ensures z < v.Capacity() && z < |Slots(v, f)| && Slots(v, f)[z] == Slot(v.Cut(f, z), v.Zone(f, z))
  {
    hide Pow2, v.First, Under, Entries;
    SmallMod(z - v.direct, v.perBlock);
    ZoneIs(v, f, z, f.zones[v.direct], z - v.direct);
    assert Slots(v, f)[z] == Under(v, f.zones[v.direct])[z - v.direct];
  }

  lemma SlotDouble(v: Volume, f: Inode, z: nat)
    requires v.Ok() && |f.zones| >= v.direct + 2 && v.direct + v.perBlock <= z < v.Capacity()
    ensures z < |Slots(v, f)| && Slots(v, f)[z] == Slot(v.Cut(f, z), v.Zone(f, z))
  {
    hide Pow2, v.First, Under, v.Zone, v.Cut, Slots, Entries, v.Indirect;
    SlotsLength(v, f);
    var per, n := v.perBlock, z - v.direct - v.perBlock;
    var double := Entries(v, f.zones[v.direct + 1]);
    InDouble(n, per);
    BlockParts(n, per);
    ShiftMod(n, per);
    var q, r := n / per, n % per;
    EntryIs(v, f, z, q);
    ZoneIs(v, f, z, double[q], r);
    InThird(v, f, n, q, r);
  }

  lemma EntryIs(v: Volume, f: Inode, z: nat, q: nat)
    requires v.Ok() && |f.zones| >= v.direct + 2 && v.direct + v.perBlock <= z < v.Capacity()
    requires q == (z - v.direct - v.perBlock) / v.perBlock < v.perBlock
    ensures v.Indirect(f, z) == Entries(v, f.zones[v.direct + 1])[q]
  {
    hide Pow2, v.First;
  }

  lemma InThird(v: Volume, f: Inode, n: nat, q: nat, r: nat)
    requires v.Ok() && |f.zones| >= v.direct + 2 && q < v.perBlock && r < v.perBlock && n == q * v.perBlock + r
    ensures var z := v.direct + v.perBlock + n;
            z < |Slots(v, f)| && Slots(v, f)[z] == Under(v, Entries(v, f.zones[v.direct + 1])[q])[r]
  {
    hide Under, Entries, UnderAll;
    FlatAt(UnderAll(v, Entries(v, f.zones[v.direct + 1])), v.perBlock, q, r);
  }

  /** The whole mapping, without any division: the block of a file at `b` is the `b`-th of its blocks,
      taken in order. */
  lemma BlockIsListed(v: Volume, f: Inode, b: nat)
    requires v.FileOk(f)
    ensures b * v.blockSize >= f.size ==> v.Vir2Abs(f, b) == -1
    ensures b * v.blockSize < f.size ==> b < |Blocks(v, f)| && v.Vir2Abs(f, b) == Blocks(v, f)[b]
  {
    hide Pow2, v.First, v.Zone, v.Cut, Slots, v.Capacity;
    if v.InFile(f, b) {
      var z, i, n := v.ZoneOf(b), v.Within(b), v.ZoneSize();
      SlotIs(v, f, z);
      var slots := Slots(v, f);
      var parts := seq(|slots|, k requires 0 <= k < |slots| => ZoneBlocks(v, slots[k]));
      FlatAt(parts, n, z, i);
      BlockParts(b, n);
      FirstIs(v, slots[z].zone);
    }
  }

  lemma BlockParts(b: nat, n: nat)
    requires n > 0
    ensures b == b / n * n + b % n
  {
    assert b == n * (b / n) + b % n;
  }

  lemma FirstIs(v: Volume, zone: nat)
    ensures v.First(zone) == zone * v.ZoneSize()
  {
    hide Pow2;
  }

  lemma Quotients(b: nat, n: nat)
    requires n > 0
    ensures b / n >= 0
  {
    var q := b / n;
    assert b == n * q + b % n;
    if q < 0 {
      MulAtLeast(-q, n);
    }
  }

  lemma InDouble(n: nat, per: nat)
    requires per > 0 && n < per * per
    ensures n / per < per
  {
    assert n == per * (n / per) + n % per;
    if n / per >= per {
      MulAtLeast(n / per - per + 1, per);
    }
  }

  class Rawfs {
    const volume: Volume

    var curfil: Inode
    var indir: seq<nat>
    var dindir: seq<nat>
    var aIndir: nat
    var aDindir: nat

    constructor (volume: Volume, f: Inode)
      requires volume.FileOk(f)
      ensures Valid() && this.volume == volume && curfil == f
    {
      this.volume, curfil := volume, f;
      indir, dindir, aIndir, aDindir := [], [], 0, 0;
    }

    /** What is cached is what is on the disk. */
    ghost predicate Valid()
      reads this
    {
      && volume.FileOk(curfil)
      && (aIndir != 0 ==> indir == volume.block(aIndir))
      && (aDindir != 0 ==> dindir == volume.block(aDindir))
    }

    /** The end of r_stat. */
    method Stat(f: Inode)
      requires Valid() && volume.FileOk(f)
      modifies this
      ensures Valid() && curfil == f
    {
      curfil := f;
      aIndir, aDindir := 0, 0;
    }

    /** Whatever was looked up before, the answer is that of the uncached walk. */
    method Vir2Abs(virblk: nat) returns (z: int)
      requires Valid()
      modifies this`indir, this`dindir, this`aIndir, this`aDindir
      ensures Valid() && z == volume.Vir2Abs(curfil, virblk)
    {
      hide Pow2;
      if virblk * volume.blockSize >= curfil.size {
        return -1;
      }
      var zone := volume.ZoneOf(virblk);
      assert volume.InFile(curfil, virblk);
      ghost var z0 := zone;
      var index := volume.Within(virblk);
      if zone < volume.direct {
        return volume.First(curfil.zones[zone]) + index;
      }
      var ind;
      ind, zone := IndirectZone(zone - volume.direct);
      if ind == 0 {
        return 0;
      }
      ReadSingle(volume.First(ind));
      z := volume.First(indir[zone]) + index;
    }

    /** The single indirect zone, and the place in it. */
    method IndirectZone(n: nat) returns (ind: nat, zone: nat)
      requires Valid() && volume.direct + n < volume.Capacity()
      modifies this`dindir, this`aDindir
      ensures Valid() && zone < volume.perBlock
      ensures ind == volume.Indirect(curfil, volume.direct + n)
      ensures ind != 0 ==> zone == n % volume.perBlock
    {
      zone := n;
      if zone < volume.perBlock {
        ind := curfil.zones[volume.direct];
        SmallMod(zone, volume.perBlock);
      } else {
        ind := curfil.zones[volume.direct + 1];
        if ind == 0 {
          return 0, 0;
        }
        ReadDouble(volume.First(ind));
        zone := zone - volume.perBlock;
        InDouble(zone, volume.perBlock);
        ind := dindir[zone / volume.perBlock];
        ShiftMod(zone, volume.perBlock);
        zone := zone % volume.perBlock;
      }
    }

    method ReadDouble(z: nat)
      requires Valid() && z > 0
      modifies this`dindir, this`aDindir
      ensures Valid() && aDindir == z
    {
      if aDindir != z {
        dindir := volume.block(z);
        aDindir := z;
      }
    }

    method ReadSingle(z: nat)
      requires Valid() && z > 0
      modifies this`indir, this`aIndir
      ensures Valid() && aIndir == z
    {
      if aIndir != z {
        indir := volume.block(z);
        aIndir := z;
      }
    }
  }

  lemma SmallMod(n: nat, per: nat)
    requires n < per
    ensures n % per == n
  {
  }

  lemma ShiftMod(n: nat, per: nat)
    requires per > 0
    ensures (n + per) % per == n % per
  {
    DivModUnique(per, per, 1, 0);
    ModAdd(per, n, per);
  }

  // What the mapping is good for.

  /** No two zones of the file are the same zone of the disk. */
  ghost predicate NotShared(v: Volume, f: Inode)
    requires v.FileOk(f)
  {
    var slots := Slots(v, f);
    forall y, z ::
      0 <= y < |slots| && 0 <= z < |slots| && y != z && slots[y].zone != 0 ==> slots[y].zone != slots[z].zone
  }

  /** What is known of the place of block `b` of the file. */
  function SlotOf(v: Volume, f: Inode, b: nat): (s: Slot)
    requires v.FileOk(f) && v.InFile(f, b)
    ensures s == Slot(v.Cut(f, v.ZoneOf(b)), v.Zone(f, v.ZoneOf(b)))
  {
    SlotIs(v, f, v.ZoneOf(b));
    Slots(v, f)[v.ZoneOf(b)]
  }

  /** A zone and a place in it make up a block in only one way. */
  lemma OneWay(v: Volume, y: nat, i: nat, z: nat, j: nat)
    requires i < v.ZoneSize() && j < v.ZoneSize() && v.First(y) + i == v.First(z) + j
    ensures y == z && i == j
  {
    var n := v.ZoneSize();
    hide Pow2;
    DivModUnique(v.First(y) + i, n, y, i);
    DivModUnique(v.First(z) + j, n, z, j);
  }

  lemma BlockIs(v: Volume, b: nat)
    ensures v.First(v.ZoneOf(b)) + v.Within(b) == b
  {
    hide Pow2;
    assert b == v.ZoneSize() * (b / v.ZoneSize()) + b % v.ZoneSize();
  }

  /** Different blocks of a file that are there are different blocks of the disk. */
  lemma Injective(v: Volume, f: Inode, a: nat, b: nat)
    requires v.FileOk(f) && NotShared(v, f) && v.InFile(f, a) && v.InFile(f, b)
    requires SlotOf(v, f, a).zone != 0 && SlotOf(v, f, b).zone != 0
    requires v.Vir2Abs(f, a) == v.Vir2Abs(f, b)
    ensures a == b
  {
    hide v.ZoneOf, v.Within, v.First, v.Capacity, Slots;
    SlotIs(v, f, v.ZoneOf(a));
    SlotIs(v, f, v.ZoneOf(b));
    OneWay(v, v.Zone(f, v.ZoneOf(a)), v.Within(a), v.Zone(f, v.ZoneOf(b)), v.Within(b));
    BlockIs(v, a);
    BlockIs(v, b);
  }

  /** A hole is reported as 0 just in case an indirect block is missing on the way to it, or the
      block is the first of its zone; otherwise its number within the zone comes out.  A block
      that is there never looks like a hole. */
  lemma HoleReported(v: Volume, f: Inode, b: nat)
    requires v.FileOk(f) && v.InFile(f, b)
    ensures v.Vir2Abs(f, b) == 0 <==> SlotOf(v, f, b).zone == 0 && (SlotOf(v, f, b).cut || v.Within(b) == 0)
    ensures v.Vir2Abs(f, b) >= 0
  {
    hide v.ZoneOf, v.Within, v.First, v.Capacity;
  }

  /** With one block to a zone every hole is reported, and with more there is a file with a hole
      that is reported as block 1 of the disk. */
  lemma HolesReportedIff(v: Volume)
    requires v.Ok()
    ensures v.shift == 0 <==>
            forall f: Inode, b: nat ::
              v.FileOk(f) && v.InFile(f, b) && SlotOf(v, f, b).zone == 0 ==> v.Vir2Abs(f, b) == 0
  {
    if v.shift == 0 {
      forall f: Inode, b: nat | v.FileOk(f) && v.InFile(f, b) && SlotOf(v, f, b).zone == 0
        ensures v.Vir2Abs(f, b) == 0
      {
        HoleReported(v, f, b);
      }
    } else {
      HoleMissed(v);
      var f := Inode(2 * v.blockSize, seq(v.direct + 2, _ => 0));
      assert v.FileOk(f) && v.InFile(f, 1) && SlotOf(v, f, 1).zone == 0 && v.Vir2Abs(f, 1) != 0;
    }
  }

  lemma TwoBlocks(b: nat, size: nat)
    ensures b >= 2 ==> b * size >= 2 * size
  {
    if b >= 2 {
      assert (b - 2) * size >= 0;
    }
  }

  lemma HoleMissed(v: Volume)
    requires v.Ok() && v.shift > 0
    ensures var f := Inode(2 * v.blockSize, seq(v.direct + 2, _ => 0));
            v.FileOk(f) && v.InFile(f, 1) && v.Zone(f, v.ZoneOf(1)) == 0 && v.Vir2Abs(f, 1) == 1
  {
    var f := Inode(2 * v.blockSize, seq(v.direct + 2, _ => 0));
    var n := v.ZoneSize();
    assert n > 1;
    hide Pow2;
    forall b: nat | v.InFile(f, b)
      ensures v.ZoneOf(b) == 0
    {
      TwoBlocks(b, v.blockSize);
      DivModUnique(b, n, 0, b);
    }
    DivModUnique(1, n, 0, 1);
  }
}
