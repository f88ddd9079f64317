/** The loader of the boot monitor: sectors come through a track buffer, segments go to memory. */
module BootLoader {
  import opened Options
  import opened Arithmetic
  import opened BootBytes
  import opened BootImage

  const SECBUFS: nat := 16

  const PROCESS_MAX: nat := 16

  /** Memory and programs are small enough for the sums that the loader makes in 32 bits. */
  const MEMORY_MAX: nat := 0x7FF0_0000
  const PART_MAX: nat := 0x0400_0000

  type Sector = s: seq<Byte> | |s| == SECTOR_SIZE witness Zeros(SECTOR_SIZE)

  predicate ClickOk(click: nat) {
    0 < click <= 0x1_0000 && 0x1_0000 % click == 0 && WORD % click == 0 &&
      (click % SECTOR_SIZE == 0 || SECTOR_SIZE % click == 0)
  }

  /** The unsigned test for being in the buffer. */
  lemma InBuffer(d: int)
    requires -WORD + SECBUFS < d < WORD && Word(d) < SECBUFS
    ensures 0 <= d == Word(d)
  {
  }

  /** How much get_segment copies at a time. */
  function Unit(click: nat): nat {
    if click < SECTOR_SIZE then click else SECTOR_SIZE
  }

  lemma UnitOk(click: nat)
    requires ClickOk(click)
    ensures 0 < Unit(click) <= click && Unit(click) <= SECTOR_SIZE
    ensures SECTOR_SIZE % Unit(click) == 0 && click % Unit(click) == 0
  {
    DivModUnique(click, click, 1, 0);
  }

  lemma SegmentFits(n: nat, click: nat)
    requires ClickOk(click)
    ensures n <= Ceil(n, Unit(click)) <= Ceil(n, click)
  {
    hide Ceil, ClickOk, Unit;
    var u := Unit(click);
    UnitOk(click);
    CeilBounds(n, u);
    CeilBounds(n, click);
    MultipleOf(Ceil(n, click), click, u);
    CeilLeast(n, u, Ceil(n, click));
  }

  /** `done` bytes were copied, and `cnt` bytes of the last sector read are left. */
  ghost predicate Midway(done: nat, cnt: nat, u: nat)
    requires u > 0
  {
    done % u == 0 && cnt % u == 0 && cnt < SECTOR_SIZE && (done + cnt) % SECTOR_SIZE == 0
  }

  /** The sectors that were read for that. */
  function SectorsRead(done: nat, cnt: nat): nat {
    (done + cnt) / SECTOR_SIZE
  }

  /** One copy: a unit, out of a fresh sector if nothing was left. */
  lemma UnitStep(click: nat, done: nat, cnt: nat)
    requires ClickOk(click) && 0 < Unit(click) && Midway(done, cnt, Unit(click))
    ensures var u := Unit(click);
            var c := if cnt == 0 then SECTOR_SIZE else cnt;
            && u == (if click > c then c else click)
            && c <= SECTOR_SIZE && (done + c) % SECTOR_SIZE == 0
            && SectorsRead(done, c) == SectorsRead(done, cnt) + (if cnt == 0 then 1 else 0)
            && 0 <= c - u && Midway(done + u, c - u, u) && SectorsRead(done + u, c - u) == SectorsRead(done, c)
  {
    var u := Unit(click);
    var c := if cnt == 0 then SECTOR_SIZE else cnt;
    UnitOk(click);
    Apart(0, c, u);
    DivModUnique(u, u, 1, 0);
    ModAdd(done, u, u);
    ModSub(c, u, u);
  }

  lemma Finished(size: nat, done: nat, cnt: nat, click: nat)
    requires ClickOk(click) && 0 < Unit(click) && Midway(done, cnt, Unit(click))
    requires size > 0 && size <= done < size + Unit(click)
    ensures done == Ceil(size, Unit(click)) && SectorsRead(done, cnt) == Ceil(size, SECTOR_SIZE) / SECTOR_SIZE
    ensures Ceil(size, click) <= done - Unit(click) + click
  {
    hide Ceil;
    var u := Unit(click);
    UnitOk(click);
    CeilUnique(size, u, done);
    Apart(cnt, SECTOR_SIZE, u);
    CeilUnique(size, SECTOR_SIZE, done + cnt);
    var q := Ceil(size, click);
    CeilBounds(size, click);
    DivModUnique(click, click, 1, 0);
    ModSub(q, click, click);
    MultipleOf(q - click, click, u);
    Apart(q - click, done, u);
  }

  /** Only memory from `addr` up to `limit` may have changed. */
  ghost predicate Untouched(m: seq<Byte>, m': seq<Byte>, addr: nat, limit: nat) {
    |m'| == |m| && forall k :: 0 <= k < |m| && (k < addr || k >= limit) ==> m'[k] == m[k]
  }

  /** `b` written at `addr`.  Writing nothing needs no room; what does not fit is not written. */
  function Put(m: seq<Byte>, addr: nat, b: seq<Byte>): (r: seq<Byte>)
    ensures |r| == |m|
  {
    if b == [] || addr + |b| > |m| then m else Splice(m, addr, b)
  }

  lemma NothingRounds(click: nat)
    requires ClickOk(click)
    ensures Ceil(0, click) == 0 && Unit(click) > 0 && Ceil(0, Unit(click)) == 0
  {
    hide Ceil, Unit;
    UnitOk(click);
    CeilUnique(0, click, 0);
    CeilUnique(0, Unit(click), 0);
  }

  /** The room that a segment takes in memory, and the sectors it takes in the image. */
  function Room(size: int, click: nat): nat
    requires ClickOk(click)
  {
    Ceil(if size > 0 then size else 0, click)
  }

  /** What is copied of it: whole units. */
  function Copy(size: int, click: nat): nat
    requires ClickOk(click)
  {
    UnitOk(click);
    Ceil(if size > 0 then size else 0, Unit(click))
  }

  function Sectors(size: int): nat {
    Ceil(if size > 0 then size else 0, SECTOR_SIZE) / SECTOR_SIZE
  }

  /** get_segment wants room for a whole click before each unit it copies.  With clicks that are
      larger than a sector that is more than the segment takes. */
  predicate Roomy(addr: nat, size: int, limit: nat, click: nat)
    requires ClickOk(click)
  {
    UnitOk(click);
    size > 0 ==> addr + Ceil(size, Unit(click)) - Unit(click) + click <= limit
  }

  /** A segment that would fit, in the last click of memory, and is turned down. */
  lemma RoomierThanNeeded()
    ensures ClickOk(1024) && Room(600, 1024) <= 1024 && !Roomy(0, 600, 1024, 1024)
  {
  }

  lemma NoRoom(addr: nat, size: int, limit: nat, click: nat, done: nat)
    requires ClickOk(click) && Unit(click) > 0 && size > 0 && done % Unit(click) == 0 && done < size &&
             addr + done + click > limit
    ensures !Roomy(addr, size, limit, click)
  {
    hide Ceil;
    CeilBounds(size, Unit(click));
    Apart(done, Ceil(size, Unit(click)), Unit(click));
  }

  // How far the loop of get_segment is.

  /** `done` bytes were copied and `cnt` bytes of a sector are left; there was room for them. */
  ghost predicate Going(size: int, addr: nat, limit: nat, click: nat, done: nat, cnt: nat)
    requires ClickOk(click)
  {
    var u := Unit(click);
    && 0 < u <= SECTOR_SIZE && Midway(done, cnt, u) && (size <= 0 ==> done == 0 && cnt == 0)
    && (done > 0 ==> addr + done - u + click <= limit && done - u < size)
  }

  lemma AtStart(size: int, addr: nat, limit: nat, click: nat)
    requires ClickOk(click)
    ensures Going(size, addr, limit, click, 0, 0) && SectorsRead(0, 0) == 0
  {
    UnitOk(click);
  }

  /** A sector that is read is one of those that the segment takes. */
  lemma InSegment(size: int, addr: nat, limit: nat, click: nat, done: nat)
    requires ClickOk(click) && Going(size, addr, limit, click, done, 0) && done < size
    ensures SectorsRead(done, 0) < Sectors(size)
  {
    hide Ceil, ClickOk, Unit;
    CeilBounds(size, SECTOR_SIZE);
  }

  lemma OneUnit(size: int, addr: nat, limit: nat, click: nat, done: nat, cnt: nat)
    requires ClickOk(click) && Going(size, addr, limit, click, done, cnt) && done < size
    ensures var u := Unit(click);
            var c := if cnt == 0 then SECTOR_SIZE else cnt;
            && 0 < u == (if click > c then c else click) <= c <= SECTOR_SIZE && (done + c) % SECTOR_SIZE == 0
            && SectorsRead(done, c) == SectorsRead(done, cnt) + (if cnt == 0 then 1 else 0) > 0
            && SectorsRead(done + u, c - u) == SectorsRead(done, c)
            && (addr + done + click <= limit ==> Going(size, addr, limit, click, done + u, c - u))
            && (addr + done + click > limit ==> !Roomy(addr, size, limit, click))
  {
    hide ClickOk, Midway, Unit, Roomy, SectorsRead;
    UnitStep(click, done, cnt);
    SomeRead(done, if cnt == 0 then SECTOR_SIZE else cnt);
    if addr + done + click > limit {
      WholeUnits(done, cnt, Unit(click));
      NoRoom(addr, size, limit, click, done);
    }
  }

  lemma SomeRead(done: nat, cnt: nat)
    requires (done + cnt) % SECTOR_SIZE == 0 && cnt > 0
    ensures SectorsRead(done, cnt) > 0
  {
  }

  lemma WholeUnits(done: nat, cnt: nat, u: nat)
    requires u > 0 && Midway(done, cnt, u)
    ensures done % u == 0
  {
  }

  lemma AtEnd(size: int, addr: nat, limit: nat, click: nat, done: nat, cnt: nat)
    requires ClickOk(click) && Going(size, addr, limit, click, done, cnt) && done >= size
    ensures SectorsRead(done, cnt) == Sectors(size) && Roomy(addr, size, limit, click)
    ensures done == Ceil(if size > 0 then size else 0, Unit(click))
    ensures size > 0 ==> addr + Room(size, click) <= limit
  {
    hide Ceil, ClickOk, Midway, Unit;
    UnitOk(click);
    NothingRounds(click);
    if size > 0 {
      Finished(size, done, cnt, click);
    } else {
      CeilUnique(0, SECTOR_SIZE, 0);
    }
  }

  // What get_segment clears after copying.

  lemma ZeroExtension(addr: nat, size: int, limit: nat, click: nat)
    requires ClickOk(click) && addr % click == 0 && addr < 0xC000_0000
    requires size > 0 ==> addr + Room(size, click) <= limit <= MEMORY_MAX
    ensures var done := Copy(size, click);
            0 <= done <= Room(size, click) && Align(addr + done, click) == addr + Room(size, click)
  {
    hide Ceil, Align, Unit, ClickOk;
    var n := if size > 0 then size else 0;
    UnitOk(click);
    SegmentFits(n, click);
    NothingRounds(click);
    RoundedUp(addr, Ceil(n, Unit(click)), click, Ceil(n, click)) by {
      CeilBounds(n, click);
    }
  }

  lemma RoundedUp(addr: nat, done: nat, click: nat, all: nat)
    requires ClickOk(click) && addr % click == 0 && all % click == 0 && done <= all < done + click
    requires addr + all < WORD
    ensures Align(addr + done, click) == addr + all
  {
    hide Ceil, Align, Word, ClickOk;
    ClickDivides(click);
    CeilUnique(done, click, all);
    CeilAdd(addr, done, click);
    AlignIsCeil(addr + done, click);
    SmallWord(addr + all);
  }

  lemma ClickDivides(click: nat)
    requires ClickOk(click)
    ensures click > 0 && WORD % click == 0
  {
  }

  lemma SliceParts(s: seq<Byte>, from: nat, n: nat, cnt: nat)
    requires n <= cnt && from + cnt <= |s|
    ensures s[from..from + cnt][..n] == s[from..from + n] && s[from..from + cnt][n..] == s[from + n..from + cnt]
  {
  }

  class Loader {
    /** The disk; where the sectors of the image are on it, 0 for a hole; where its tracks end;
        and which reads fail. */
    const disk: nat -> Sector
    const vir2sec: nat -> Option<nat>
    const boundary: nat -> bool
    const fails: (nat, nat) -> bool

    /** The track buffer of get_sector. */
    const buf: array<Byte>
    var count: nat
    var bufsec: nat

    const mem: array<Byte>

    constructor (disk: nat -> Sector, vir2sec: nat -> Option<nat>, boundary: nat -> bool, fails: (nat, nat) -> bool,
            mem: array<Byte>)
      requires mem.Length <= MEMORY_MAX
      requires forall v :: vir2sec(v).Some? ==> vir2sec(v).value + SECBUFS < WORD
      ensures Valid() && this.disk == disk && this.vir2sec == vir2sec && this.mem == mem && fresh(buf)
    {
      this.disk, this.vir2sec, this.boundary, this.fails, this.mem := disk, vir2sec, boundary, fails, mem;
      buf := new Byte[SECBUFS * SECTOR_SIZE];
      count, bufsec := 0, 0;
    }

    /** The buffer holds the sectors bufsec, bufsec + 1, ... of the disk. */
    ghost predicate Valid()
      reads this, buf
    {
      && buf != mem && buf.Length == SECBUFS * SECTOR_SIZE && mem.Length <= MEMORY_MAX
      && count <= SECBUFS && bufsec + SECBUFS < WORD
      && (forall v :: vir2sec(v).Some? ==> vir2sec(v).value + SECBUFS < WORD)
      && forall j :: 0 <= j < count ==> buf[j * SECTOR_SIZE..(j + 1) * SECTOR_SIZE] == disk(bufsec + j)
    }

    /** What sector `vsec` of the image holds. */
    function SectorOf(vsec: nat): Sector {
      var sec := vir2sec(vsec);
      if sec == None || sec.value == 0 then Zeros(SECTOR_SIZE) else disk(sec.value)
    }

    /** There is a sector `vsec`: it is not in a block past the end of the file. */
    predicate There(vsec: nat) {
      vir2sec(vsec).Some?
    }

    predicate AllThere(vsec: nat, n: nat) {
      forall v :: vsec <= v < vsec + n ==> There(v)
    }

    /** The disk cannot be read there. */
    ghost predicate Unreadable(vsec: nat) {
      var sec := vir2sec(vsec);
      sec.Some? && sec.value != 0 && exists n :: 0 < n <= SECBUFS && fails(sec.value, n)
    }

    /** One of the `n` sectors from `vsec` on. */
    ghost predicate SomeUnreadable(vsec: nat, n: nat) {
      exists v :: vsec <= v < vsec + n && Unreadable(v)
    }

    /** `n` bytes of the image from the start of sector `vsec` on. */
    function Bytes(vsec: nat, n: nat): (b: seq<Byte>)
      ensures |b| == n
    {
      seq(n, k requires 0 <= k < n => SectorOf(vsec + k / SECTOR_SIZE)[k % SECTOR_SIZE])
    }

    /** Whatever was asked before, the bytes at the result are those of the sector. */
    method GetSector(vsec: nat) returns (at: Option<nat>)
      requires Valid()
      modifies this, buf
      ensures Valid()
      ensures at.Some? ==>
                && There(vsec) && at.value + SECTOR_SIZE <= buf.Length
                && buf[at.value..at.value + SECTOR_SIZE] == SectorOf(vsec)
      ensures at == None ==> !There(vsec) || Unreadable(vsec)
    {
      if vsec == 0 {
        count := 0;
      }
      var sec := vir2sec(vsec);
      if sec == None {
        return None;
      }
      if sec.value == 0 {
        count := 0;
        Fill(0, Zeros(SECTOR_SIZE));
        return Some(0);
      }
      if Word(sec.value - bufsec) < count {
        InBuffer(sec.value - bufsec);
        ghost var j := sec.value - bufsec;
        assert buf[j * SECTOR_SIZE..(j + 1) * SECTOR_SIZE] == disk(bufsec + j);
        return Some((sec.value - bufsec) * SECTOR_SIZE);
      }
      bufsec := sec.value;
      count := 1;
      var v := vsec;
      while count < SECBUFS && !boundary(bufsec + count)
        invariant 1 <= count <= SECBUFS && bufsec == sec.value
        modifies this`count
      {
        v := v + 1;
        var next := vir2sec(v);
        if next == None || next.value != bufsec + count {
          break;
        }
        count := count + 1;
      }
      if fails(bufsec, count) {
        count := 0;
        return None;
      }
      ReadSectors(count);
      assert buf[0 * SECTOR_SIZE..(0 + 1) * SECTOR_SIZE] == disk(bufsec + 0);
      at := Some(0);
    }

    method Fill(at: nat, b: seq<Byte>)
      requires at + |b| <= buf.Length
      modifies buf
      ensures buf[at..at + |b|] == b
      ensures forall k :: 0 <= k < at || at + |b| <= k < buf.Length ==> buf[k] == old(buf[k])
    {
      forall k | 0 <= k < |b| {
        buf[at + k] := b[k];
      }
    }

    method ReadSectors(n: nat)
      requires buf.Length == SECBUFS * SECTOR_SIZE && n <= SECBUFS
      modifies buf
      ensures forall j :: 0 <= j < n ==> buf[j * SECTOR_SIZE..(j + 1) * SECTOR_SIZE] == disk(bufsec + j)
    {
      var i := 0;
      while i < n
        invariant i <= n
        invariant forall j :: 0 <= j < i ==> buf[j * SECTOR_SIZE..(j + 1) * SECTOR_SIZE] == disk(bufsec + j)
      {
        label Before:
        Fill(i * SECTOR_SIZE, disk(bufsec + i));
        forall j | 0 <= j < i
          ensures buf[j * SECTOR_SIZE..(j + 1) * SECTOR_SIZE] == disk(bufsec + j)
        {
          assert buf[j * SECTOR_SIZE..(j + 1) * SECTOR_SIZE] == old@Before(buf[j * SECTOR_SIZE..(j + 1) * SECTOR_SIZE]);
        }
        i := i + 1;
      }
    }

    // Memory.

    method RawCopy(addr: nat, b: seq<Byte>)
      requires addr + |b| <= mem.Length
      modifies mem
      ensures mem[..] == Splice(old(mem[..]), addr, b)
    {
      forall k | 0 <= k < |b| {
        mem[addr + k] := b[k];
      }
    }

    method CopyWithin(to: nat, from: nat, n: nat)
      requires to + n <= mem.Length && from + n <= mem.Length
      modifies mem
      ensures mem[..] == Splice(old(mem[..]), to, old(mem[..])[from..from + n])
    {
      hide Splice;
      assert mem[from..from + n] == mem[..][from..from + n];
      RawCopy(to, mem[from..from + n]);
    }

    /** Clearing by doubling: what is clear already is copied behind itself. */
    method RawClear(addr: nat, count: nat)
      requires addr + count <= mem.Length
      modifies mem
      ensures mem[..] == Splice(old(mem[..]), addr, Zeros(count))
    {
      hide Splice, Cleared;
      ghost var m := mem[..];
      var zct := if 128 > count then count else 128;
      RawCopy(addr, Zeros(zct));
      var left := count - zct;
      IsCleared(m, mem[..], addr, zct);
      while left > 0
        invariant 0 <= left <= count && (left > 0 ==> 0 < zct == count - left)
        invariant Cleared(m, mem[..], addr, count - left)
      {
        var dst := addr + zct;
        ghost var clear, m1 := zct, mem[..];
        if zct > left {
          zct := left;
        }
        CopyWithin(dst, addr, zct);
        MoreCleared(m, m1, mem[..], addr, clear, zct);
        left := left - zct;
        zct := zct * 2;
      }
      IsCleared(m, mem[..], addr, count);
    }

    /** What a segment of `size` bytes at sector `vsec` becomes in memory: it is copied in units
        of a click, or of a sector if that is smaller, and zero extended to a click. */
    function Segment(vsec: nat, size: int, click: nat): (b: seq<Byte>)
      requires ClickOk(click)
      ensures |b| == Room(size, click)
    {
      var n := if size > 0 then size else 0;
      UnitOk(click);
      SegmentFits(n, click);
      Bytes(vsec, Ceil(n, Unit(click))) + Zeros(Ceil(n, click) - Ceil(n, Unit(click)))
    }

    lemma Separate()
      requires Valid()
      ensures buf != mem && mem.Length <= MEMORY_MAX
    {
    }

    /** The last `cnt` bytes of the sector before `vsec` are in the buffer, at `from`. */
    ghost predicate Held(from: nat, cnt: nat, vsec: nat)
      reads buf
    {
      cnt > 0 ==>
        && vsec > 0 && cnt <= SECTOR_SIZE && from + cnt <= buf.Length
        && buf[from..from + cnt] == SectorOf(vsec - 1)[SECTOR_SIZE - cnt..]
    }

    lemma Fresh(from: nat, vsec: nat)
      requires from + SECTOR_SIZE <= buf.Length && buf[from..from + SECTOR_SIZE] == SectorOf(vsec)
      ensures Held(from, SECTOR_SIZE, vsec + 1)
    {
      hide SectorOf;
      assert SectorOf(vsec)[0..] == SectorOf(vsec);
    }

    /** The loop of get_segment.  It stops at a sector that cannot be read and where there is no
        room. */
    method CopySectors(vsec: nat, size: int, addr: nat, limit: nat, click: nat)
      returns (ok: bool, vsec': nat, size': int, addr': nat)
      requires Valid() && ClickOk(click) && limit <= mem.Length
      modifies this, buf, mem
      ensures Valid() && Untouched(old(mem[..]), mem[..], addr, limit)
      ensures ok ==> Roomy(addr, size, limit, click) && (size > 0 ==> addr + Room(size, click) <= limit)
      ensures ok ==> AllThere(vsec, Sectors(size))
      ensures !ok ==>
                && size > 0
                && (!Roomy(addr, size, limit, click) || !AllThere(vsec, Sectors(size)) ||
                    SomeUnreadable(vsec, Sectors(size)))
      ensures ok ==> vsec' == vsec + Sectors(size)
      ensures ok ==> size' == size - Copy(size, click) && addr' == addr + Copy(size, click)
      ensures ok ==> Copied(old(mem[..]), mem[..], addr, limit, vsec, Copy(size, click))
    {
      hide Splice, Ceil, Bytes, SectorOf, ClickOk, Unit, Midway, SectorsRead, Valid, Copied, Untouched, Unreadable,
        SomeUnreadable, Roomy, Going, Sectors, Held, Room, There, AllThere;
      Separate();
      NothingCopied(mem[..], addr, limit, vsec);
      ghost var m := mem[..];
      ghost var done: nat := 0;
      vsec', size', addr' := vsec, size, addr;
      var cnt: nat := 0;
      var from: nat := 0;
      AtStart(size, addr, limit, click);
      NothingHeld(vsec);
      NoneThere(vsec);
      while size' > 0
        invariant Valid() && addr' == addr + done && size' == size - done && Going(size, addr, limit, click, done, cnt)
        invariant vsec' == vsec + SectorsRead(done, cnt) && Held(from, cnt, vsec')
        invariant AllThere(vsec, SectorsRead(done, cnt))
        invariant Copied(m, mem[..], addr, limit, vsec, done)
        decreases size'
      {
        OneUnit(size, addr, limit, click, done, cnt);
        if cnt == 0 {
          InSegment(size, addr, limit, click, done);
          var at := GetSector(vsec');
          if at == None {
            Somewhere(vsec, vsec', Sectors(size));
            Outside(m, mem[..], addr, limit, vsec, done);
            return false, vsec', size', addr';
          }
          from := at.value;
          Fresh(from, vsec');
          OneMoreThere(vsec, SectorsRead(done, 0));
          vsec' := vsec' + 1;
          cnt := SECTOR_SIZE;
        }
        if addr' + click > limit {
          Outside(m, mem[..], addr, limit, vsec, done);
          return false, vsec', size', addr';
        }
        var n := if click > cnt then cnt else click;
        CopyUnit(from, n, addr', m, addr, limit, vsec, done, cnt);
        addr' := addr' + n;
        size' := size' - n;
        from := from + n;
        cnt := cnt - n;
        done := done + n;
      }
      Outside(m, mem[..], addr, limit, vsec, done);
      AtEnd(size, addr, limit, click, done, cnt);
      ok := true;
    }

    lemma NothingHeld(vsec: nat)
      ensures Held(0, 0, vsec)
    {
    }

    /** One copy to memory, after which less is left of the sector in the buffer. */
    method CopyUnit(from: nat, n: nat, to: nat, ghost m: seq<Byte>, ghost addr: nat, ghost limit: nat, ghost vsec: nat,
            ghost done: nat, ghost cnt: nat)
      requires Valid() && 0 < n <= cnt <= SECTOR_SIZE && limit <= mem.Length
      requires (done + cnt) % SECTOR_SIZE == 0 && to == addr + done && to + n <= limit
      requires SectorsRead(done, cnt) > 0 && Held(from, cnt, vsec + SectorsRead(done, cnt))
      requires Copied(m, mem[..], addr, limit, vsec, done)
      modifies mem
      ensures Valid() && Copied(m, mem[..], addr, limit, vsec, done + n)
      ensures Held(from + n, cnt - n, vsec + SectorsRead(done, cnt))
    {
      hide Splice, Bytes, SectorOf;
      NextBytes(m, addr, vsec, done, cnt, n);
      SliceParts(buf[..], from, n, cnt);
      RawCopy(to, buf[from..from + n]);
    }

    lemma Somewhere(vsec: nat, v: nat, n: nat)
      requires vsec <= v < vsec + n && (!There(v) || Unreadable(v))
      ensures !AllThere(vsec, n) || SomeUnreadable(vsec, n)
    {
    }

    lemma NoneThere(vsec: nat)
      ensures AllThere(vsec, 0)
    {
    }

    lemma OneMoreThere(vsec: nat, n: nat)
      requires AllThere(vsec, n) && There(vsec + n)
      ensures AllThere(vsec, n + 1)
    {
    }

    lemma NothingCopied(m: seq<Byte>, addr: nat, limit: nat, vsec: nat)
      ensures Copied(m, m, addr, limit, vsec, 0)
    {
    }

    lemma Outside(m: seq<Byte>, m': seq<Byte>, addr: nat, limit: nat, vsec: nat, done: nat)
      requires Copied(m, m', addr, limit, vsec, done)
      ensures Untouched(m, m', addr, limit)
    {
    }

    /** The first `done` bytes from sector `vsec` on were copied to `addr`. */
    ghost predicate Copied(m: seq<Byte>, m': seq<Byte>, addr: nat, limit: nat, vsec: nat, done: nat) {
      if done == 0 then m' == m
      else addr + done <= limit <= |m| && m' == Splice(m, addr, Bytes(vsec, done))
    }

    /** A segment of which no sector is unreadable is loaded if and only if all are there and there
        is room. */
    method GetSegment(vsec: nat, size: int, addr: nat, limit: nat, click: nat)
      returns (ok: bool, vsec': nat, size': int, addr': nat)
      requires Valid() && ClickOk(click) && addr % click == 0 && limit <= mem.Length && addr < 0xC000_0000
      modifies this, buf, mem
      ensures Valid() && Untouched(old(mem[..]), mem[..], addr, limit)
      ensures ok ==> vsec' == vsec + Sectors(size)
      ensures ok ==> size' == size - Room(size, click) && addr' == addr + Room(size, click)
      ensures ok ==> Roomy(addr, size, limit, click) && (size > 0 ==> addr' <= limit)
      ensures ok ==> AllThere(vsec, Sectors(size))
      ensures !ok ==>
                && size > 0
                && (!Roomy(addr, size, limit, click) || !AllThere(vsec, Sectors(size)) ||
                    SomeUnreadable(vsec, Sectors(size)))
      ensures ok ==> mem[..] == Put(old(mem[..]), addr, Segment(vsec, size, click))
    {
      hide Splice, Bytes, ClickOk, Valid, Untouched, Align, Segment, Put, Copied, Roomy, SomeUnreadable, Sectors, Room,
        Copy, AllThere;
      Separate();
      UnitOk(click);
      ghost var m := mem[..];
      ok, vsec', size', addr' := CopySectors(vsec, size, addr, limit, click);
      if ok {
        ZeroExtension(addr, size, limit, click);
        var n := Align(addr', click) - addr';
        EmptyRoom(size, click);
        ghost var m1 := mem[..];
        if n > 0 {
          RawClear(addr', n);
        }
        Extended(m, m1, mem[..], vsec, size, addr, limit, click);
        addr' := addr' + n;
        size' := size' - n;
      }
    }

    /** What was copied, zero extended, is the segment. */
    lemma Extended(m: seq<Byte>, m1: seq<Byte>, m2: seq<Byte>, vsec: nat, size: int, addr: nat, limit: nat, click: nat)
      requires ClickOk(click) && Copied(m, m1, addr, limit, vsec, Copy(size, click)) && limit <= |m|
      requires Copy(size, click) <= Room(size, click) && (size > 0 ==> addr + Room(size, click) <= limit)
      requires size <= 0 ==> Copy(size, click) == Room(size, click) == 0
      requires var done, n := Copy(size, click), Room(size, click) - Copy(size, click);
               m2 == if n > 0 then Splice(m1, addr + done, Zeros(n)) else m1
      ensures Untouched(m, m2, addr, limit) && m2 == Put(m, addr, Segment(vsec, size, click))
    {
      hide Bytes, Splice, ClickOk, Untouched, Put, Copied, Room, Copy;
      var done, n := Copy(size, click), Room(size, click) - Copy(size, click);
      SegmentIs(vsec, size, click);
      CopiedPut(m, m1, addr, limit, vsec, done);
      PutZeros(m, m1, m2, addr, limit, Bytes(vsec, done), n);
    }

    lemma CopiedPut(m: seq<Byte>, m1: seq<Byte>, addr: nat, limit: nat, vsec: nat, done: nat)
      requires Copied(m, m1, addr, limit, vsec, done)
      ensures m1 == Put(m, addr, Bytes(vsec, done)) && (done > 0 ==> addr + done <= limit)
    {
      hide Bytes, Splice;
    }

    lemma SegmentIs(vsec: nat, size: int, click: nat)
      requires ClickOk(click) && Copy(size, click) <= Room(size, click)
      ensures var done := Copy(size, click);
              Segment(vsec, size, click) == Bytes(vsec, done) + Zeros(Room(size, click) - done)
    {
      hide Bytes, Ceil, Unit;
    }

    /** The next `n` bytes of the image, out of the `cnt` that are left of a sector. */
    lemma NextBytes(m: seq<Byte>, addr: nat, vsec: nat, done: nat, cnt: nat, n: nat)
      requires 0 < n <= cnt <= SECTOR_SIZE && (done + cnt) % SECTOR_SIZE == 0 && addr + done + n <= |m|
      ensures var next := SectorOf(vsec + (done + cnt) / SECTOR_SIZE - 1)[SECTOR_SIZE - cnt..][..n];
              && (done == 0 ==> Splice(m, addr, next) == Splice(m, addr, Bytes(vsec, n)))
              && (done > 0 ==>
                Splice(Splice(m, addr, Bytes(vsec, done)), addr + done, next)
                == Splice(m, addr, Bytes(vsec, done + n)))
    {
      hide Splice, SectorOf, Bytes;
      var next := SectorOf(vsec + (done + cnt) / SECTOR_SIZE - 1)[SECTOR_SIZE - cnt..][..n];
      OneSectorMore(vsec, done, cnt, n);
      if done == 0 {
        assert Bytes(vsec, 0) + next == next;
      } else {
        SpliceTwice(m, addr, Bytes(vsec, done), next);
      }
    }

    lemma OneSectorMore(vsec: nat, done: nat, cnt: nat, n: nat)
      requires 0 < n <= cnt <= SECTOR_SIZE && (done + cnt) % SECTOR_SIZE == 0
      ensures Bytes(vsec, done + n) ==
              Bytes(vsec, done) + SectorOf(vsec + (done + cnt) / SECTOR_SIZE - 1)[SECTOR_SIZE - cnt..][..n]
    {
      hide SectorOf;
      var v := (done + cnt) / SECTOR_SIZE - 1;
      var next := SectorOf(vsec + v)[SECTOR_SIZE - cnt..][..n];
      forall k | 0 <= k < n
        ensures Bytes(vsec, done + n)[done + k] == next[k]
      {
        Within(done, cnt, v, k);
      }
    }

    lemma Within(done: nat, cnt: nat, v: nat, k: nat)
      requires k < cnt <= SECTOR_SIZE && done + cnt == SECTOR_SIZE * (v + 1)
      ensures (done + k) / SECTOR_SIZE == v && (done + k) % SECTOR_SIZE == SECTOR_SIZE - cnt + k
    {
    }
  }

  lemma EmptyRoom(size: int, click: nat)
    requires ClickOk(click)
    ensures size <= 0 ==> Copy(size, click) == Room(size, click) == 0
  {
    hide Ceil, Unit;
    NothingRounds(click);
  }

  lemma PutZeros(m: seq<Byte>, m1: seq<Byte>, m2: seq<Byte>, addr: nat, limit: nat, b: seq<Byte>, n: nat)
    requires m1 == Put(m, addr, b) && limit <= |m| && (|b| + n > 0 ==> addr + |b| + n <= limit)
    requires m2 == if n > 0 then Splice(m1, addr + |b|, Zeros(n)) else m1
    ensures m2 == Put(m, addr, b + Zeros(n)) && Untouched(m, m2, addr, limit)
  {
    hide Splice;
    if n == 0 {
      assert b + Zeros(n) == b;
    } else if b == [] {
      assert b + Zeros(n) == Zeros(n);
    } else {
      SpliceTwice(m, addr, b, Zeros(n));
    }
  }

  ghost predicate Cleared(m: seq<Byte>, m': seq<Byte>, addr: nat, n: nat) {
    addr + n <= |m| && m' == Splice(m, addr, Zeros(n))
  }

  lemma IsCleared(m: seq<Byte>, m': seq<Byte>, addr: nat, n: nat)
    requires addr + n <= |m|
    ensures Cleared(m, m', addr, n) <==> m' == Splice(m, addr, Zeros(n))
  {
  }

  lemma MoreCleared(m: seq<Byte>, m1: seq<Byte>, m2: seq<Byte>, addr: nat, clear: nat, n: nat)
    requires Cleared(m, m1, addr, clear) && n <= clear && addr + clear + n <= |m|
    requires m2 == Splice(m1, addr + clear, m1[addr..addr + n])
    ensures Cleared(m, m2, addr, clear + n)
  {
    assert m1[addr..addr + n] == m1[addr..addr + clear][..n] == Zeros(n);
    SpliceTwice(m, addr, Zeros(clear), Zeros(n));
    assert Zeros(clear) + Zeros(n) == Zeros(clear + n);
  }
}
