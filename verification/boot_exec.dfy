/** exec_image: the programs of an image, one after the other, into memory. */
module BootExec {
  import opened Arithmetic
  import opened BootBytes
  import opened BootImage
  import opened BootLoader

  /** The kernel flags that matter to loading: K_CLAIM, K_CHMEM and K_HIGH. */
  datatype Flags = Flags(claim: bool, chmem: bool, high: bool)

  datatype Process = Process(cs: int, ds: int, data: int, end: int)

  // The sizes of a program.

  function StackOf(e: Exec): int {
    Total(e) - Data(e) - Bss(e) - if Has(e, A_SEP) then 0 else Text(e)
  }

  /** What a program file in use looks like: nothing is negative or enormous. */
  predicate Sized(e: Exec, f: Flags) {
    && Text(e) >= 0 && Data(e) >= 0 && 0 <= Bss(e) <= PART_MAX && TextLen(e) + Data(e) <= PART_MAX
    && (f.chmem ==> 0 <= StackOf(e) <= PART_MAX)
  }

  /** With K_CLAIM only the first program, the kernel, gets bss and stack. */
  function BssSize(e: Exec, i: nat, f: Flags): int {
    if i > 0 && f.claim then 0 else Bss(e)
  }

  function StackSize(e: Exec, i: nat, f: Flags): int {
    if f.chmem && !(i > 0 && f.claim) then StackOf(e) else 0
  }

  /** The segment that ends with the data, bss and stack: where it is and how long in the image. */
  function DataSegment(e: Exec, addr: nat, click: nat): nat
    requires ClickOk(click)
  {
    if Has(e, A_SEP) then addr + Room(TextLen(e), click) else addr
  }

  function DataSize(e: Exec): int {
    if Has(e, A_SEP) then Data(e) else TextLen(e) + Data(e)
  }

  function DataAddr(e: Exec, addr: nat, click: nat): int
    requires ClickOk(click)
  {
    if Has(e, A_SEP) then DataSegment(e, addr, click) else addr + TextLen(e)
  }

  /** Data, bss and stack are rounded up to a click once. */
  function End(e: Exec, i: nat, f: Flags, addr: nat, click: nat): int
    requires ClickOk(click)
  {
    DataSegment(e, addr, click) + Ceil(DataSize(e) + BssSize(e, i, f) + StackSize(e, i, f), click)
  }

  /** With K_CHMEM a program takes the memory that its header asks for in total, from the start of its
      data if that has a segment of its own; without, it takes what its segments need; and with K_CLAIM
      only the kernel gets more than its text and data. */
  lemma TakesTotal(e: Exec, i: nat, f: Flags, addr: nat, click: nat)
    requires ClickOk(click)
    ensures var all := i == 0 || !f.claim;
            var text := if Has(e, A_SEP) then 0 else Text(e);
            var header := if Has(e, A_PAL) && !Has(e, A_SEP) then HdrLen(e) else 0;
            End(e, i, f, addr, click) == DataSegment(e, addr, click) + Ceil(header +
              (if all && f.chmem then Total(e) else if all then text + Data(e) + Bss(e) else text + Data(e)), click)
  {
    hide Ceil, Long, Has, Room;
  }

  function ProcSectors(e: Exec): nat {
    if Has(e, A_SEP) then Sectors(TextLen(e)) + Sectors(Data(e)) else Sectors(TextLen(e) + Data(e))
  }

  /** How exec_image rounds: each of the three sizes by itself, what the data leaves over of its
      last click going to the bss, and what the bss leaves over going to the stack.  The sums are
      32-bit words, so that rounding a negative number wraps around. */
  lemma ThreeRoundings(data: int, bss: int, stack: int, click: nat)
    requires ClickOk(click)
    ensures var r0 := Ceil(data, click);
            var b := data - r0 + bss;
            var r1 := Align(b, click);
            var s := b - Ceil(b, click) + stack;
            var r2 := Align(s, click);
            && Word(r0 + r1 + r2) == Word(Ceil(data + bss + stack, click))
            && r0 + Ceil(b, click) == Ceil(data + bss, click)
            && Ceil(b, click) + Ceil(s, click) == Ceil(data + bss + stack, click) - r0
            && r1 == Word(Ceil(b, click)) && r2 == Word(Ceil(s, click))
  {
    hide Ceil, Align;
    var r0 := Ceil(data, click);
    var b := data - r0 + bss;
    var s := b - Ceil(b, click) + stack;
    CeilBounds(data, click);
    CeilBounds(b, click);
    CeilAdd(r0, b, click);
    assert Ceil(data + bss, click) == r0 + Ceil(b, click);
    CeilBounds(data + bss, click);
    CeilAdd(r0 + Ceil(b, click), s, click);
    AlignIsCeil(b, click);
    AlignIsCeil(s, click);
    WordSum(r0, Ceil(b, click), Ceil(s, click));
  }

  lemma WordSum(a: int, b: int, c: int)
    ensures Word(a + Word(b) + Word(c)) == Word(a + b + c)
  {
  }

  /** proc_size. */
  function ProcSize(e: Exec): int {
    var len := Word(Text(e));
    var len1 := if Has(e, A_PAL) then Word(len + HdrLen(e)) else len;
    var len2 := if Has(e, A_SEP) then Align(len1, SECTOR_SIZE) else len1;
    Align(Word(len2 + Data(e)), SECTOR_SIZE) / SECTOR_SIZE
  }

  /** Skipping a program moves as far as loading it, for every combination of flags. */
  lemma ProcSizeIsWhatIsRead(e: Exec, f: Flags)
    requires Sized(e, f)
    ensures ProcSize(e) == ProcSectors(e)
  {
    hide Ceil, Align, Long, Has, Word;
    var text := TextLen(e);
    SmallWord(Text(e));
    SmallWord(text);
    AlignSmall(text);
    AlignSmall(text + Data(e));
    CeilBounds(text, SECTOR_SIZE);
    SmallWord(text + Data(e));
    SmallWord(Ceil(text, SECTOR_SIZE) + Data(e));
    if Has(e, A_SEP) {
      AlignSmall(Ceil(text, SECTOR_SIZE) + Data(e));
      CeilAdd(Ceil(text, SECTOR_SIZE), Data(e), SECTOR_SIZE);
      CeilBounds(Data(e), SECTOR_SIZE);
      SectorSum(Ceil(text, SECTOR_SIZE), Ceil(Data(e), SECTOR_SIZE));
    }
  }

  lemma AlignSmall(x: int)
    requires 0 <= x < WORD / 2
    ensures Align(x, SECTOR_SIZE) == Ceil(x, SECTOR_SIZE)
  {
    hide Ceil, Align;
    AlignIsCeil(x, SECTOR_SIZE);
    SmallWord(Ceil(x, SECTOR_SIZE));
  }

  lemma SectorSum(a: int, b: int)
    requires a % SECTOR_SIZE == 0 && b % SECTOR_SIZE == 0
    ensures (a + b) / SECTOR_SIZE == a / SECTOR_SIZE + b / SECTOR_SIZE
  {
  }

  // One program.

  /** What a program becomes in memory, up to its stack. */
  function Contents(l: Loader, e: Exec, i: nat, f: Flags, vsec: nat, click: nat): (b: seq<Byte>)
    requires ClickOk(click) && Sized(e, f)
  {
    var data := DataSize(e);
    var bss := Ceil(data + BssSize(e, i, f), click) - Room(data, click);
    BssRoom(e, i, f, click);
    (if Has(e, A_SEP) then l.Segment(vsec, TextLen(e), click) + l.Segment(vsec + Sectors(TextLen(e)), data, click)
     else l.Segment(vsec, data, click)) + Zeros(bss)
  }

  lemma BssRoom(e: Exec, i: nat, f: Flags, click: nat)
    requires ClickOk(click) && Sized(e, f)
    ensures DataSize(e) >= 0 && Ceil(DataSize(e) + BssSize(e, i, f), click) >= Room(DataSize(e), click) >= 0
  {
    hide Ceil, Long, Has;
    var data := DataSize(e);
    CeilBounds(data + BssSize(e, i, f), click);
    CeilLeast(data, click, Ceil(data + BssSize(e, i, f), click));
  }

  /** What is written in two steps is written. */
  lemma PutTwice(m: seq<Byte>, addr: nat, a: seq<Byte>, b: seq<Byte>)
    requires a != [] ==> addr + |a| <= |m|
    requires b != [] ==> addr + |a| + |b| <= |m|
    ensures Put(Put(m, addr, a), addr + |a|, b) == Put(m, addr, a + b)
  {
    if a == [] {
      assert a + b == b;
    } else if b == [] {
      assert a + b == a;
    } else {
      SpliceTwice(m, addr, a, b);
    }
  }

  /** Is there room for the text and the data, as get_segment sees it? */
  predicate RoomForSegments(e: Exec, addr: nat, limit: nat, click: nat)
    requires ClickOk(click)
  {
    (Has(e, A_SEP) ==> Roomy(addr, TextLen(e), limit, click)) &&
    Roomy(DataSegment(e, addr, click), DataSize(e), limit, click)
  }

  /** Where the bss ends, which is cleared. */
  function ZeroEnd(e: Exec, i: nat, f: Flags, addr: nat, click: nat): int
    requires ClickOk(click)
  {
    DataSegment(e, addr, click) + Ceil(DataSize(e) + BssSize(e, i, f), click)
  }

  /** Is there room for a program?  Its stack is not counted. */
  predicate RoomFor(e: Exec, i: nat, f: Flags, addr: nat, limit: nat, click: nat)
    requires ClickOk(click)
  {
    RoomForSegments(e, addr, limit, click) && ZeroEnd(e, i, f, addr, click) <= limit
  }

  /** A program behind another one, in the same block of memory, leaves room for the stack of that
      one. */
  lemma StackBelowNext(e: Exec, i: nat, f: Flags, addr: nat, limit: nat, click: nat)
    requires ClickOk(click) && Sized(e, f) && RoomFor(e, i, f, addr, limit, click)
    ensures addr <= limit
  {
    hide Ceil, Long, Has, Room, RoomForSegments;
    BssRoom(e, i, f, click);
  }

  /** Nothing checks the stack of the last program. */
  lemma StackPastLimit() returns (e: Exec, f: Flags)
    ensures ClickOk(512) && Sized(e, f) && RoomFor(e, 0, f, 0, 512, 512) && End(e, 0, f, 0, 512) > 512
  {
    hide Ceil;
    f := Flags(false, true, false);
    e := Zeros(25) + [4] + Zeros(22);
    OnlyStack(e, f);
    NothingRounds(512);
    CeilUnique(1024, 512, 1024);
  }

  lemma OnlyStack(e: Exec, f: Flags)
    requires e == Zeros(25) + [4] + Zeros(22) && f.chmem
    ensures !Has(e, A_SEP) && TextLen(e) == Data(e) == Bss(e) == 0 && Text(e) == 0 && StackOf(e) == 1024
  {
  }

  lemma UntouchedTwice(m: seq<Byte>, m1: seq<Byte>, m2: seq<Byte>, addr: nat, addr1: nat, limit: nat)
    requires Untouched(m, m1, addr, limit) && Untouched(m1, m2, addr1, limit) && addr <= addr1
    ensures Untouched(m, m2, addr, limit)
  {
  }

  /** The text and data of a program, and where its fields point. */
  method LoadSegments(l: Loader, e: Exec, f: Flags, vsec: nat, addr: nat, limit: nat, click: nat)
    returns (ok: bool, vsec': nat, addr': nat, left: int, p: Process)
    requires l.Valid() && ClickOk(click) && addr % click == 0 && limit <= l.mem.Length && addr < 0xB000_0000 &&
             Sized(e, f)
    modifies l, l.buf, l.mem
    ensures l.Valid() && Untouched(old(l.mem[..]), l.mem[..], addr, limit)
    ensures ok ==> RoomForSegments(e, addr, limit, click) && l.AllThere(vsec, ProcSectors(e))
    ensures !ok ==>
              || !RoomForSegments(e, addr, limit, click) || !l.AllThere(vsec, ProcSectors(e))
              || l.SomeUnreadable(vsec, ProcSectors(e))
    ensures ok ==>
              && vsec' == vsec + ProcSectors(e)
              && addr' == DataSegment(e, addr, click) + Room(DataSize(e), click)
              && left == DataSize(e) - Room(DataSize(e), click)
              && (addr' > addr ==> addr' <= limit)
              && l.mem[..] == Put(old(l.mem[..]), addr, Bare(l, e, f, vsec, click))
              && p.cs == (if Has(e, A_UZP) then Word(addr - click) else addr)
              && p.ds == (if !Has(e, A_SEP) then p.cs
                          else if Has(e, A_UZP) then Word(DataSegment(e, addr, click) - click)
                            else DataSegment(e, addr, click))
              && p.data == DataAddr(e, addr, click)
  {
    hide Ceil, Long, Has, Room, Sectors, Untouched, Put, l.Segment, l.Valid, Splice, ClickOk, TextLen, Roomy,
      l.SomeUnreadable, l.AllThere;
    var text := TextLen(e);
    p := Process(if Has(e, A_UZP) then Word(addr - click) else addr, 0, 0, 0);
    RoomAligned(text, click, addr);
    SizesFit(e, f);
    if Has(e, A_SEP) {
      ok, vsec', addr', left := SeparateSegments(l, text, Data(e), vsec, addr, limit, click);
      var at := addr + Room(text, click);
      p := p.(ds := if Has(e, A_UZP) then Word(at - click) else at, data := at);
    } else {
      p := p.(data := addr + text, ds := p.cs);
      RoomAligned(text + Data(e), click, addr);
      ok, vsec', left, addr' := l.GetSegment(vsec, text + Data(e), addr, limit, click);
    }
  }

  lemma SizesFit(e: Exec, f: Flags)
    requires Sized(e, f)
    ensures 0 <= TextLen(e) <= PART_MAX && 0 <= Data(e) <= PART_MAX && 0 <= TextLen(e) + Data(e) <= PART_MAX
  {
  }

  /** Separate I&D: the text segment, then the data segment in clicks of its own. */
  method SeparateSegments(l: Loader, text: nat, data: nat, vsec: nat, addr: nat, limit: nat, click: nat)
    returns (ok: bool, vsec': nat, addr': nat, left: int)
    requires l.Valid() && ClickOk(click) && addr % click == 0 && limit <= l.mem.Length && addr < 0xB000_0000
    requires text <= PART_MAX && data <= PART_MAX
    modifies l, l.buf, l.mem
    ensures l.Valid() && Untouched(old(l.mem[..]), l.mem[..], addr, limit)
    ensures ok ==> Roomy(addr, text, limit, click) && Roomy(addr + Room(text, click), data, limit, click)
    ensures ok ==> l.AllThere(vsec, Sectors(text) + Sectors(data))
    ensures !ok ==>
              || !Roomy(addr, text, limit, click) || !Roomy(addr + Room(text, click), data, limit, click)
              || !l.AllThere(vsec, Sectors(text) + Sectors(data))
              || l.SomeUnreadable(vsec, Sectors(text) + Sectors(data))
    ensures ok ==>
              && vsec' == vsec + Sectors(text) + Sectors(data)
              && addr' == addr + Room(text, click) + Room(data, click) && left == data - Room(data, click)
              && (addr' > addr ==> addr' <= limit)
              && l.mem[..] == Put(old(l.mem[..]), addr,
                l.Segment(vsec, text, click) + l.Segment(vsec + Sectors(text), data, click))
  {
    hide Ceil, Room, Sectors, Untouched, Put, l.Segment, l.Valid, Splice, ClickOk, Roomy, l.SomeUnreadable, l.AllThere;
    ghost var m := l.mem[..];
    UnreadableParts(l, vsec, Sectors(text), Sectors(data));
    RoomAligned(text, click, addr);
    RoomAligned(data, click, 0);
    ok, vsec', left, addr' := l.GetSegment(vsec, text, addr, limit, click);
    if ok {
      ghost var m1, at := l.mem[..], addr';
      ok, vsec', left, addr' := l.GetSegment(vsec', data, addr', limit, click);
      UntouchedTwice(m, m1, l.mem[..], addr, at, limit);
      if ok {
        PutTwice(m, addr, l.Segment(vsec, text, click), l.Segment(vsec + Sectors(text), data, click));
      }
    }
  }

  lemma UnreadableParts(l: Loader, vsec: nat, a: nat, b: nat)
    ensures l.SomeUnreadable(vsec, a + b) <==> l.SomeUnreadable(vsec, a) || l.SomeUnreadable(vsec + a, b)
    ensures l.AllThere(vsec, a + b) <==> l.AllThere(vsec, a) && l.AllThere(vsec + a, b)
  {
    hide l.Unreadable, l.There;
  }

  lemma RoomAligned(size: int, click: nat, addr: nat)
    requires ClickOk(click) && addr % click == 0
    ensures click > 0 && (addr + Room(size, click)) % click == 0
    ensures size <= PART_MAX ==> Room(size, click) <= PART_MAX + 0x1_0000
    ensures size > 0 ==> Room(size, click) > 0
    ensures size <= 0 ==> Room(size, click) == 0
  {
    hide Ceil;
    var n := if size > 0 then size else 0;
    CeilBounds(n, click);
    ModAdd(addr, Ceil(n, click), click);
    NothingRounds(click);
  }

  /** Text and data as they are in memory. */
  function Bare(l: Loader, e: Exec, f: Flags, vsec: nat, click: nat): (b: seq<Byte>)
    requires ClickOk(click) && Sized(e, f)
  {
    if Has(e, A_SEP) then l.Segment(vsec, TextLen(e), click) + l.Segment(vsec + Sectors(TextLen(e)), Data(e), click)
    else l.Segment(vsec, TextLen(e) + Data(e), click)
  }

  /** One program is loaded: segments, bss and stack. */
  method LoadProgram(l: Loader, e: Exec, i: nat, f: Flags, vsec: nat, addr: nat, limit: nat, click: nat)
    returns (ok: bool, vsec': nat, addr': nat, p: Process)
    requires l.Valid() && ClickOk(click) && addr % click == 0 && limit <= l.mem.Length && addr < 0xB000_0000 &&
             Sized(e, f)
    modifies l, l.buf, l.mem
    ensures l.Valid() && Untouched(old(l.mem[..]), l.mem[..], addr, limit)
    ensures ok ==> RoomFor(e, i, f, addr, limit, click) && l.AllThere(vsec, ProcSectors(e))
    ensures !ok ==>
              || !RoomFor(e, i, f, addr, limit, click) || !l.AllThere(vsec, ProcSectors(e))
              || l.SomeUnreadable(vsec, ProcSectors(e))
    ensures ok ==>
              && vsec' == vsec + ProcSectors(e)
              && addr' == End(e, i, f, addr, click) && addr' % click == 0
              && addr + |Contents(l, e, i, f, vsec, click)| == ZeroEnd(e, i, f, addr, click) <= limit
              && l.mem[..] == Put(old(l.mem[..]), addr, Contents(l, e, i, f, vsec, click))
              && p.data == DataAddr(e, addr, click) && p.end == addr'
  {
    hide Ceil, Long, Has, Room, Sectors, Untouched, Put, l.Segment, l.Valid, Splice, ClickOk, DataSize, DataSegment,
      Align, Bare, Contents, Sized, ProcSectors, RoomForSegments, l.SomeUnreadable, l.AllThere;
    ghost var m := l.mem[..];
    var left;
    ok, vsec', addr', left, p := LoadSegments(l, e, f, vsec, addr, limit, click);
    if !ok {
      return;
    }
    l.Separate();
    Roundings(e, i, f, addr, click);
    ContentsAre(l, e, i, f, vsec, click, addr);
    var bss := BssSize(e, i, f) + left;
    var n := Align(bss, click);
    bss := bss - n;
    if addr' + n > limit {
      return false, vsec', addr', p;
    }
    ghost var m1, at := l.mem[..], addr';
    if n > 0 {
      l.RawClear(addr', n);
    }
    UntouchedClear(m1, l.mem[..], at, n, limit);
    UntouchedTwice(m, m1, l.mem[..], addr, at, limit);
    ZeroPut(m1, l.mem[..], at, n);
    PutTwice(m, addr, Bare(l, e, f, vsec, click), Zeros(n));
    addr' := addr' + n;
    var stack := StackSize(e, i, f) + bss;
    n := Align(stack, click);
    addr' := addr' + n;
    p := p.(end := addr');
  }

  lemma UntouchedClear(m: seq<Byte>, m': seq<Byte>, at: nat, n: nat, limit: nat)
    requires n == 0 ==> m' == m
    requires n > 0 ==> at + n <= limit <= |m| && m' == Splice(m, at, Zeros(n))
    ensures Untouched(m, m', at, limit)
  {
  }

  lemma ZeroPut(m: seq<Byte>, m': seq<Byte>, at: nat, n: nat)
    requires n == 0 ==> m' == m
    requires n > 0 ==> at + n <= |m| && m' == Splice(m, at, Zeros(n))
    ensures m' == Put(m, at, Zeros(n))
  {
  }

  /** The sizes that exec_image computes for one program. */
  lemma Roundings(e: Exec, i: nat, f: Flags, addr: nat, click: nat)
    requires ClickOk(click) && Sized(e, f) && addr < 0xB000_0000 && addr % click == 0
    ensures var seg, data, bss := DataSegment(e, addr, click), DataSize(e), BssSize(e, i, f);
            var room := Room(data, click);
            var b := bss + (data - room);
            var n := Align(b, click);
            var s := StackSize(e, i, f) + (b - n);
            && 0 <= n == Ceil(data + bss, click) - room && 0 <= seg && 0 <= room
            && seg + room + n == ZeroEnd(e, i, f, addr, click) >= seg + room
            && 0 <= Align(s, click)
            && seg + room + n + Align(s, click) == End(e, i, f, addr, click)
            && End(e, i, f, addr, click) % click == 0
  {
    hide Ceil, Align, Long, Has, Word;
    var seg, data, bss, stack := DataSegment(e, addr, click), DataSize(e), BssSize(e, i, f), StackSize(e, i, f);
    ThreeRoundings(data, bss, stack, click);
    RoomAligned(TextLen(e), click, addr);
    RoomAligned(data, click, 0);
    CeilBounds(data, click);
    CeilBounds(data + bss, click);
    CeilBounds(data + bss + stack, click);
    CeilLeast(data, click, Ceil(data + bss, click));
    CeilLeast(data + bss, click, Ceil(data + bss + stack, click));
    SmallWord(Ceil(data + bss, click) - Ceil(data, click));
    SmallWord(Ceil(data + bss + stack, click) - Ceil(data + bss, click));
    ModAdd(seg, Ceil(data + bss + stack, click), click);
  }

  lemma ContentsAre(l: Loader, e: Exec, i: nat, f: Flags, vsec: nat, click: nat, addr: nat)
    requires ClickOk(click) && Sized(e, f) && addr % click == 0
    ensures var bare, data := Bare(l, e, f, vsec, click), DataSize(e);
            var bss := Ceil(data + BssSize(e, i, f), click) - Room(data, click);
            && bss >= 0 && Contents(l, e, i, f, vsec, click) == bare + Zeros(bss)
            && addr + |bare| == DataSegment(e, addr, click) + Room(data, click)
  {
    hide Ceil, Long, Has, Room, l.Segment;
    BssRoom(e, i, f, click);
  }
}
