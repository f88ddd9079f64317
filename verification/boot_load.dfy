/** The loop of exec_image: the programs of a plan, one behind the other, into memory. */
module BootLoad {
  import opened Options
  import opened Arithmetic
  import opened BootBytes
  import opened BootImage
  import opened BootLoader
  import opened BootExec
  import opened BootPlan

  const HEADERS: nat := PROCESS_MAX * A_MINHDR

  /** Memory: the first block without the area for the headers, which is at `aout`, and the second. */
  datatype Blocks = Blocks(base0: nat, aout: nat, base1: nat, limit1: nat)

  predicate BlocksOk(b: Blocks) {
    b.base0 <= b.aout && b.aout + HEADERS <= b.base1 <= b.limit1 <= MEMORY_MAX && b.base1 % 0x1_0000 == 0
  }

  // Where the programs end up.

  /** The start of the copy of a header that the kernel gets: a_syms is the load address. */
  function SavedHeader(e: Exec, addr: nat): (h: seq<Byte>)
    requires addr < WORD
    ensures |h| == A_MINHDR
  {
    e[..28] + Bytes4(addr)
  }

  /** That is where the kernel finds it; the rest of the header is as it was. */
  lemma SavedAddress(e: Exec, addr: nat)
    requires addr < WORD / 2
    ensures var h: Exec := SavedHeader(e, addr) + e[A_MINHDR..];
            && Long(h, 28) == addr && HdrLen(h) == HdrLen(e)
            && Text(h) == Text(e) && Data(h) == Data(e) && Bss(h) == Bss(e) && Total(h) == Total(e)
  {
    hide Bytes4;
    var h: Exec := SavedHeader(e, addr) + e[A_MINHDR..];
    assert h[28..32] == Bytes4(addr);
    LongOf(h, 28, addr);
  }

  datatype Placed = Placed(item: Item, start: nat, process: Process)

  /** What the `j`-th program becomes in memory. */
  function Made(l: Loader, it: Item, j: nat, kn: Kernel): (w: seq<Byte>)
    requires Modest(it.e) && ClickOk(kn.click)
  {
    ModestSized(it.e, kn.flags);
    Contents(l, it.e, j, kn.flags, it.vsec, kn.click)
  }

  /** `x` was the `j`-th to be loaded: it is in memory as it is on the disk, and so is its header
      for the kernel. */
  ghost predicate InPlace(m: seq<Byte>, l: Loader, kn: Kernel, aout: nat, j: nat, x: Placed) {
    && Modest(x.item.e) && ClickOk(kn.click) && x.start < WORD
    && var e, w := x.item.e, Made(l, x.item, j, kn);
       && x.start + |w| <= |m| && m[x.start..x.start + |w|] == w
       && aout + A_MINHDR * (j + 1) <= |m| &&
         m[aout + A_MINHDR * j..aout + A_MINHDR * (j + 1)] == SavedHeader(e, x.start)
       && x.process.data == DataAddr(e, x.start, kn.click)
       && x.process.end == End(e, j, kn.flags, x.start, kn.click)
  }

  ghost predicate AllInPlace(m: seq<Byte>, l: Loader, kn: Kernel, aout: nat, placed: seq<Placed>) {
    forall j :: 0 <= j < |placed| ==> InPlace(m, l, kn, aout, j, placed[j])
  }

  /** The first program starts at the first click of memory, the others at the end of the one
      before; but with K_HIGH the second starts extended memory. */
  ghost predicate StartsRight(placed: seq<Placed>, j: nat, kn: Kernel, b: Blocks)
    requires kn.click > 0 && j < |placed|
  {
    placed[j].start == if j == 0 then Ceil(b.base0, kn.click)
      else if j == 1 && kn.flags.high then b.base1 else placed[j - 1].process.end
  }

  ghost predicate InRow(placed: seq<Placed>, kn: Kernel, b: Blocks)
    requires kn.click > 0
  {
    forall j :: 0 <= j < |placed| ==> StartsRight(placed, j, kn, b)
  }

  function Items(placed: seq<Placed>): seq<Item> {
    seq(|placed|, j requires 0 <= j < |placed| => placed[j].item)
  }

  /** The `j`-th program loaded, `x`, is not in memory from `addr` up to `limit`, nor where the
      headers are saved. */
  ghost predicate OutOfWay(l: Loader, kn: Kernel, aout: nat, j: nat, x: Placed, addr: nat, limit: nat) {
    Modest(x.item.e) && ClickOk(kn.click) ==>
      var end := x.start + |Made(l, x.item, j, kn)|;
      (end <= addr || x.start >= limit) && (end <= aout || x.start >= aout + HEADERS)
  }

  ghost predicate Apart(l: Loader, kn: Kernel, aout: nat, placed: seq<Placed>, addr: nat, limit: nat) {
    forall j :: 0 <= j < |placed| ==> OutOfWay(l, kn, aout, j, placed[j], addr, limit)
  }

  /** Loading one more program changes nothing for the others. */
  lemma StillInPlace(m: seq<Byte>, m': seq<Byte>, l: Loader, kn: Kernel, aout: nat, placed: seq<Placed>, addr: nat,
          limit: nat)
    requires AllInPlace(m, l, kn, aout, placed)
    requires Apart(l, kn, aout, placed, addr, limit) && |placed| <= PROCESS_MAX
    requires Untouched(m, m', addr, limit) && (aout + HEADERS <= addr || limit <= aout)
    ensures AllInPlace(m', l, kn, aout, placed)
  {
    hide Made, DataAddr, End, Modest, SavedHeader, ClickOk;
    forall j | 0 <= j < |placed|
      ensures InPlace(m', l, kn, aout, j, placed[j])
    {
      var x := placed[j];
      assert InPlace(m, l, kn, aout, j, x) && OutOfWay(l, kn, aout, j, x, addr, limit);
      var w := Made(l, x.item, j, kn);
      assert m'[x.start..x.start + |w|] == m[x.start..x.start + |w|];
      assert m'[aout + A_MINHDR * j..aout + A_MINHDR * (j + 1)] == m[aout + A_MINHDR * j..aout + A_MINHDR * (j + 1)];
    }
  }

  /** So does saving one more header. */
  lemma StillInPlaceHeader(m: seq<Byte>, m': seq<Byte>, l: Loader, kn: Kernel, aout: nat, placed: seq<Placed>,
          addr: nat, limit: nat, h: seq<Byte>)
    requires AllInPlace(m, l, kn, aout, placed)
    requires Apart(l, kn, aout, placed, addr, limit) && |placed| < PROCESS_MAX && |h| == A_MINHDR
    requires aout + HEADERS <= |m| && m' == Splice(m, aout + A_MINHDR * |placed|, h)
    ensures AllInPlace(m', l, kn, aout, placed)
  {
    hide Made, DataAddr, End, Modest, SavedHeader, ClickOk;
    forall j | 0 <= j < |placed|
      ensures InPlace(m', l, kn, aout, j, placed[j])
    {
      var x := placed[j];
      assert InPlace(m, l, kn, aout, j, x) && OutOfWay(l, kn, aout, j, x, addr, limit);
      var w := Made(l, x.item, j, kn);
      assert m'[x.start..x.start + |w|] == m[x.start..x.start + |w|];
      assert m'[aout + A_MINHDR * j..aout + A_MINHDR * (j + 1)] == m[aout + A_MINHDR * j..aout + A_MINHDR * (j + 1)];
    }
  }

  /** Only memory from `a0` up to `l0` and from `a1` up to `l1` may have changed. */
  ghost predicate Elsewhere(m: seq<Byte>, m': seq<Byte>, a0: nat, l0: nat, a1: nat, l1: nat) {
    |m'| == |m| && forall k :: 0 <= k < |m| && (k < a0 || k >= l0) && (k < a1 || k >= l1) ==> m'[k] == m[k]
  }

  lemma WrittenHere(m: seq<Byte>, m1: seq<Byte>, m2: seq<Byte>, addr: nat, limit: nat, aout: nat, i: nat, h: seq<Byte>)
    requires i < PROCESS_MAX && |h| == A_MINHDR && aout + HEADERS <= |m|
    requires m1 == Splice(m, aout + A_MINHDR * i, h) && Untouched(m1, m2, addr, limit)
    ensures Elsewhere(m, m2, addr, limit, aout, aout + HEADERS)
  {
    hide Splice;
  }

  /** All that a program needs: its sectors are there, and there is room for it. */
  predicate Loads(l: Loader, it: Item, j: nat, kn: Kernel, addr: nat, limit: nat)
    requires ClickOk(kn.click)
  {
    RoomFor(it.e, j, kn.flags, addr, limit, kn.click) && l.AllThere(it.vsec, ProcSectors(it.e))
  }

  /** The header is saved and the program loaded behind the others. */
  method PlaceProgram(l: Loader, e: Exec, kn: Kernel, vsec: nat, addr: nat, limit: nat, aout: nat, i: nat,
          ghost placed: seq<Placed>)
    returns (ok: bool, vsec': nat, p: Process)
    requires l.Valid() && ClickOk(kn.click) && addr % kn.click == 0 && limit <= l.mem.Length && addr < 0xB000_0000
    requires Modest(e) && i == |placed| < PROCESS_MAX
    requires aout + HEADERS <= l.mem.Length && (aout + HEADERS <= addr || limit <= aout)
    requires AllInPlace(l.mem[..], l, kn, aout, placed) && Apart(l, kn, aout, placed, addr, limit)
    modifies l, l.buf, l.mem
    ensures l.Valid() && Elsewhere(old(l.mem[..]), l.mem[..], addr, limit, aout, aout + HEADERS)
    ensures ok ==> Loads(l, Item(e, vsec), i, kn, addr, limit)
    ensures !ok ==> !Loads(l, Item(e, vsec), i, kn, addr, limit) || l.SomeUnreadable(vsec, ProcSectors(e))
    ensures ok ==>
              && vsec' == vsec + ProcSectors(e) && addr <= p.end < 0xB000_0000 && p.end % kn.click == 0
              && AllInPlace(l.mem[..], l, kn, aout, placed + [Placed(Item(e, vsec), addr, p)])
              && Apart(l, kn, aout, placed + [Placed(Item(e, vsec), addr, p)], p.end, limit)
              && EndsBelow(l, Item(e, vsec), i, kn, addr, limit)
  {
    hide l.Valid, ProcSectors, AllInPlace, Apart, Contents, Untouched, Put, DataAddr, End, ZeroEnd, Sized, ClickOk,
      SavedHeader, Splice, RoomFor, l.SomeUnreadable, l.AllThere, Elsewhere, Modest;
    l.Separate();
    ModestSized(e, kn.flags);
    ghost var m := l.mem[..];
    l.RawCopy(aout + A_MINHDR * i, SavedHeader(e, addr));
    ghost var m1 := l.mem[..];
    StillInPlaceHeader(m, m1, l, kn, aout, placed, addr, limit, SavedHeader(e, addr));
    var addr';
    ok, vsec', addr', p := LoadProgram(l, e, i, kn.flags, vsec, addr, limit, kn.click);
    StillInPlace(m1, l.mem[..], l, kn, aout, placed, addr, limit);
    WrittenHere(m, m1, l.mem[..], addr, limit, aout, i, SavedHeader(e, addr));
    if ok {
      EndInRange(l, Item(e, vsec), i, kn, addr, limit);
      OneMoreInPlace(m, m1, l.mem[..], l, kn, aout, placed, addr, limit, Placed(Item(e, vsec), addr, p));
    }
  }

  ghost predicate EndsBelow(l: Loader, it: Item, i: nat, kn: Kernel, addr: nat, limit: nat)
    requires Modest(it.e) && ClickOk(kn.click)
  {
    addr + |Made(l, it, i, kn)| <= limit
  }

  /** The stack is not loaded, but it is not negative either. */
  lemma EndInRange(l: Loader, it: Item, i: nat, kn: Kernel, addr: nat, limit: nat)
    requires Modest(it.e) && ClickOk(kn.click) && limit <= MEMORY_MAX
    requires ZeroEnd(it.e, i, kn.flags, addr, kn.click) <= limit
    ensures ZeroEnd(it.e, i, kn.flags, addr, kn.click) <= End(it.e, i, kn.flags, addr, kn.click) < 0xB000_0000
  {
    hide Has, Long, Ceil;
    var e, f, click := it.e, kn.flags, kn.click;
    ModestSized(e, f);
    var size := DataSize(e) + BssSize(e, i, f);
    CeilBounds(size, click);
    CeilBounds(size + StackSize(e, i, f), click);
    CeilLeast(size, click, Ceil(size + StackSize(e, i, f), click));
  }

  lemma OneMoreInPlace(m: seq<Byte>, m1: seq<Byte>, m2: seq<Byte>, l: Loader, kn: Kernel, aout: nat,
          placed: seq<Placed>, addr: nat, limit: nat, x: Placed)
    requires ClickOk(kn.click) && Modest(x.item.e)
    requires |m| == |m1| == |m2| && aout + HEADERS <= |m| && |placed| < PROCESS_MAX && x.start == addr < 0xB000_0000
    requires AllInPlace(m2, l, kn, aout, placed) && Apart(l, kn, aout, placed, addr, limit)
    requires aout + HEADERS <= addr || limit <= aout
    requires var e, j := x.item.e, |placed|;
             var w := Made(l, x.item, j, kn);
             && m1 == Splice(m, aout + A_MINHDR * j, SavedHeader(e, addr))
             && addr + |w| <= limit <= |m| && m2 == Put(m1, addr, w) && Untouched(m1, m2, addr, limit)
             && x.process.data == DataAddr(e, addr, kn.click)
             && x.process.end == End(e, j, kn.flags, addr, kn.click) >= addr + |w|
    ensures AllInPlace(m2, l, kn, aout, placed + [x])
    ensures Apart(l, kn, aout, placed + [x], x.process.end, limit)
  {
    hide Modest, Made, DataAddr, End, SavedHeader, ClickOk, InPlace, OutOfWay;
    var j := |placed|;
    ThisInPlace(m, m1, m2, l, kn, aout, j, addr, limit, x);
    forall n | 0 <= n < j + 1
      ensures InPlace(m2, l, kn, aout, n, (placed + [x])[n])
      ensures OutOfWay(l, kn, aout, n, (placed + [x])[n], x.process.end, limit)
    {
      if n < j {
        assert (placed + [x])[n] == placed[n];
        assert InPlace(m2, l, kn, aout, n, placed[n]) && OutOfWay(l, kn, aout, n, placed[n], addr, limit);
        FurtherOn(l, kn, aout, n, placed[n], addr, x.process.end, limit);
      }
    }
  }

  lemma FurtherOn(l: Loader, kn: Kernel, aout: nat, j: nat, x: Placed, addr: nat, addr': nat, limit: nat)
    requires OutOfWay(l, kn, aout, j, x, addr, limit) && addr <= addr'
    ensures OutOfWay(l, kn, aout, j, x, addr', limit)
  {
    hide Made, Modest, ClickOk;
  }

  lemma ThisInPlace(m: seq<Byte>, m1: seq<Byte>, m2: seq<Byte>, l: Loader, kn: Kernel, aout: nat, j: nat, addr: nat,
          limit: nat, x: Placed)
    requires ClickOk(kn.click) && Modest(x.item.e)
    requires |m| == |m1| == |m2| && aout + HEADERS <= |m| && j < PROCESS_MAX && x.start == addr < 0xB000_0000
    requires aout + HEADERS <= addr || limit <= aout
    requires var e := x.item.e;
             var w := Made(l, x.item, j, kn);
             && m1 == Splice(m, aout + A_MINHDR * j, SavedHeader(e, addr))
             && addr + |w| <= limit <= |m| && m2 == Put(m1, addr, w) && Untouched(m1, m2, addr, limit)
             && x.process.data == DataAddr(e, addr, kn.click)
             && x.process.end == End(e, j, kn.flags, addr, kn.click) >= addr + |w|
    ensures InPlace(m2, l, kn, aout, j, x)
    ensures OutOfWay(l, kn, aout, j, x, x.process.end, limit)
  {
    hide Modest, Made, DataAddr, End, SavedHeader, ClickOk;
    var w := Made(l, x.item, j, kn);
    assert m2[addr..addr + |w|] == w;
    assert m2[aout + A_MINHDR * j..aout + A_MINHDR * (j + 1)] == m1[aout + A_MINHDR * j..aout + A_MINHDR * (j + 1)];
  }

  /** Everything about the programs loaded so far. */
  ghost predicate LoadedSoFar(m: seq<Byte>, l: Loader, kn: Kernel, b: Blocks, placed: seq<Placed>) {
    && |placed| <= PROCESS_MAX
    && (placed != [] ==> ClickOk(kn.click) && AllInPlace(m, l, kn, b.aout, placed) && InRow(placed, kn, b))
  }

  /** Where the next program goes: behind the last one, or to extended memory. */
  ghost predicate NextPlace(l: Loader, kn: Kernel, b: Blocks, placed: seq<Placed>, addr: nat, limit: nat) {
    if placed == [] then addr == b.base0 && limit == b.aout
    else
      && ClickOk(kn.click) && addr % kn.click == 0 && b.base0 <= addr < 0xB000_0000
      && addr == (if |placed| == 1 && kn.flags.high then b.base1 else placed[|placed| - 1].process.end)
      && (if kn.flags.high then limit == b.limit1 && addr >= b.base1 else limit == b.aout)
      && Apart(l, kn, b.aout, placed, addr, limit)
  }

  /** The place of the next program once the click size is known: for the first one the address is
      aligned. */
  ghost predicate Here(l: Loader, kn0: Kernel, kn: Kernel, b: Blocks, placed: seq<Placed>, addr: nat, limit: nat) {
    if placed == [] then ClickOk(kn.click) && addr == Ceil(b.base0, kn.click) && limit == b.aout
    else kn == kn0 && NextPlace(l, kn, b, placed, addr, limit)
  }

  // When a plan can be carried out.

  /** Where the `j`-th program starts: behind the stack of the one before. */
  function StartOf(items: seq<Item>, j: nat, kn: Kernel, b: Blocks): nat
    requires AllModest(items) && ClickOk(kn.click) && j < |items|
  {
    if j == 0 then Ceil(b.base0, kn.click)
    else if j == 1 && kn.flags.high then b.base1
    else
      EndNat(items[j - 1].e, j - 1, kn, StartOf(items, j - 1, kn, b));
      End(items[j - 1].e, j - 1, kn.flags, StartOf(items, j - 1, kn, b), kn.click)
  }

  lemma EndNat(e: Exec, i: nat, kn: Kernel, addr: nat)
    requires Modest(e) && ClickOk(kn.click)
    ensures End(e, i, kn.flags, addr, kn.click) >= 0
  {
    hide Ceil, Long, Has, Room;
    ModestSized(e, kn.flags);
    CeilBounds(DataSize(e) + BssSize(e, i, kn.flags) + StackSize(e, i, kn.flags), kn.click);
  }

  /** All but the first go to extended memory with K_HIGH. */
  function LimitOf(j: nat, kn: Kernel, b: Blocks): nat {
    if j > 0 && kn.flags.high then b.limit1 else b.aout
  }

  /** The `j`-th program can run on the processor, its sectors are there and there is room for it. */
  predicate ProgramFits(l: Loader, items: seq<Item>, j: nat, cpuOk: Exec -> bool, kn: Kernel, b: Blocks)
    requires AllModest(items) && ClickOk(kn.click) && j < |items|
  {
    cpuOk(items[j].e) && Loads(l, items[j], j, kn, StartOf(items, j, kn, b), LimitOf(j, kn, b))
  }

  /** The click size and the flags that the first of the programs has in its first sector. */
  function KernelOf(l: Loader, it: Item): Option<Kernel> {
    ClickOf(l.SectorOf(it.vsec), it.e)
  }

  /** What the monitor asks of what it finds: it gets to the end of the image, there is a program
      and there are at most sixteen, the kernel tells a good click size, and each program fits
      behind the others. */
  predicate Bootable(l: Loader, plan: Plan, cpuOk: Exec -> bool, b: Blocks)
    requires AllModest(plan.items)
  {
    && plan.complete && 0 < |plan.items| <= PROCESS_MAX
    && var kn := KernelOf(l, plan.items[0]);
       && kn.Some?
       && forall j :: 0 <= j < |plan.items| ==> ProgramFits(l, plan.items, j, cpuOk, kn.value, b)
  }

  /** The programs loaded so far passed all tests. */
  ghost predicate Passed(l: Loader, cpuOk: Exec -> bool, kn: Kernel, b: Blocks, placed: seq<Placed>) {
    placed != [] ==>
      && ClickOk(kn.click) && KernelOf(l, placed[0].item) == Some(kn)
      && forall j :: 0 <= j < |placed| ==> PlacedFits(l, placed[j], j, cpuOk, kn, b)
  }

  predicate PlacedFits(l: Loader, x: Placed, j: nat, cpuOk: Exec -> bool, kn: Kernel, b: Blocks)
    requires ClickOk(kn.click)
  {
    cpuOk(x.item.e) && Loads(l, x.item, j, kn, x.start, LimitOf(j, kn, b))
  }

  /** What is loaded is where it should be. */
  lemma {:induction false} StartsAre(m: seq<Byte>, l: Loader, kn: Kernel, b: Blocks, placed: seq<Placed>,
          items: seq<Item>, j: nat)
    requires ClickOk(kn.click) && AllInPlace(m, l, kn, b.aout, placed) && InRow(placed, kn, b)
    requires Items(placed) <= items && AllModest(items) && j < |placed|
    ensures placed[j].start == StartOf(items, j, kn, b)
  {
    hide Made, DataAddr, End, Modest, SavedHeader, ClickOk, Ceil, AllModest;
    ClickDivides(kn.click);
    assert StartsRight(placed, j, kn, b);
    if j > 0 {
      StartsAre(m, l, kn, b, placed, items, j - 1);
      assert InPlace(m, l, kn, b.aout, j - 1, placed[j - 1]);
      assert items[j - 1] == Items(placed)[j - 1] == placed[j - 1].item;
    }
  }

  /** And so is the place of the next one. */
  lemma NextStart(m: seq<Byte>, l: Loader, kn0: Kernel, kn: Kernel, b: Blocks, placed: seq<Placed>, addr: nat,
          limit: nat, items: seq<Item>)
    requires LoadedSoFar(m, l, kn0, b, placed) && Here(l, kn0, kn, b, placed, addr, limit)
    requires Items(placed) <= items && AllModest(items) && |placed| < |items|
    ensures ClickOk(kn.click)
    ensures addr == StartOf(items, |placed|, kn, b) && limit == LimitOf(|placed|, kn, b)
  {
    hide Made, DataAddr, End, Modest, SavedHeader, ClickOk, Ceil, AllModest, Apart;
    if placed != [] {
      var j := |placed| - 1;
      StartsAre(m, l, kn, b, placed, items, j);
      assert InPlace(m, l, kn, b.aout, j, placed[j]);
      assert items[j] == Items(placed)[j] == placed[j].item;
    }
  }

  /** A program that does not pass: the plan cannot be carried out. */
  lemma OneFails(m: seq<Byte>, l: Loader, plan: Plan, cpuOk: Exec -> bool, kn0: Kernel, kn: Kernel, b: Blocks,
          placed: seq<Placed>, addr: nat, limit: nat, it: Item)
    requires LoadedSoFar(m, l, kn0, b, placed) && Passed(l, cpuOk, kn0, b, placed)
    requires Here(l, kn0, kn, b, placed, addr, limit) && AllModest(plan.items) && ClickOk(kn.click)
    requires Items(placed) + [it] <= plan.items && (placed == [] ==> KernelOf(l, it) == Some(kn))
    requires !cpuOk(it.e) || !Loads(l, it, |placed|, kn, addr, limit)
    ensures !Bootable(l, plan, cpuOk, b)
  {
    hide Modest, ClickOk, Ceil, AllModest, InRow, AllInPlace, NextPlace, Loads, KernelOf, LoadedSoFar, Here,
      PlacedFits;
    var items, j := plan.items, |placed|;
    assert items[j] == (Items(placed) + [it])[j] == it;
    FirstItems(placed, it, items);
    NextStart(m, l, kn0, kn, b, placed, addr, limit, items);
    if placed != [] {
      SameKernel(l, kn0, kn, b, placed, addr, limit);
    }
    assert KernelOf(l, items[0]) == Some(kn);
    assert !ProgramFits(l, items, j, cpuOk, kn, b);
  }

  lemma FirstItems(placed: seq<Placed>, it: Item, items: seq<Item>)
    requires Items(placed) + [it] <= items
    ensures Items(placed) <= items && items[0] == if placed == [] then it else placed[0].item
  {
    assert Items(placed) == (Items(placed) + [it])[..|placed|];
    assert items[0] == (Items(placed) + [it])[0];
  }

  lemma SameKernel(l: Loader, kn0: Kernel, kn: Kernel, b: Blocks, placed: seq<Placed>, addr: nat, limit: nat)
    requires Here(l, kn0, kn, b, placed, addr, limit) && placed != []
    ensures kn == kn0 && ClickOk(kn.click)
  {
    hide ClickOk, Apart;
  }

  lemma KernelClick(l: Loader, it: Item)
    requires KernelOf(l, it).Some?
    ensures ClickOk(KernelOf(l, it).value.click)
  {
    hide ClickOf, ClickOk, l.SectorOf;
  }

  /** So is a processor or a click size that is not good. */
  lemma FirstFails(l: Loader, plan: Plan, cpuOk: Exec -> bool, b: Blocks, it: Item)
    requires AllModest(plan.items) && plan.items != [] && plan.items[0] == it
    requires !cpuOk(it.e) || KernelOf(l, it) == None
    ensures !Bootable(l, plan, cpuOk, b)
  {
    hide Modest, ClickOk, Loads, KernelOf;
    if KernelOf(l, it).Some? {
      KernelClick(l, it);
      assert !ProgramFits(l, plan.items, 0, cpuOk, KernelOf(l, it).value, b);
    }
  }

  /** All programs are loaded. */
  lemma AllPassed(m: seq<Byte>, l: Loader, plan: Plan, cpuOk: Exec -> bool, kn: Kernel, b: Blocks, placed: seq<Placed>)
    requires LoadedSoFar(m, l, kn, b, placed) && Passed(l, cpuOk, kn, b, placed)
    requires AllModest(plan.items) && plan.items == Items(placed) && plan.complete
    ensures Bootable(l, plan, cpuOk, b) <==> placed != []
  {
    hide Modest, ClickOk, Ceil, AllModest, InRow, AllInPlace, Loads, KernelOf;
    var items := plan.items;
    if placed != [] {
      assert items[0] == Items(placed)[0] == placed[0].item;
      forall j | 0 <= j < |items|
        ensures ProgramFits(l, items, j, cpuOk, kn, b)
      {
        StartsAre(m, l, kn, b, placed, items, j);
        assert items[j] == Items(placed)[j] == placed[j].item;
        assert PlacedFits(l, placed[j], j, cpuOk, kn, b);
      }
    }
  }

  lemma OneMorePassed(l: Loader, cpuOk: Exec -> bool, kn0: Kernel, kn: Kernel, b: Blocks, placed: seq<Placed>,
          x: Placed, addr: nat, limit: nat)
    requires Passed(l, cpuOk, kn0, b, placed) && Here(l, kn0, kn, b, placed, addr, limit) && ClickOk(kn.click)
    requires placed == [] ==> KernelOf(l, x.item) == Some(kn)
    requires limit == LimitOf(|placed|, kn, b) && cpuOk(x.item.e)
    requires Loads(l, x.item, |placed|, kn, x.start, limit)
    ensures Passed(l, cpuOk, kn, b, placed + [x])
  {
    hide ClickOk, Loads, KernelOf, Here;
    var all := placed + [x];
    if placed != [] {
      SameKernel(l, kn0, kn, b, placed, addr, limit);
    }
    assert KernelOf(l, all[0].item) == Some(kn);
    forall j | 0 <= j < |all|
      ensures PlacedFits(l, all[j], j, cpuOk, kn, b)
    {
      if j < |placed| {
        assert all[j] == placed[j] && PlacedFits(l, placed[j], j, cpuOk, kn, b);
      }
    }
  }

  /** The limit that the next program meets, and the block that it goes to. */
  lemma HereIs(l: Loader, kn0: Kernel, kn: Kernel, b: Blocks, placed: seq<Placed>, addr: nat, limit: nat)
    requires Here(l, kn0, kn, b, placed, addr, limit)
    ensures ClickOk(kn.click) && limit == LimitOf(|placed|, kn, b)
    ensures b.base0 <= addr
    ensures limit == b.aout || (placed != [] && kn0.flags.high && b.base1 <= addr && limit == b.limit1)
  {
    hide Ceil, ClickOk, Apart;
    if placed == [] {
      ClickDivides(kn.click);
    }
  }

  /** The stack of a program ends below the limit if another one follows in the same block. */
  predicate StackBelow(x: Placed, j: nat, kn: Kernel, b: Blocks) {
    x.process.end <= LimitOf(j, kn, b)
  }

  lemma StacksBelow(m: seq<Byte>, l: Loader, cpuOk: Exec -> bool, kn: Kernel, b: Blocks, placed: seq<Placed>)
    requires LoadedSoFar(m, l, kn, b, placed) && Passed(l, cpuOk, kn, b, placed)
    ensures forall j :: 0 <= j < |placed| - 1 && !(j == 0 && kn.flags.high) ==> StackBelow(placed[j], j, kn, b)
  {
    hide ClickOk, Ceil, Modest, RoomFor, Made, End, DataAddr, KernelOf, l.AllThere;
    forall j | 0 <= j < |placed| - 1 && !(j == 0 && kn.flags.high)
      ensures StackBelow(placed[j], j, kn, b)
    {
      var x := placed[j + 1];
      ClickDivides(kn.click);
      assert StartsRight(placed, j + 1, kn, b);
      assert PlacedFits(l, x, j + 1, cpuOk, kn, b) && InPlace(m, l, kn, b.aout, j + 1, x);
      ModestSized(x.item.e, kn.flags);
      StackBelowNext(x.item.e, j + 1, kn.flags, x.start, LimitOf(j + 1, kn, b), kn.click);
    }
  }

  // What is written where.

  /** Only the first block, and with K_HIGH the second, may have changed. */
  ghost predicate InBlocks(m: seq<Byte>, m': seq<Byte>, b: Blocks, high: bool) {
    Elsewhere(m, m', b.base0, b.aout + HEADERS, b.base1, if high then b.limit1 else b.base1)
  }

  lemma ElsewhereStep(m0: seq<Byte>, m1: seq<Byte>, m2: seq<Byte>, b: Blocks, high: bool, addr: nat, limit: nat)
    requires BlocksOk(b) && InBlocks(m0, m1, b, high)
    requires Elsewhere(m1, m2, addr, limit, b.aout, b.aout + HEADERS)
    requires b.base0 <= addr && (limit == b.aout || (high && b.base1 <= addr && limit == b.limit1))
    ensures InBlocks(m0, m2, b, high)
  {
  }

  lemma MoreBlocks(m: seq<Byte>, m': seq<Byte>, b: Blocks, high: bool, high': bool)
    requires InBlocks(m, m', b, high) && (high ==> high') && b.base1 <= b.limit1
    ensures InBlocks(m, m', b, high')
  {
  }

  lemma HeadersCleared(m: seq<Byte>, m': seq<Byte>, b: Blocks, n: nat)
    requires n == HEADERS && b.base0 <= b.aout && b.aout + n <= |m| && m' == Splice(m, b.aout, Zeros(n))
    ensures InBlocks(m, m', b, false)
  {
    hide Splice;
  }

  // The loop.

  /** The plan is what was loaded and then the rest. */
  ghost predicate Ahead(l: Loader, selected: seq<Byte> -> bool, imageSize: nat, end: nat, plan: Plan, done: seq<Item>,
          vsec: nat)
  {
    var rest := PlanFrom(l, selected, imageSize, vsec, end);
    plan == Plan(done + rest.items, rest.complete, rest.reach)
  }

  lemma AheadAtFirst(l: Loader, selected: seq<Byte> -> bool, imageSize: nat, end: nat)
    ensures Ahead(l, selected, imageSize, end, PlanFrom(l, selected, imageSize, 0, end), [], 0)
  {
    hide PlanFrom;
    var plan := PlanFrom(l, selected, imageSize, 0, end);
    assert [] + plan.items == plan.items;
  }

  lemma AheadAtLast(l: Loader, selected: seq<Byte> -> bool, imageSize: nat, end: nat, plan: Plan, done: seq<Item>,
          vsec: nat)
    requires Ahead(l, selected, imageSize, end, plan, done, vsec) && vsec >= imageSize
    ensures plan == Plan(done, true, vsec)
  {
    assert done + [] == done;
  }

  /** What the next header means for the plan. */
  lemma AheadOn(l: Loader, selected: seq<Byte> -> bool, imageSize: nat, end: nat, plan: Plan, done: seq<Item>,
          vsec: nat)
    requires Ahead(l, selected, imageSize, end, plan, done, vsec) && vsec < imageSize
    ensures var (it, reach) := Search(l, selected, vsec, end);
            && reach <= plan.reach
            && (it == None ==> plan == Plan(done, false, reach))
            && (it.Some? ==>
                  && done + [it.value] <= plan.items && |plan.items| > |done|
                  && it.value.vsec + ProcSectors(it.value.e) <= plan.reach
                  && Ahead(l, selected, imageSize, end, plan, done + [it.value],
                    it.value.vsec + ProcSectors(it.value.e)))
  {
    hide PlanFrom, Search, ProcSectors;
    PlanOn(l, selected, imageSize, vsec, end);
    var (it, reach) := Search(l, selected, vsec, end);
    if it == None {
      assert done + [] == done;
    } else {
      var rest := PlanFrom(l, selected, imageSize, it.value.vsec + ProcSectors(it.value.e), end);
      assert done + ([it.value] + rest.items) == done + [it.value] + rest.items;
    }
  }

  lemma ModestAt(plan: Plan, done: seq<Item>, it: Item)
    requires AllModest(plan.items) && done + [it] <= plan.items
    ensures Modest(it.e) && plan.items[|done|] == it && (done == [] ==> plan.items[0] == it)
  {
    assert plan.items[|done|] == (done + [it])[|done|] == it;
  }

  lemma DamagedBefore(l: Loader, plan: Plan, vsec: nat, reach: nat)
    requires reach <= plan.reach && exists v :: vsec <= v < reach && l.Unreadable(v)
    ensures Damaged(l, plan)
  {
    hide l.Unreadable;
    var v :| vsec <= v < reach && l.Unreadable(v);
    DamagedAt(l, plan, v);
  }

  lemma DamagedIn(l: Loader, plan: Plan, it: Item)
    requires it.vsec + ProcSectors(it.e) <= plan.reach && l.SomeUnreadable(it.vsec, ProcSectors(it.e))
    ensures Damaged(l, plan)
  {
    hide l.Unreadable, ProcSectors;
    DamagedBefore(l, plan, it.vsec, it.vsec + ProcSectors(it.e));
  }

  function Processes(placed: seq<Placed>): seq<Process> {
    seq(|placed|, j requires 0 <= j < |placed| => placed[j].process)
  }

  lemma AlignedStart(base: nat, click: nat)
    requires ClickOk(click) && base <= MEMORY_MAX
    ensures Align(base, click) == Ceil(base, click) && Ceil(base, click) % click == 0 && Ceil(base, click) < 0xB000_0000
  {
    hide Ceil, Align;
    CeilBounds(base, click);
    AlignIsCeil(base, click);
    SmallWord(Ceil(base, click));
  }

  lemma ReadyToPlace(m: seq<Byte>, l: Loader, kn0: Kernel, kn: Kernel, b: Blocks, placed: seq<Placed>, addr: nat,
          limit: nat)
    requires LoadedSoFar(m, l, kn0, b, placed) && Here(l, kn0, kn, b, placed, addr, limit) && BlocksOk(b)
    ensures AllInPlace(m, l, kn, b.aout, placed) && Apart(l, kn, b.aout, placed, addr, limit)
    ensures ClickOk(kn.click) && addr % kn.click == 0 && b.base0 <= addr < 0xB000_0000
    ensures limit <= b.limit1 && (b.aout + HEADERS <= addr || limit <= b.aout)
  {
    hide InPlace, OutOfWay, Ceil;
    if placed == [] {
      AlignedStart(b.base0, kn.click);
    }
  }

  lemma PlacedOneMore(m: seq<Byte>, m': seq<Byte>, l: Loader, kn0: Kernel, kn: Kernel, b: Blocks, placed: seq<Placed>,
          addr: nat, limit: nat, x: Placed)
    requires LoadedSoFar(m, l, kn0, b, placed) && Here(l, kn0, kn, b, placed, addr, limit) && BlocksOk(b)
    requires |placed| < PROCESS_MAX && ClickOk(kn.click) && x.start == addr
    requires b.base0 <= addr <= x.process.end < 0xB000_0000 && x.process.end % kn.click == 0
    requires AllInPlace(m', l, kn, b.aout, placed + [x]) && Apart(l, kn, b.aout, placed + [x], x.process.end, limit)
    requires Modest(x.item.e) && EndsBelow(l, x.item, |placed|, kn, addr, limit)
    ensures LoadedSoFar(m', l, kn, b, placed + [x])
    ensures if placed == [] && kn.flags.high then NextPlace(l, kn, b, placed + [x], b.base1, b.limit1)
            else NextPlace(l, kn, b, placed + [x], x.process.end, limit)
  {
    hide InPlace, Ceil, Modest, Made, OutOfWay, AllInPlace, Apart;
    OneMoreInRow(placed, x, kn, b);
    if placed == [] && kn.flags.high {
      assert placed + [x] == [x];
      OutOfExtended(l, kn, b, x, x.process.end, limit);
      MultipleOf(b.base1, 0x1_0000, kn.click);
    }
  }

  lemma OneMoreInRow(placed: seq<Placed>, x: Placed, kn: Kernel, b: Blocks)
    requires kn.click > 0 && (placed != [] ==> InRow(placed, kn, b))
    requires x.start == if placed == [] then Ceil(b.base0, kn.click)
                        else if |placed| == 1 && kn.flags.high then b.base1 else placed[|placed| - 1].process.end
    ensures InRow(placed + [x], kn, b)
  {
    var all := placed + [x];
    forall j | 0 <= j < |all|
      ensures StartsRight(all, j, kn, b)
    {
      if j < |placed| {
        assert StartsRight(placed, j, kn, b);
        assert all[j] == placed[j];
      }
      if j > 0 {
        assert all[j - 1] == placed[j - 1];
      }
    }
  }

  lemma OutOfExtended(l: Loader, kn: Kernel, b: Blocks, x: Placed, addr: nat, limit: nat)
    requires Apart(l, kn, b.aout, [x], addr, limit) && limit == b.aout <= b.base1
    requires ClickOk(kn.click) && Modest(x.item.e) && EndsBelow(l, x.item, 0, kn, x.start, limit)
    ensures Apart(l, kn, b.aout, [x], b.base1, b.limit1)
  {
    hide Made, Modest, ClickOk;
    assert OutOfWay(l, kn, b.aout, 0, [x][0], addr, limit);
  }

  /** One program more, and where the one after it goes. */
  method LoadNext(l: Loader, vsec: nat, e: Exec, b: Blocks, addr: nat, limit: nat, kn: Kernel, i: nat,
          ghost placed: seq<Placed>, ghost kn0: Kernel)
    returns (ok: bool, vsec': nat, addr': nat, limit': nat, p: Process)
    requires l.Valid() && BlocksOk(b) && b.limit1 <= l.mem.Length && i == |placed| < PROCESS_MAX && Modest(e)
    requires LoadedSoFar(l.mem[..], l, kn0, b, placed) && Here(l, kn0, kn, b, placed, addr, limit)
    modifies l, l.buf, l.mem
    ensures l.Valid() && Elsewhere(old(l.mem[..]), l.mem[..], addr, limit, b.aout, b.aout + HEADERS)
    ensures ok ==> ClickOk(kn.click) && Loads(l, Item(e, vsec), i, kn, addr, limit)
    ensures !ok ==>
              || (ClickOk(kn.click) && !Loads(l, Item(e, vsec), i, kn, addr, limit))
              || l.SomeUnreadable(vsec, ProcSectors(e))
    ensures ok ==>
              && vsec' == vsec + ProcSectors(e)
              && LoadedSoFar(l.mem[..], l, kn, b, placed + [Placed(Item(e, vsec), addr, p)])
              && NextPlace(l, kn, b, placed + [Placed(Item(e, vsec), addr, p)], addr', limit')
  {
    hide l.Valid, LoadedSoFar, NextPlace, Here, ProcSectors, ClickOk, Apart, AllInPlace, EndsBelow, Ceil, Loads,
      Elsewhere, l.SomeUnreadable, Modest;
    l.Separate();
    ReadyToPlace(l.mem[..], l, kn0, kn, b, placed, addr, limit);
    ghost var m := l.mem[..];
    vsec', addr', limit' := vsec, addr, limit;
    ok, vsec', p := PlaceProgram(l, e, kn, vsec, addr, limit, b.aout, i, placed);
    if ok {
      PlacedOneMore(m, l.mem[..], l, kn0, kn, b, placed, addr, limit, Placed(Item(e, vsec), addr, p));
      addr' := p.end;
      if i == 0 && kn.flags.high {
        addr', limit' := b.base1, b.limit1;
      }
    }
  }

  /** Load the programs that are found.  If every sector that is asked for can be read, that works
      if and only if the plan is bootable. */
  method ExecImage(l: Loader, imageSize: nat, base0: nat, limit0: nat, base1: nat, limit1: nat,
          selected: seq<Byte> -> bool, cpuOk: Exec -> bool, ghost end: nat)
    returns (ok: bool, process: seq<Process>, ghost placed: seq<Placed>, ghost kn: Kernel)
    requires l.Valid() && NoneFrom(l, end) && AllModest(PlanFrom(l, selected, imageSize, 0, end).items)
    requires base0 + HEADERS <= limit0 <= base1 <= limit1 <= l.mem.Length && base1 % 0x1_0000 == 0
    modifies l, l.buf, l.mem
    ensures var b := Blocks(base0, limit0 - HEADERS, base1, limit1);
            var plan := PlanFrom(l, selected, imageSize, 0, end);
            && l.Valid() && InBlocks(old(l.mem[..]), l.mem[..], b, kn.flags.high)
            && (ok ==> Bootable(l, plan, cpuOk, b))
            && (!ok ==> !Bootable(l, plan, cpuOk, b) || Damaged(l, plan))
            && (ok ==>
                  && Items(placed) == plan.items && process == Processes(placed)
                  && KernelOf(l, plan.items[0]) == Some(kn) && LoadedSoFar(l.mem[..], l, kn, b, placed)
                  && forall j :: 0 <= j < |placed| - 1 && !(j == 0 && kn.flags.high) ==>
                                   StackBelow(placed[j], j, kn, b))
  {
    hide l.Valid, LoadedSoFar, NextPlace, Here, ProcSectors, ClickOf, l.SectorOf, ClickOk, Align, Ceil, l.Unreadable,
      Damaged, Splice, Passed, Bootable, InBlocks, Elsewhere, Loads, StackBelow, KernelOf, PlanFrom, Search, Ahead,
      NoneFrom, AllModest, Modest, l.SomeUnreadable;
    ghost var plan := PlanFrom(l, selected, imageSize, 0, end);
    var b := Blocks(base0, limit0 - HEADERS, base1, limit1);
    l.Separate();
    ghost var m0 := l.mem[..];
    l.RawClear(b.aout, HEADERS);
    HeadersCleared(m0, l.mem[..], b, HEADERS);
    var addr: nat, limit: nat, vsec: nat := base0, b.aout, 0;
    var kernel := Kernel(SECTOR_SIZE, Flags(false, false, false));
    process, placed, kn := [], [], kernel;
    NothingLoaded(l.mem[..], l, cpuOk, kn, b);
    AheadAtFirst(l, selected, imageSize, end);
    assert Items([]) == [];
    while vsec < imageSize
      invariant l.Valid() && process == Processes(placed) && kn == kernel
      invariant Ahead(l, selected, imageSize, end, plan, Items(placed), vsec)
      invariant LoadedSoFar(l.mem[..], l, kn, b, placed) && NextPlace(l, kn, b, placed, addr, limit)
      invariant Passed(l, cpuOk, kn, b, placed) && InBlocks(m0, l.mem[..], b, kn.flags.high)
      invariant placed == [] ==> !kn.flags.high
      decreases imageSize - vsec
    {
      AtMost(l.mem[..], l, kn, b, placed);
      AheadOn(l, selected, imageSize, end, plan, Items(placed), vsec);
      ghost var was, reach := vsec, Search(l, selected, vsec, end).1;
      if |process| == PROCESS_MAX {
        TooMany(l, plan, cpuOk, b);
        return false, process, placed, kn;
      }
      var e;
      ok, vsec, e := NextHeader(l, vsec, selected, end);
      if !ok {
        if Search(l, selected, was, end).0 == None {
          Incomplete(l, plan, cpuOk, b);
        } else {
          DamagedBefore(l, plan, was, reach);
        }
        return false, process, placed, kn;
      }
      ghost var it := Item(e, vsec);
      ModestAt(plan, Items(placed), it);
      if !cpuOk(e) {
        CpuFails(l.mem[..], l, plan, cpuOk, kn, b, placed, addr, limit, it);
        return false, process, placed, kn;
      }
      if process == [] {
        var size := GetClickShift(l, vsec, e);
        KernelIs(l, it);
        if size == None {
          if KernelOf(l, it) == None {
            FirstFails(l, plan, cpuOk, b, it);
          } else {
            DamagedAt(l, plan, vsec);
          }
          return false, process, placed, kn;
        }
        kernel := size.value;
        AlignedStart(base0, kernel.click);
        FirstHere(l, kn, kernel, b, placed, addr, limit);
        addr := Align(addr, kernel.click);
      } else {
        NextHere(l, kn, b, placed, addr, limit);
      }
      var p;
      ghost var start, m1, limit' := addr, l.mem[..], limit;
      HereIs(l, kn, kernel, b, placed, addr, limit);
      ok, vsec, addr, limit, p := LoadNext(l, vsec, e, b, addr, limit, kernel, |process|, placed, kn);
      ElsewhereStep(m0, m1, l.mem[..], b, kn.flags.high, start, limit');
      if !ok {
        if l.SomeUnreadable(it.vsec, ProcSectors(e)) {
          DamagedIn(l, plan, it);
        } else {
          OneFails(m1, l, plan, cpuOk, kn, kernel, b, placed, start, limit', it);
        }
        return false, process, placed, kn;
      }
      ghost var x := Placed(it, start, p);
      OneMorePassed(l, cpuOk, kn, kernel, b, placed, x, start, limit');
      MoreBlocks(m0, l.mem[..], b, kn.flags.high, kernel.flags.high);
      assert Items(placed + [x]) == Items(placed) + [it];
      kn := kernel;
      placed := placed + [x];
      process := process + [p];
    }
    AheadAtLast(l, selected, imageSize, end, plan, Items(placed), vsec);
    AllPassed(l.mem[..], l, plan, cpuOk, kn, b, placed);
    StacksBelow(l.mem[..], l, cpuOk, kn, b, placed);
    if placed != [] {
      KernelPassed(l, cpuOk, kn, b, placed);
    }
    ok := process != [];
  }

  lemma NothingLoaded(m: seq<Byte>, l: Loader, cpuOk: Exec -> bool, kn: Kernel, b: Blocks)
    ensures LoadedSoFar(m, l, kn, b, []) && NextPlace(l, kn, b, [], b.base0, b.aout) && Passed(l, cpuOk, kn, b, [])
  {
  }

  lemma AtMost(m: seq<Byte>, l: Loader, kn: Kernel, b: Blocks, placed: seq<Placed>)
    requires LoadedSoFar(m, l, kn, b, placed)
    ensures |placed| <= PROCESS_MAX && |Items(placed)| == |placed|
  {
  }

  lemma TooMany(l: Loader, plan: Plan, cpuOk: Exec -> bool, b: Blocks)
    requires AllModest(plan.items) && (|plan.items| > PROCESS_MAX || !plan.complete)
    ensures !Bootable(l, plan, cpuOk, b)
  {
  }

  lemma Incomplete(l: Loader, plan: Plan, cpuOk: Exec -> bool, b: Blocks)
    requires AllModest(plan.items) && !plan.complete
    ensures !Bootable(l, plan, cpuOk, b)
  {
  }

  lemma CpuFails(m: seq<Byte>, l: Loader, plan: Plan, cpuOk: Exec -> bool, kn: Kernel, b: Blocks, placed: seq<Placed>,
          addr: nat, limit: nat, it: Item)
    requires LoadedSoFar(m, l, kn, b, placed) && Passed(l, cpuOk, kn, b, placed)
    requires NextPlace(l, kn, b, placed, addr, limit)
    requires AllModest(plan.items) && Items(placed) + [it] <= plan.items && !cpuOk(it.e)
    ensures !Bootable(l, plan, cpuOk, b)
  {
    hide LoadedSoFar, Passed, NextPlace, Bootable, AllModest, KernelOf;
    FirstItems(placed, it, plan.items);
    if placed == [] {
      FirstFails(l, plan, cpuOk, b, it);
    } else {
      NextHere(l, kn, b, placed, addr, limit);
      OneFails(m, l, plan, cpuOk, kn, kn, b, placed, addr, limit, it);
    }
  }

  lemma KernelIs(l: Loader, it: Item)
    ensures KernelOf(l, it) == ClickOf(l.SectorOf(it.vsec), it.e)
  {
  }

  lemma FirstHere(l: Loader, kn0: Kernel, kn: Kernel, b: Blocks, placed: seq<Placed>, addr: nat, limit: nat)
    requires NextPlace(l, kn0, b, placed, addr, limit) && placed == [] && ClickOk(kn.click)
    requires Align(b.base0, kn.click) == Ceil(b.base0, kn.click) >= 0
    ensures addr == b.base0 && Here(l, kn0, kn, b, placed, Align(addr, kn.click), limit)
  {
    hide Ceil, Align, ClickOk;
  }

  lemma NextHere(l: Loader, kn: Kernel, b: Blocks, placed: seq<Placed>, addr: nat, limit: nat)
    requires NextPlace(l, kn, b, placed, addr, limit) && placed != []
    ensures Here(l, kn, kn, b, placed, addr, limit) && ClickOk(kn.click)
  {
  }

  lemma KernelPassed(l: Loader, cpuOk: Exec -> bool, kn: Kernel, b: Blocks, placed: seq<Placed>)
    requires Passed(l, cpuOk, kn, b, placed) && placed != []
    ensures KernelOf(l, Items(placed)[0]) == Some(kn)
  {
    hide KernelOf, Loads;
    assert Items(placed)[0] == placed[0].item;
  }
}
