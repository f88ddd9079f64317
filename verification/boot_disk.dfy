/** Loading an image that installboot made: what exec_image finds of it, and that each program is
    in memory as it is in its file. */
module BootDisk {
  import opened Options
  import opened Arithmetic
  import opened BootBytes
  import opened BootImage
  import opened BootLoader
  import opened BootExec
  import opened BootWalk
  import opened BootPlan
  import opened BootLoad

  /** The loader reads the image of `ps`, whatever is behind it. */
  ghost predicate OnDisk(l: Loader, ps: seq<Program>, imageSize: nat) {
    && AllLoadable(ps) && Image(ps).Some?
    && imageSize == Offset(ps, |ps|)
    && l.AllThere(0, imageSize)
    && l.Bytes(0, SECTOR_SIZE * imageSize) == Image(ps).value
  }

  lemma OnDiskIs(l: Loader, ps: seq<Program>, imageSize: nat, k: nat)
    requires OnDisk(l, ps, imageSize) && k < |ps|
    ensures AllLoadable(ps) && Loadable(ps[k]) && Image(ps).Some?
    ensures Offset(ps, k + 1) == Offset(ps, k) + 1 + ProcSectors(HeaderOf(ps[k]))
    ensures l.Bytes(0, SECTOR_SIZE * imageSize) == Image(ps).value
    ensures l.AllThere(0, imageSize)
  {
    hide Loadable, HeaderOf, Image, l.Bytes, ProcSectors, l.There;
  }

  // The headers.

  /** Walking the image in steps of whole programs lands on the headers. */
  lemma HeaderAt(l: Loader, ps: seq<Program>, imageSize: nat, k: nat)
    requires OnDisk(l, ps, imageSize) && k < |ps|
    ensures Loadable(ps[k]) && Offset(ps, k) < Offset(ps, k + 1) <= imageSize
    ensures Offset(ps, k + 1) == Offset(ps, k) + 1 + ProcSectors(HeaderOf(ps[k]))
    ensures l.SectorOf(Offset(ps, k)) == HeaderSector(ps[k], ExecOf(ps[k].file).value)
    ensures l.Bytes(Offset(ps, k) + 1, |Body(ps[k])|) == Body(ps[k])
  {
    hide Complete, HeaderOf, ImageOf, l.SectorOf, Body, HeaderSector, ProcSectors, ExecOf, OnDisk, AllLoadable, Offset,
      l.Bytes, Image, l.There;
    var p := ps[k];
    OnDiskIs(l, ps, imageSize, k);
    LoadableComplete(p);
    ImageParts(p);
    ProgramAt(ps, k);
    ProgramAt(ps, k + 1);
    var image, o := Image(ps).value, Offset(ps, k);
    var sector, body := HeaderSector(p, ExecOf(p.file).value), Body(p);
    ImageFrom(ps, k);
    var rest := Image(ps[k + 1..]).value;
    assert image[SECTOR_SIZE * o..] == sector + body + rest;
    Slice(image, SECTOR_SIZE * o, sector, body, rest);
    BytesAt(l, SECTOR_SIZE * imageSize, o, SECTOR_SIZE);
    BytesAt(l, SECTOR_SIZE * imageSize, o + 1, |body|);
    OneSector(l, o);
  }

  lemma Slice(m: seq<Byte>, at: nat, a: seq<Byte>, b: seq<Byte>, c: seq<Byte>)
    requires at <= |m| && m[at..] == a + b + c
    ensures at + |a| + |b| <= |m| && m[at..at + |a|] == a && m[at + |a|..at + |a| + |b|] == b
  {
    assert m[at..at + |a|] == m[at..][..|a|];
    assert m[at + |a|..at + |a| + |b|] == m[at..][|a|..|a| + |b|];
  }

  lemma BytesAt(l: Loader, n: nat, v: nat, b: nat)
    requires SECTOR_SIZE * v + b <= n
    ensures l.Bytes(0, n)[SECTOR_SIZE * v..SECTOR_SIZE * v + b] == l.Bytes(v, b)
  {
    hide l.SectorOf;
    var all, part := l.Bytes(0, n), l.Bytes(v, b);
    forall k | 0 <= k < b
      ensures all[SECTOR_SIZE * v + k] == part[k]
    {
      assert (SECTOR_SIZE * v + k) / SECTOR_SIZE == v + k / SECTOR_SIZE &&
        (SECTOR_SIZE * v + k) % SECTOR_SIZE == k % SECTOR_SIZE;
    }
  }

  lemma OneSector(l: Loader, v: nat)
    ensures l.Bytes(v, SECTOR_SIZE) == l.SectorOf(v)
  {
  }

  lemma HeaderIs(p: Program)
    requires Loadable(p)
    ensures var s := HeaderSector(p, ExecOf(p.file).value);
            && HeaderIn(s) == HeaderOf(p) && NameIn(s) == p.name && GoodMagic(HeaderOf(p)) && Modest(HeaderOf(p))
            && ProcSize(HeaderOf(p)) == ProcSectors(HeaderOf(p))
  {
    hide HeaderSector, ProcSize, ProcSectors, Has, Long, CString;
    var e := ExecOf(p.file).value;
    var s := HeaderSector(p, e);
    HeaderFields(p, e);
    var after := s[|p.name| + 1..HEADER_SIZE];
    NameEnds(p, e);
    assert s[..HEADER_SIZE] == p.name + [0] + after;
    CStringOf(p.name, after);
    StripSizes(e);
    StripKeeps(e);
    ProcSizeIsWhatIsRead(HeaderOf(p), Flags(false, true, false));
  }

  lemma NameEnds(p: Program, e: Exec)
    requires |p.name| <= BASENAME_MAX
    ensures HeaderSector(p, e)[..|p.name|] == p.name && HeaderSector(p, e)[|p.name|] == 0
  {
    hide Strip;
  }

  /** What is found at the header of program `k`. */
  lemma FoundAt(l: Loader, ps: seq<Program>, imageSize: nat, k: nat)
    requires OnDisk(l, ps, imageSize) && k < |ps|
    ensures var s := l.SectorOf(Offset(ps, k));
            && Loadable(ps[k]) && IsHeader(l, Offset(ps, k)) && Offset(ps, k) < imageSize
            && HeaderIn(s) == HeaderOf(ps[k]) && NameIn(s) == ps[k].name
            && Offset(ps, k + 1) == Offset(ps, k) + 1 + ProcSectors(HeaderOf(ps[k]))
            && ProcSize(HeaderOf(ps[k])) == ProcSectors(HeaderOf(ps[k]))
  {
    hide Complete, HeaderOf, ImageOf, l.SectorOf, Body, HeaderSector, ProcSectors, ProcSize, ExecOf, OnDisk,
      AllLoadable, Offset, l.Bytes, Image, HeaderIn, NameIn, GoodMagic, Modest;
    OnDiskIs(l, ps, imageSize, k);
    HeaderAt(l, ps, imageSize, k);
    LoadableComplete(ps[k]);
    HeaderIs(ps[k]);
    assert l.There(Offset(ps, k));
  }

  // The plan.

  /** The programs from `k` on with the proper label, in order. */
  function Chosen(ps: seq<Program>, selected: seq<Byte> -> bool, k: nat): (r: seq<nat>)
    requires k <= |ps|
    ensures forall j :: 0 <= j < |r| ==> k <= r[j] < |ps| && selected(ps[r[j]].name)
    decreases |ps| - k
  {
    if k == |ps| then [] else (if selected(ps[k].name) then [k] else []) + Chosen(ps, selected, k + 1)
  }

  function ItemAt(ps: seq<Program>, k: nat): Item
    requires AllLoadable(ps) && k < |ps|
  {
    Item(HeaderOf(ps[k]), Offset(ps, k) + 1)
  }

  function ItemsOf(ps: seq<Program>, ks: seq<nat>): (r: seq<Item>)
    requires AllLoadable(ps) && forall j :: 0 <= j < |ks| ==> ks[j] < |ps|
    ensures |r| == |ks| && forall j :: 0 <= j < |ks| ==> r[j] == ItemAt(ps, ks[j])
  {
    seq(|ks|, j requires 0 <= j < |ks| => ItemAt(ps, ks[j]))
  }

  predicate LastSelected(ps: seq<Program>, selected: seq<Byte> -> bool) {
    ps != [] ==> selected(ps[|ps| - 1].name)
  }

  /** What is found from program `k` of an image on: its programs with the proper label.  If the last
      one does not have it the search goes on behind the image. */
  ghost function ImagePlan(l: Loader, ps: seq<Program>, selected: seq<Byte> -> bool, imageSize: nat, k: nat, end: nat):
    Plan
    requires AllLoadable(ps) && k <= |ps|
  {
    var items := ItemsOf(ps, Chosen(ps, selected, k));
    var (it, reach) := Search(l, selected, imageSize, end);
    if k == |ps| || LastSelected(ps, selected) then Plan(items, true, imageSize)
    else if it == None then Plan(items, false, reach)
    else Plan(items + [it.value], true, it.value.vsec + ProcSectors(it.value.e))
  }

  lemma {:induction false} PlanIs(l: Loader, ps: seq<Program>, selected: seq<Byte> -> bool, imageSize: nat, k: nat,
          end: nat)
    requires OnDisk(l, ps, imageSize) && AllLoadable(ps) && k <= |ps| && NoneFrom(l, end)
    ensures PlanFrom(l, selected, imageSize, Offset(ps, k), end) == ImagePlan(l, ps, selected, imageSize, k, end)
    decreases |ps| - k
  {
    hide OnDisk, AllLoadable, NoneFrom, Search, PlanFrom, ImagePlan, Offset, HeaderOf, ProcSectors, ProcSize, IsHeader,
      HeaderIn, NameIn, l.SectorOf, Loadable, Chosen;
    if k == |ps| {
      AtEnd(l, ps, selected, imageSize, end);
    } else {
      FoundAt(l, ps, imageSize, k);
      HeaderBefore(l, Offset(ps, k), end);
      SearchOn(l, selected, Offset(ps, k), end);
      PlanOn(l, selected, imageSize, Offset(ps, k), end);
      PlanIs(l, ps, selected, imageSize, k + 1, end);
      if selected(ps[k].name) {
        SelectedNext(l, ps, selected, imageSize, k, end);
      } else if k + 1 < |ps| {
        FoundAt(l, ps, imageSize, k + 1);
        PlanOn(l, selected, imageSize, Offset(ps, k + 1), end);
        SkippedNext(l, ps, selected, imageSize, k, end);
      } else {
        AtEnd(l, ps, selected, imageSize, end);
        LastOne(l, ps, selected, imageSize, end);
      }
    }
  }

  lemma AtEnd(l: Loader, ps: seq<Program>, selected: seq<Byte> -> bool, imageSize: nat, end: nat)
    requires OnDisk(l, ps, imageSize) && AllLoadable(ps)
    ensures Offset(ps, |ps|) == imageSize
    ensures PlanFrom(l, selected, imageSize, imageSize, end) == ImagePlan(l, ps, selected, imageSize, |ps|, end)
  {
    hide AllLoadable, Offset, Search;
  }

  lemma SelectedNext(l: Loader, ps: seq<Program>, selected: seq<Byte> -> bool, imageSize: nat, k: nat, end: nat)
    requires AllLoadable(ps) && k < |ps| && selected(ps[k].name)
    ensures var rest := ImagePlan(l, ps, selected, imageSize, k + 1, end);
            ImagePlan(l, ps, selected, imageSize, k, end) ==
            Plan([ItemAt(ps, k)] + rest.items, rest.complete, rest.reach)
  {
    hide AllLoadable, Search, Offset, HeaderOf, ProcSectors, Loadable;
    var ks := Chosen(ps, selected, k + 1);
    assert Chosen(ps, selected, k) == [k] + ks;
    assert ItemsOf(ps, [k] + ks) == [ItemAt(ps, k)] + ItemsOf(ps, ks);
    forall i: Item
      ensures [ItemAt(ps, k)] + (ItemsOf(ps, ks) + [i]) == [ItemAt(ps, k)] + ItemsOf(ps, ks) + [i]
    {
    }
  }

  lemma SkippedNext(l: Loader, ps: seq<Program>, selected: seq<Byte> -> bool, imageSize: nat, k: nat, end: nat)
    requires AllLoadable(ps) && k + 1 < |ps| && !selected(ps[k].name)
    ensures ImagePlan(l, ps, selected, imageSize, k, end) == ImagePlan(l, ps, selected, imageSize, k + 1, end)
  {
    hide AllLoadable, Search, Offset, HeaderOf, ProcSectors, Loadable;
    assert [] + Chosen(ps, selected, k + 1) == Chosen(ps, selected, k + 1);
  }

  /** Behind an image whose last program is not selected. */
  lemma LastOne(l: Loader, ps: seq<Program>, selected: seq<Byte> -> bool, imageSize: nat, end: nat)
    requires AllLoadable(ps) && ps != [] && !selected(ps[|ps| - 1].name)
    ensures var (it, reach) := Search(l, selected, imageSize, end);
            ImagePlan(l, ps, selected, imageSize, |ps| - 1, end) ==
            if it == None then Plan([], false, reach)
            else Plan([it.value], true, it.value.vsec + ProcSectors(it.value.e))
    ensures forall v :: v >= imageSize ==> PlanFrom(l, selected, imageSize, v, end) == Plan([], true, v)
    ensures forall i: Item :: [i] + [] == [i]
  {
    hide AllLoadable, Search, Offset, HeaderOf, ProcSectors, Loadable;
    assert Chosen(ps, selected, |ps|) == [];
    assert Chosen(ps, selected, |ps| - 1) == [];
    forall i: Item
      ensures [] + [i] == [i]
    {
    }
  }

  /** The whole image. */
  lemma PlanOfImage(l: Loader, ps: seq<Program>, selected: seq<Byte> -> bool, imageSize: nat, end: nat)
    requires OnDisk(l, ps, imageSize) && AllLoadable(ps) && NoneFrom(l, end)
    ensures PlanFrom(l, selected, imageSize, 0, end) == ImagePlan(l, ps, selected, imageSize, 0, end)
    ensures AllModest(ItemsOf(ps, Chosen(ps, selected, 0)))
  {
    hide OnDisk, AllLoadable, NoneFrom, PlanFrom, ImagePlan, HeaderOf, ProcSectors, Modest;
    PlanIs(l, ps, selected, imageSize, 0, end);
    ItemsModest(ps, Chosen(ps, selected, 0));
  }

  lemma ItemsModest(ps: seq<Program>, ks: seq<nat>)
    requires AllLoadable(ps) && forall j :: 0 <= j < |ks| ==> ks[j] < |ps|
    ensures AllModest(ItemsOf(ps, ks))
  {
    hide Offset, Complete, HeaderOf, Sized;
    forall j | 0 <= j < |ks|
      ensures Modest(ItemsOf(ps, ks)[j].e)
    {
      assert Loadable(ps[ks[j]]);
    }
  }

  // When the image can be loaded.

  /** The click size and the flags in the text of the kernel. */
  function KernelIn(p: Program): Option<Kernel>
    requires Loadable(p) && |Body(p)| >= SECTOR_SIZE
  {
    ClickOf(Body(p)[..SECTOR_SIZE], HeaderOf(p))
  }

  /** A kernel that is not empty tells these itself. */
  lemma KernelInFile(l: Loader, ps: seq<Program>, imageSize: nat, k: nat)
    requires OnDisk(l, ps, imageSize) && AllLoadable(ps) && k < |ps| && Loadable(ps[k]) && |Body(ps[k])| >= SECTOR_SIZE
    ensures KernelOf(l, ItemAt(ps, k)) == KernelIn(ps[k])
  {
    hide OnDisk, AllLoadable, Loadable, HeaderOf, Offset, Body, ClickOf, l.SectorOf, HeaderSector, ExecOf, l.Bytes,
      ProcSectors;
    HeaderAt(l, ps, imageSize, k);
    LoadableComplete(ps[k]);
    var v, n := Offset(ps, k) + 1, |Body(ps[k])|;
    BytesStart(l, v, SECTOR_SIZE, n);
    OneSector(l, v);
  }

  lemma BytesStart(l: Loader, v: nat, a: nat, n: nat)
    requires a <= n
    ensures l.Bytes(v, n)[..a] == l.Bytes(v, a)
  {
    hide l.SectorOf;
  }

  /** The processor will do for each program and there is room for it. */
  predicate AllFit(items: seq<Item>, cpuOk: Exec -> bool, kn: Kernel, b: Blocks)
    requires AllModest(items) && ClickOk(kn.click)
  {
    forall j :: 0 <= j < |items| ==> Fits(items, j, cpuOk, kn, b)
  }

  predicate Fits(items: seq<Item>, j: nat, cpuOk: Exec -> bool, kn: Kernel, b: Blocks)
    requires AllModest(items) && ClickOk(kn.click) && j < |items|
  {
    cpuOk(items[j].e) && RoomFor(items[j].e, j, kn.flags, StartOf(items, j, kn, b), LimitOf(j, kn, b), kn.click)
  }

  /** An image whose last program is selected is bootable if and only if its programs are: how long
      the file or the device is that it is in makes no difference. */
  lemma ImageBootable(l: Loader, ps: seq<Program>, selected: seq<Byte> -> bool, imageSize: nat, end: nat,
          cpuOk: Exec -> bool, b: Blocks)
    requires OnDisk(l, ps, imageSize) && AllLoadable(ps) && NoneFrom(l, end) && LastSelected(ps, selected)
    ensures var plan, items := PlanFrom(l, selected, imageSize, 0, end), ItemsOf(ps, Chosen(ps, selected, 0));
            && plan == Plan(items, true, imageSize) && AllModest(items)
            && (Bootable(l, plan, cpuOk, b) <==>
                && 0 < |items| <= PROCESS_MAX && KernelOf(l, items[0]).Some?
                && ClickOk(KernelOf(l, items[0]).value.click)
                && AllFit(items, cpuOk, KernelOf(l, items[0]).value, b))
  {
    hide OnDisk, AllLoadable, NoneFrom, PlanFrom, HeaderOf, ProcSectors, Modest, Loads, KernelOf, RoomFor, l.AllThere,
      ItemAt, ClickOk;
    var ks := Chosen(ps, selected, 0);
    var items := ItemsOf(ps, ks);
    PlanOfImage(l, ps, selected, imageSize, end);
    if items != [] && KernelOf(l, items[0]).Some? {
      KernelClick(l, items[0]);
      var kn := KernelOf(l, items[0]).value;
      forall j | 0 <= j < |items|
        ensures ProgramFits(l, items, j, cpuOk, kn, b) == Fits(items, j, cpuOk, kn, b)
      {
        AllThereIn(l, ps, imageSize, ks[j]);
        LoadsIs(l, items[j], j, kn, StartOf(items, j, kn, b), LimitOf(j, kn, b));
      }
    }
  }

  lemma LoadsIs(l: Loader, it: Item, j: nat, kn: Kernel, addr: nat, limit: nat)
    requires ClickOk(kn.click) && l.AllThere(it.vsec, ProcSectors(it.e))
    ensures Loads(l, it, j, kn, addr, limit) == RoomFor(it.e, j, kn.flags, addr, limit, kn.click)
  {
    hide ClickOk, RoomFor, l.There;
  }

  lemma AllThereIn(l: Loader, ps: seq<Program>, imageSize: nat, k: nat)
    requires OnDisk(l, ps, imageSize) && AllLoadable(ps) && k < |ps|
    ensures l.AllThere(ItemAt(ps, k).vsec, ProcSectors(ItemAt(ps, k).e))
  {
    hide OnDisk, AllLoadable, HeaderOf, Offset, ProcSectors, l.There, l.SectorOf, HeaderSector, ExecOf, Body, l.Bytes;
    OnDiskIs(l, ps, imageSize, k);
    HeaderAt(l, ps, imageSize, k);
  }

  /** What must not be damaged is the image, and the sector behind it if that is asked for the click
      size of an empty kernel. */
  lemma DamagedImage(l: Loader, ps: seq<Program>, selected: seq<Byte> -> bool, imageSize: nat, end: nat)
    requires OnDisk(l, ps, imageSize) && AllLoadable(ps) && NoneFrom(l, end) && LastSelected(ps, selected)
    ensures var items := ItemsOf(ps, Chosen(ps, selected, 0));
            Damaged(l, PlanFrom(l, selected, imageSize, 0, end)) <==>
            l.SomeUnreadable(0, imageSize) || (items != [] && items[0].vsec == imageSize && l.Unreadable(imageSize))
  {
    hide OnDisk, AllLoadable, NoneFrom, PlanFrom, HeaderOf, ProcSectors, Modest, Search, l.Unreadable, Damaged,
      ItemAt, Offset, Chosen;
    var ks := Chosen(ps, selected, 0);
    var items := ItemsOf(ps, ks);
    PlanOfImage(l, ps, selected, imageSize, end);
    if items != [] {
      HeaderAt(l, ps, imageSize, ks[0]);
      ItemIs(ps, ks[0]);
    }
    DamagedIs(l, Plan(items, true, imageSize));
  }

  lemma DamagedIs(l: Loader, plan: Plan)
    requires plan.items != [] ==> plan.items[0].vsec <= plan.reach
    ensures Damaged(l, plan) <==>
            l.SomeUnreadable(0, plan.reach) ||
            (plan.items != [] && plan.items[0].vsec == plan.reach && l.Unreadable(plan.reach))
  {
    hide l.Unreadable;
    if l.SomeUnreadable(0, plan.reach) {
      var v :| 0 <= v < 0 + plan.reach && l.Unreadable(v);
      DamagedAt(l, plan, v);
    }
    if plan.items != [] && plan.items[0].vsec == plan.reach && l.Unreadable(plan.reach) {
      DamagedAt(l, plan, plan.reach);
    }
  }

  /** The programs in memory are those of the files, in order. */
  lemma AsInFiles(m: seq<Byte>, l: Loader, ps: seq<Program>, selected: seq<Byte> -> bool, imageSize: nat, end: nat,
          kn: Kernel, b: Blocks, placed: seq<Placed>, j: nat)
    requires OnDisk(l, ps, imageSize) && AllLoadable(ps) && NoneFrom(l, end) && LastSelected(ps, selected)
    requires Items(placed) == PlanFrom(l, selected, imageSize, 0, end).items && LoadedSoFar(m, l, kn, b, placed)
    requires j < |placed|
    ensures var ks := Chosen(ps, selected, 0);
            && |placed| == |ks| && Loadable(ps[ks[j]]) && ClickOk(kn.click) && Sized(HeaderOf(ps[ks[j]]), kn.flags)
            && var w, at := Wanted(ps[ks[j]], j, kn.flags, kn.click), placed[j].start;
               && at + |w| <= |m| && m[at..at + |w|] == w
               && var text, data, where := TextOf(ps[ks[j]]), DataOf(ps[ks[j]]), placed[j].process.data;
                  && m[at..at + |text|] == text
                  && 0 <= where && where + |data| <= |m| && m[where..where + |data|] == data
  {
    hide OnDisk, AllLoadable, NoneFrom, PlanFrom, HeaderOf, ProcSectors, Modest, ClickOk, Offset, Wanted, InRow,
      Contents, Body, DataAddr, End, SavedHeader, HeaderSector, ExecOf, l.Bytes, l.SectorOf, ItemAt, Loadable;
    var ks := Chosen(ps, selected, 0);
    ImagePlanItems(l, ps, selected, imageSize, end);
    assert |Items(placed)| == |placed|;
    var k := ks[j];
    assert placed[j].item == Items(placed)[j] == ItemAt(ps, k);
    HeaderAt(l, ps, imageSize, k);
    LoadableComplete(ps[k]);
    assert InPlace(m, l, kn, b.aout, j, placed[j]);
    ItemIs(ps, k);
    ModestSized(HeaderOf(ps[k]), kn.flags);
    LoadedAsWanted(l, ps[k], j, kn.flags, Offset(ps, k) + 1, kn.click);
    DataAt(ps[k], j, kn, placed[j].start, m);
  }

  /** The text is where the program starts, and the data where its field says. */
  lemma DataAt(p: Program, j: nat, kn: Kernel, addr: nat, m: seq<Byte>)
    requires Loadable(p) && Sized(HeaderOf(p), kn.flags) && ClickOk(kn.click)
    requires var w := Wanted(p, j, kn.flags, kn.click); addr + |w| <= |m| && m[addr..addr + |w|] == w
    ensures var at := DataAddr(HeaderOf(p), addr, kn.click);
            && addr + |TextOf(p)| <= |m| && m[addr..addr + |TextOf(p)|] == TextOf(p)
            && 0 <= at && at + |DataOf(p)| <= |m| && m[at..at + |DataOf(p)|] == DataOf(p)
  {
    hide Wanted, ClickOk, Loadable, Sized, HeaderOf, Complete, TextOf, DataOf, DataAddr, Room;
    LoadableComplete(p);
    var pad, clear := WantedParts(p, j, kn, addr);
    PartsAt(m, addr, TextOf(p), Zeros(pad), DataOf(p), Zeros(clear));
  }

  lemma WantedParts(p: Program, j: nat, kn: Kernel, addr: nat) returns (pad: nat, clear: nat)
    requires Loadable(p) && Sized(HeaderOf(p), kn.flags) && ClickOk(kn.click)
    ensures Wanted(p, j, kn.flags, kn.click) == TextOf(p) + Zeros(pad) + DataOf(p) + Zeros(clear)
    ensures DataAddr(HeaderOf(p), addr, kn.click) == addr + |TextOf(p)| + pad
  {
    hide Has, Long, Ceil, ClickOk, Strip, ExecOf, Body, Padded, Loadable, Segments, Sized, HeaderOf, TextLen, BssSize;
    LoadableComplete(p);
    FileParts(p);
    var e := HeaderOf(p);
    BssRoom(e, j, kn.flags, kn.click);
    RoomHolds(|TextOf(p)|, kn.click);
    clear := Ceil(DataSize(e) + BssSize(e, j, kn.flags), kn.click) - DataSize(e);
    if Has(e, A_SEP) {
      pad := Room(|TextOf(p)|, kn.click) - |TextOf(p)|;
    } else {
      pad := 0;
      assert TextOf(p) + Zeros(0) == TextOf(p);
    }
  }

  lemma PartsAt(m: seq<Byte>, at: nat, a: seq<Byte>, b: seq<Byte>, c: seq<Byte>, d: seq<Byte>)
    requires at + |a + b + c + d| <= |m| && m[at..at + |a + b + c + d|] == a + b + c + d
    ensures m[at..at + |a|] == a && m[at + |a| + |b|..at + |a| + |b| + |c|] == c
  {
    var w := a + b + c + d;
    assert w[..|a|] == a;
    assert w[|a| + |b|..|a| + |b| + |c|] == c;
    SlicedTwice(m, at, |w|, 0, |a|);
    SlicedTwice(m, at, |w|, |a| + |b|, |a| + |b| + |c|);
  }

  lemma SlicedTwice(m: seq<Byte>, at: nat, n: nat, from: nat, to: nat)
    requires at + n <= |m| && from <= to <= n
    ensures m[at..at + n][from..to] == m[at + from..at + to]
  {
    var a, b := m[at..at + n][from..to], m[at + from..at + to];
    forall k | 0 <= k < to - from
      ensures a[k] == b[k]
    {
    }
  }

  lemma ItemIs(ps: seq<Program>, k: nat)
    requires AllLoadable(ps) && k < |ps|
    ensures Loadable(ps[k]) && ItemAt(ps, k) == Item(HeaderOf(ps[k]), Offset(ps, k) + 1) && Modest(HeaderOf(ps[k]))
  {
    hide Complete, HeaderOf, Offset, Sized;
  }

  lemma ImagePlanItems(l: Loader, ps: seq<Program>, selected: seq<Byte> -> bool, imageSize: nat, end: nat)
    requires OnDisk(l, ps, imageSize) && AllLoadable(ps) && NoneFrom(l, end) && LastSelected(ps, selected)
    ensures PlanFrom(l, selected, imageSize, 0, end).items == ItemsOf(ps, Chosen(ps, selected, 0))
  {
    hide OnDisk, AllLoadable, NoneFrom, PlanFrom, HeaderOf, ProcSectors, Modest, Search;
    PlanOfImage(l, ps, selected, imageSize, end);
  }

  // An image with one program more, which is not selected.

  lemma {:induction false} OffsetSame(ps: seq<Program>, p: Program, k: nat)
    requires AllLoadable(ps) && AllLoadable(ps + [p]) && k <= |ps|
    ensures Offset(ps + [p], k) == Offset(ps, k)
    decreases k
  {
    hide AllLoadable, HeaderOf, ProcSectors, Loadable;
    if k > 0 {
      OffsetSame(ps, p, k - 1);
      assert (ps + [p])[k - 1] == ps[k - 1];
    }
  }

  lemma {:induction false} ChosenSame(ps: seq<Program>, p: Program, selected: seq<Byte> -> bool, k: nat)
    requires k <= |ps| && !selected(p.name)
    ensures Chosen(ps + [p], selected, k) == Chosen(ps, selected, k)
    decreases |ps| - k
  {
    hide Chosen;
    ChosenOn(ps, selected, k);
    ChosenOn(ps + [p], selected, k);
    if k < |ps| {
      ChosenSame(ps, p, selected, k + 1);
      assert (ps + [p])[k] == ps[k];
    } else {
      ChosenOn(ps + [p], selected, k + 1);
      assert (ps + [p])[k] == p;
    }
  }

  lemma ChosenOn(ps: seq<Program>, selected: seq<Byte> -> bool, k: nat)
    requires k <= |ps|
    ensures Chosen(ps, selected, k) ==
            if k == |ps| then [] else (if selected(ps[k].name) then [k] else []) + Chosen(ps, selected, k + 1)
  {
  }

  lemma ItemsSame(ps: seq<Program>, p: Program, selected: seq<Byte> -> bool)
    requires AllLoadable(ps) && AllLoadable(ps + [p]) && !selected(p.name)
    ensures ItemsOf(ps + [p], Chosen(ps + [p], selected, 0)) == ItemsOf(ps, Chosen(ps, selected, 0))
  {
    hide AllLoadable, HeaderOf, ProcSectors, Loadable, Offset;
    ChosenSame(ps, p, selected, 0);
    var ks := Chosen(ps, selected, 0);
    forall j | 0 <= j < |ks|
      ensures ItemAt(ps + [p], ks[j]) == ItemAt(ps, ks[j])
    {
      OffsetSame(ps, p, ks[j]);
      assert (ps + [p])[ks[j]] == ps[ks[j]];
    }
  }

  /** The programs to be loaded are the same, but the monitor does not stop where the image does: it
      loads one program more, from behind the image, or, if nothing there looks like one, fails. */
  lemma UnselectedLast(l: Loader, ps: seq<Program>, imageSize: nat, end: nat, l': Loader, p: Program, imageSize': nat,
          end': nat, selected: seq<Byte> -> bool, cpuOk: Exec -> bool, b: Blocks)
    requires OnDisk(l, ps, imageSize) && AllLoadable(ps) && NoneFrom(l, end) && LastSelected(ps, selected)
    requires OnDisk(l', ps + [p], imageSize') && AllLoadable(ps + [p]) && NoneFrom(l', end') && !selected(p.name)
    ensures var plan, plan' := PlanFrom(l, selected, imageSize, 0, end), PlanFrom(l', selected, imageSize', 0, end');
            var more := Search(l', selected, imageSize', end').0;
            && plan.complete && (plan'.complete <==> more.Some?)
            && plan'.items == plan.items + (if more.Some? then [more.value] else [])
            && (more == None ==> AllModest(plan'.items) && !Bootable(l', plan', cpuOk, b))
            && (!IsHeader(l', imageSize') ==> more == None)
  {
    hide OnDisk, AllLoadable, NoneFrom, PlanFrom, HeaderOf, ProcSectors, Modest, Search, ItemAt, Chosen, IsHeader;
    var qs := ps + [p];
    PlanOfImage(l, ps, selected, imageSize, end);
    PlanOfImage(l', qs, selected, imageSize', end');
    ItemsSame(ps, p, selected);
    SearchOn(l', selected, imageSize', end');
    assert qs[|qs| - 1] == p;
    var items := ItemsOf(ps, Chosen(ps, selected, 0));
    assert items + [] == items;
  }

  // Images and bootable images there are.

  function SectorIn(image: seq<Byte>, v: nat): Sector {
    if SECTOR_SIZE * (v + 1) <= |image| then image[SECTOR_SIZE * v..SECTOR_SIZE * (v + 1)] else Zeros(SECTOR_SIZE)
  }

  /** Every image of such programs can be on a disk, and nothing behind it. */
  method DiskOf(ps: seq<Program>, mem: array<Byte>) returns (l: Loader)
    requires AllLoadable(ps) && Offset(ps, |ps|) + SECBUFS < WORD && mem.Length <= MEMORY_MAX
    ensures l.Valid() && OnDisk(l, ps, Offset(ps, |ps|)) && NoneFrom(l, Offset(ps, |ps|)) && l.mem == mem
  {
    hide Offset, AllLoadable, OnDisk, NoneFrom, SectorIn, Image;
    ImageLength(ps);
    var image, n := Image(ps).value, Offset(ps, |ps|);
    var disk: nat -> Sector := s => SectorIn(image, if s > 0 then s - 1 else 0);
    l := new Loader(disk, v => if v < n then Some(v + 1) else None, _ => false, (_, _) => false, mem);
    ImageOnDisk(l, ps);
  }

  lemma ImageOnDisk(l: Loader, ps: seq<Program>)
    requires AllLoadable(ps) && Image(ps).Some?
    requires forall v: nat :: l.vir2sec(v) == if v < Offset(ps, |ps|) then Some(v + 1) else None
    requires forall v: nat :: v > 0 ==> l.disk(v) == SectorIn(Image(ps).value, v - 1)
    ensures OnDisk(l, ps, Offset(ps, |ps|)) && NoneFrom(l, Offset(ps, |ps|))
  {
    hide Offset, AllLoadable, l.Bytes, GoodMagic, Image, HeaderIn;
    ImageLength(ps);
    var image, n := Image(ps).value, Offset(ps, |ps|);
    forall v | 0 <= v < n
      ensures l.SectorOf(v) == image[SECTOR_SIZE * v..SECTOR_SIZE * (v + 1)]
    {
      assert l.vir2sec(v) == Some(v + 1);
    }
    Sectorwise(l, image, n);
  }

  lemma ImageLength(ps: seq<Program>)
    requires AllLoadable(ps)
    ensures Image(ps).Some? && |Image(ps).value| == SECTOR_SIZE * Offset(ps, |ps|)
  {
    hide Image, Offset, AllLoadable;
    ProgramAt(ps, |ps|);
    assert ps[|ps|..] == [];
    EmptyImage();
  }

  lemma EmptyImage()
    ensures Image([]) == Some([])
  {
  }

  lemma Sectorwise(l: Loader, image: seq<Byte>, n: nat)
    requires |image| == SECTOR_SIZE * n
    requires forall v :: 0 <= v < n ==> l.SectorOf(v) == image[SECTOR_SIZE * v..SECTOR_SIZE * (v + 1)]
    ensures l.Bytes(0, SECTOR_SIZE * n) == image
  {
    hide l.SectorOf;
    forall k | 0 <= k < SECTOR_SIZE * n
      ensures l.Bytes(0, SECTOR_SIZE * n)[k] == image[k]
    {
      var v, r := k / SECTOR_SIZE, k % SECTOR_SIZE;
      assert l.SectorOf(v)[r] == image[SECTOR_SIZE * v..SECTOR_SIZE * (v + 1)][r];
    }
  }

  /** A program of six bytes of text, which asks for `lo + 256 * hi` bytes of memory.  As a kernel it
      has clicks of 256 bytes and the given features. */
  function Tiny(name: seq<Byte>, lo: Byte, hi: Byte, features: Byte): Program {
    Program(name, [1, 3, 0, 0, 32, 0, 0, 0, 6, 0, 0, 0] + Zeros(12) + [lo, hi, 0, 0] + Zeros(4)
                  + [0, 0, 8, 0, features, 0])
  }

  predicate TinyOk(name: seq<Byte>, lo: Byte, hi: Byte) {
    |name| <= BASENAME_MAX && 0 !in name && lo as int + 256 * hi as int >= 6
  }

  lemma TinyExec(name: seq<Byte>, lo: Byte, hi: Byte, features: Byte)
    ensures var e := ExecOf(Tiny(name, lo, hi, features).file);
            && e.Some? && Start(e.value) == 32
            && !Has(e.value, A_SEP) && !Has(e.value, A_PAL) && !Has(e.value, A_NSYM)
            && Text(e.value) == 6 && Data(e.value) == 0 == Bss(e.value)
            && Total(e.value) == lo as int + 256 * hi as int
  {
  }

  lemma TinyHeader(name: seq<Byte>, lo: Byte, hi: Byte, features: Byte)
    requires TinyOk(name, lo, hi)
    ensures Loadable(Tiny(name, lo, hi, features))
    ensures var e := HeaderOf(Tiny(name, lo, hi, features));
            && !Has(e, A_SEP) && !Has(e, A_PAL) && TextLen(e) == 6 == Text(e) && Data(e) == 0 && Bss(e) == 0
            && Total(e) == lo as int + 256 * hi as int && ProcSectors(e) == 1
  {
    hide Has, Long, Strip, ExecOf;
    TinyExec(name, lo, hi, features);
    StripSizes(ExecOf(Tiny(name, lo, hi, features).file).value);
  }

  lemma TinyBody(name: seq<Byte>, lo: Byte, hi: Byte, claim: bool, chmem: bool, high: bool, features: Byte)
    requires TinyOk(name, lo, hi) && features as nat == Features(false, claim, chmem, high, 0)
    requires Loadable(Tiny(name, lo, hi, features))
    ensures |Body(Tiny(name, lo, hi, features))| == SECTOR_SIZE
    ensures KernelIn(Tiny(name, lo, hi, features)) == Some(Kernel(256, Flags(claim, chmem, high)))
  {
    hide Has, Long, Strip, ExecOf, Ceil, Padded, ClickOf;
    TinyExec(name, lo, hi, features);
    TinyHeader(name, lo, hi, features);
    var p := Tiny(name, lo, hi, features);
    var file, e := p.file, ExecOf(p.file).value;
    TwoSegments(file, Start(e), e);
    PaddedLength(file, 32, 6);
    CeilUnique(6, SECTOR_SIZE, SECTOR_SIZE);
    assert file[32..38] == [0, 0, 8, 0, features, 0];
    var s := Body(p)[..SECTOR_SIZE];
    assert s[..6] == [0, 0, 8, 0, features, 0];
    assert s[2] == s[..6][2] && s[3] == s[..6][3] && s[4] == s[..6][4] && s[5] == s[..6][5];
    TinySays(s, HeaderOf(p), claim, chmem, high);
    FeaturesTaken(s, HeaderOf(p), 8, false, claim, chmem, high, 0);
    assert Pow2(8) == 256;
  }

  lemma TinySays(s: Sector, e: Exec, claim: bool, chmem: bool, high: bool)
    requires !Has(e, A_PAL) && s[2] == 8 && s[3] == 0 && s[5] == 0
    requires s[4] as nat == Features(false, claim, chmem, high, 0)
    ensures Says(s, e, 8, Features(false, claim, chmem, high, 0))
  {
  }

  /** Is there room for these six bytes? */
  lemma TinyRoom(e: Exec, i: nat, f: Flags, addr: nat, limit: nat)
    requires !Has(e, A_SEP) && TextLen(e) == 6 && Data(e) == 0 && Bss(e) == 0
    ensures ClickOk(256) && (RoomFor(e, i, f, addr, limit, 256) <==> addr + 256 <= limit)
  {
    hide Has, Long, Ceil, TextLen;
    CeilUnique(6, 256, 256);
  }

  /** The image of two such programs, of which the first is the kernel. */
  function Two(lo: Byte, hi: Byte, features: Byte): seq<Program> {
    [Tiny([], lo, hi, features), Tiny([1], 6, 0, 0)]
  }

  lemma TwoItems(lo: Byte, hi: Byte, features: Byte, selected: seq<Byte> -> bool)
    requires lo as int + 256 * hi as int >= 6 && selected([]) && selected([1])
    ensures AllLoadable(Two(lo, hi, features)) && Offset(Two(lo, hi, features), 2) == 4
    ensures Chosen(Two(lo, hi, features), selected, 0) == [0, 1]
  {
    hide Loadable, HeaderOf, ProcSectors, Tiny, Chosen, Offset;
    TinyHeader([], lo, hi, features);
    TinyHeader([1], 6, 0, 0);
    TwoNames(lo, hi, features);
    TinyName([], lo, hi, features);
    var ps := Two(lo, hi, features);
    OffsetOn(ps, 0);
    OffsetOn(ps, 1);
    ChosenOn(ps, selected, 0);
    ChosenOn(ps, selected, 1);
    ChosenOn(ps, selected, 2);
  }

  lemma OffsetOn(ps: seq<Program>, k: nat)
    requires AllLoadable(ps) && k < |ps|
    ensures Offset(ps, 0) == 0 && Offset(ps, k + 1) == Offset(ps, k) + 1 + ProcSectors(HeaderOf(ps[k]))
  {
    hide ProcSectors, HeaderOf, Loadable;
  }

  /** Memory for the first of these programs, as the kernel. */
  function KernelRoom(total: nat, chmem: bool): nat {
    if chmem then Ceil(total, 256) else 256
  }

  predicate IsTiny(it: Item, total: nat) {
    var e := it.e;
    && Modest(e) && !Has(e, A_SEP) && !Has(e, A_PAL) && TextLen(e) == 6 == Text(e) && Data(e) == 0 && Bss(e) == 0
    && Total(e) == total
  }

  lemma FirstFits(items: seq<Item>, cpuOk: Exec -> bool, kn: Kernel, b: Blocks, total: nat)
    requires items != [] && AllModest(items) && kn.click == 256 && ClickOk(256) && IsTiny(items[0], total)
    requires cpuOk(items[0].e)
    ensures Fits(items, 0, cpuOk, kn, b) <==> Ceil(b.base0, 256) + 256 <= b.aout
    ensures End(items[0].e, 0, kn.flags, Ceil(b.base0, 256), 256)
         == Ceil(b.base0, 256) + KernelRoom(total, kn.flags.chmem)
  {
    hide Has, Long, Ceil, TextLen, RoomFor, Modest, AllModest, ClickOk, End;
    ClickDivides(256);
    CeilUnique(6, 256, 256);
    var e, start := items[0].e, Ceil(b.base0, 256);
    TinyRoom(e, 0, kn.flags, start, b.aout);
    TakesTotal(e, 0, kn.flags, start, 256);
  }

  lemma SecondFits(items: seq<Item>, cpuOk: Exec -> bool, kn: Kernel, b: Blocks, total: nat, total': nat)
    requires |items| == 2 && AllModest(items) && kn.click == 256 && ClickOk(256)
    requires IsTiny(items[0], total) && IsTiny(items[1], total') && cpuOk(items[0].e) && cpuOk(items[1].e)
    ensures Fits(items, 1, cpuOk, kn, b) <==>
            if kn.flags.high then b.base1 + 256 <= b.limit1
            else Ceil(b.base0, 256) + KernelRoom(total, kn.flags.chmem) + 256 <= b.aout
  {
    hide Has, Long, Ceil, TextLen, RoomFor, Modest, AllModest, ClickOk, KernelRoom, End;
    FirstFits(items, cpuOk, kn, b, total);
    TinyRoom(items[1].e, 1, kn.flags, StartOf(items, 1, kn, b), LimitOf(1, kn, b));
  }

  lemma TinyItem(ps: seq<Program>, k: nat, name: seq<Byte>, lo: Byte, hi: Byte, features: Byte)
    requires AllLoadable(ps) && k < |ps| && ps[k] == Tiny(name, lo, hi, features) && TinyOk(name, lo, hi)
    ensures IsTiny(ItemAt(ps, k), lo as nat + 256 * hi as nat)
  {
    hide Has, Long, TextLen, HeaderOf, Modest, AllLoadable, Offset, Tiny, Complete, Loadable;
    TinyHeader(name, lo, hi, features);
    ItemIs(ps, k);
  }

  /** Where the second program goes, and how much room there has to be: with K_CHMEM the kernel is
      given all the memory that it asks for, and with K_HIGH the second program has extended memory to
      itself. */
  lemma TwoBoot(l: Loader, lo: Byte, hi: Byte, claim: bool, chmem: bool, high: bool, features: Byte,
          selected: seq<Byte> -> bool, end: nat, cpuOk: Exec -> bool, b: Blocks)
    requires lo as int + 256 * hi as int >= 6 && features as nat == Features(false, claim, chmem, high, 0)
    requires OnDisk(l, Two(lo, hi, features), 4) && NoneFrom(l, end) && selected([]) && selected([1])
    requires forall e :: cpuOk(e)
    ensures var plan, start := PlanFrom(l, selected, 4, 0, end), Ceil(b.base0, 256);
            && AllModest(plan.items)
            && (Bootable(l, plan, cpuOk, b) <==>
                  && start + 256 <= b.aout
                  && if high then b.base1 + 256 <= b.limit1
                     else start + KernelRoom(lo as nat + 256 * hi as nat, chmem) + 256 <= b.aout)
  {
    hide NoneFrom, PlanFrom, HeaderOf, Loadable, Body, Bootable, OnDisk, Modest, Tiny, KernelIn, Ceil, KernelOf, Offset,
      IsTiny, ItemAt, Chosen, Fits, KernelRoom, ClickOk, AllLoadable;
    var ps, total := Two(lo, hi, features), lo as nat + 256 * hi as nat;
    TwoItems(lo, hi, features, selected);
    TinyHeader([], lo, hi, features);
    TinyBody([], lo, hi, claim, chmem, high, features);
    TwoNames(lo, hi, features);
    ImageBootable(l, ps, selected, 4, end, cpuOk, b);
    KernelInFile(l, ps, 4, 0);
    TinyItem(ps, 0, [], lo, hi, features);
    TinyItem(ps, 1, [1], 6, 0, 0);
    var items := ItemsOf(ps, [0, 1]);
    var kn := Kernel(256, Flags(claim, chmem, high));
    KernelClick(l, items[0]);
    FirstFits(items, cpuOk, kn, b, total);
    SecondFits(items, cpuOk, kn, b, total, 6);
    TwoAre(items, cpuOk, kn, b);
  }

  lemma TwoNames(lo: Byte, hi: Byte, features: Byte)
    ensures var ps := Two(lo, hi, features);
            |ps| == 2 && ps[0] == Tiny([], lo, hi, features) && ps[1] == Tiny([1], 6, 0, 0) && ps[1].name == [1]
  {
    TinyName([1], 6, 0, 0);
  }

  lemma TwoAre(items: seq<Item>, cpuOk: Exec -> bool, kn: Kernel, b: Blocks)
    requires |items| == 2 && AllModest(items) && ClickOk(kn.click)
    ensures AllFit(items, cpuOk, kn, b) <==> Fits(items, 0, cpuOk, kn, b) && Fits(items, 1, cpuOk, kn, b)
  {
    hide Fits, Modest, ClickOk;
  }

  /** An image of just a kernel is bootable, where there is room for two clicks. */
  lemma TinyBoots(l: Loader, selected: seq<Byte> -> bool, end: nat, cpuOk: Exec -> bool, b: Blocks)
    requires OnDisk(l, [Tiny([], 6, 0, 0)], 2) && NoneFrom(l, end) && selected([]) && b.base0 + 512 <= b.aout
    requires forall e :: cpuOk(e)
    ensures var plan := PlanFrom(l, selected, 2, 0, end);
            AllModest(plan.items) && Bootable(l, plan, cpuOk, b)
  {
    hide NoneFrom, PlanFrom, HeaderOf, Loadable, Body, Bootable, OnDisk, Modest, Tiny, KernelIn, Ceil, KernelOf, Offset,
      IsTiny, ItemAt, Fits, KernelRoom, ClickOk, AllLoadable;
    var ps := [Tiny([], 6, 0, 0)];
    TinyHeader([], 6, 0, 0);
    TinyBody([], 6, 0, false, false, false, 0);
    TinyName([], 6, 0, 0);
    OneLoadable(ps);
    ImageBootable(l, ps, selected, 2, end, cpuOk, b);
    assert Chosen(ps, selected, 1) == [];
    assert Chosen(ps, selected, 0) == [0];
    KernelInFile(l, ps, 2, 0);
    TinyItem(ps, 0, [], 6, 0, 0);
    var items := ItemsOf(ps, [0]);
    var kn := Kernel(256, Flags(false, false, false));
    KernelClick(l, items[0]);
    CeilBounds(b.base0, 256);
    FirstFits(items, cpuOk, kn, b, 6);
  }

  lemma OneLoadable(ps: seq<Program>)
    requires |ps| == 1 && Loadable(ps[0])
    ensures AllLoadable(ps)
  {
    hide Loadable;
  }

  lemma TinyName(name: seq<Byte>, lo: Byte, hi: Byte, features: Byte)
    ensures Tiny(name, lo, hi, features).name == name
  {
  }
}
