/** What exec_image finds on the disk, wherever that comes from: the headers of the programs that
    are selected, and where it gives up. */
module BootPlan {
  import opened Options
  import opened Arithmetic
  import opened BootBytes
  import opened BootImage
  import opened BootLoader
  import opened BootExec

  /** A program to be loaded: its header, and the sector behind that. */
  datatype Item = Item(e: Exec, vsec: nat)

  function HeaderIn(s: Sector): Exec {
    s[IM_NAME_MAX + 1..HEADER_SIZE]
  }

  /** A name without an end runs on into the header. */
  function NameIn(s: Sector): seq<Byte> {
    CString(s[..HEADER_SIZE])
  }

  predicate IsHeader(l: Loader, vsec: nat) {
    l.There(vsec) && GoodMagic(HeaderIn(l.SectorOf(vsec)))
  }

  /** From sector `end` on nothing looks like a header, if only because the disk ends. */
  ghost predicate NoneFrom(l: Loader, end: nat) {
    forall v :: v >= end ==> !IsHeader(l, v)
  }

  /** The next program that is selected, and up to where headers were looked at. */
  function Search(l: Loader, selected: seq<Byte> -> bool, vsec: nat, end: nat): (r: (Option<Item>, nat))
    ensures r.1 > vsec && (r.0.Some? ==> vsec < r.0.value.vsec == r.1)
    decreases if vsec < end then end - vsec else 0
  {
    var s := l.SectorOf(vsec);
    if vsec >= end || !IsHeader(l, vsec) then (None, vsec + 1)
    else if selected(NameIn(s)) then (Some(Item(HeaderIn(s), vsec + 1)), vsec + 1)
    else
      NatSize(HeaderIn(s));
      Search(l, selected, vsec + 1 + ProcSize(HeaderIn(s)), end)
  }

  lemma NatSize(e: Exec)
    ensures ProcSize(e) >= 0
  {
    hide Long, Has, Word;
    var len := Word(Text(e));
    var len1 := if Has(e, A_PAL) then Word(len + HdrLen(e)) else len;
    var len2 := if Has(e, A_SEP) then Align(len1, SECTOR_SIZE) else len1;
    AlignNat(Word(len2 + Data(e)));
  }

  lemma AlignNat(a: int)
    ensures Align(a, SECTOR_SIZE) >= 0
  {
    hide Ceil;
    AlignIsCeil(a, SECTOR_SIZE);
  }

  /** The programs that are found, whether the loop got to the end of the image, and up to where it
      read the disk. */
  datatype Plan = Plan(items: seq<Item>, complete: bool, reach: nat)

  function PlanFrom(l: Loader, selected: seq<Byte> -> bool, imageSize: nat, vsec: nat, end: nat): (p: Plan)
    ensures p.reach >= vsec
    decreases if vsec < imageSize then imageSize - vsec else 0
  {
    if vsec >= imageSize then Plan([], true, vsec)
    else
      var (it, reach) := Search(l, selected, vsec, end);
      if it == None then Plan([], false, reach)
      else
        var rest := PlanFrom(l, selected, imageSize, it.value.vsec + ProcSectors(it.value.e), end);
        Plan([it.value] + rest.items, rest.complete, rest.reach)
  }

  /** A header with sizes that are not negative or enormous, whatever the flags of the kernel. */
  predicate Modest(e: Exec) {
    Sized(e, Flags(false, true, false))
  }

  lemma ModestSized(e: Exec, f: Flags)
    requires Modest(e)
    ensures Sized(e, f)
  {
  }

  predicate AllModest(items: seq<Item>) {
    forall j :: 0 <= j < |items| ==> Modest(items[j].e)
  }

  /** A sector that is read when this plan is carried out cannot be read. */
  ghost predicate Damaged(l: Loader, plan: Plan) {
    exists v: nat :: (v < plan.reach || (plan.items != [] && v == plan.items[0].vsec)) && l.Unreadable(v)
  }

  lemma DamagedAt(l: Loader, plan: Plan, v: nat)
    requires l.Unreadable(v) && (v < plan.reach || (plan.items != [] && v == plan.items[0].vsec))
    ensures Damaged(l, plan)
  {
  }

  /** One step of the plan. */
  lemma PlanOn(l: Loader, selected: seq<Byte> -> bool, imageSize: nat, vsec: nat, end: nat)
    requires vsec < imageSize
    ensures var (it, reach) := Search(l, selected, vsec, end);
            var plan := PlanFrom(l, selected, imageSize, vsec, end);
            if it == None then plan == Plan([], false, reach)
            else
              var next := it.value.vsec + ProcSectors(it.value.e);
              var rest := PlanFrom(l, selected, imageSize, next, end);
              && plan == Plan([it.value] + rest.items, rest.complete, rest.reach)
              && reach <= next <= rest.reach
  {
    hide Search, ProcSectors;
  }

  // Headers.

  method ReadHeader(l: Loader, vsec: nat) returns (ok: bool, name: seq<Byte>, e: Exec)
    requires l.Valid()
    modifies l, l.buf
    ensures l.Valid()
    ensures ok ==> IsHeader(l, vsec) && name == NameIn(l.SectorOf(vsec)) && e == HeaderIn(l.SectorOf(vsec))
    ensures !ok ==> !IsHeader(l, vsec) || l.Unreadable(vsec)
  {
    hide l.Valid, l.SectorOf, l.Unreadable, GoodMagic, CString;
    e, name := Zeros(EXEC_SIZE), [];
    var at := l.GetSector(vsec);
    if at == None {
      return false, name, e;
    }
    var hdr := l.buf[at.value..at.value + SECTOR_SIZE];
    e := hdr[IM_NAME_MAX + 1..HEADER_SIZE];
    name := CString(hdr[..HEADER_SIZE]);
    ok := GoodMagic(e);
  }

  /** Read headers until one is selected; the programs of the others are skipped. */
  method NextHeader(l: Loader, vsec: nat, selected: seq<Byte> -> bool, ghost end: nat)
    returns (ok: bool, vsec': nat, e: Exec)
    requires l.Valid() && NoneFrom(l, end)
    modifies l, l.buf
    ensures l.Valid()
    ensures ok ==> Search(l, selected, vsec, end).0 == Some(Item(e, vsec'))
    ensures !ok ==>
              var (it, reach) := Search(l, selected, vsec, end);
              it == None || exists v :: vsec <= v < reach && l.Unreadable(v)
  {
    hide l.Valid, ProcSize, l.SectorOf, l.Unreadable, IsHeader, NameIn, HeaderIn, NoneFrom;
    vsec' := vsec;
    while true
      invariant l.Valid() && vsec <= vsec' && Search(l, selected, vsec', end) == Search(l, selected, vsec, end)
      decreases if vsec' < end then end - vsec' else 0
    {
      var name;
      SearchOn(l, selected, vsec', end);
      ok, name, e := ReadHeader(l, vsec');
      if !ok {
        return;
      }
      HeaderBefore(l, vsec', end);
      vsec' := vsec' + 1;
      if selected(name) {
        return;
      }
      NatSize(e);
      vsec' := vsec' + ProcSize(e);
    }
  }

  lemma SearchOn(l: Loader, selected: seq<Byte> -> bool, vsec: nat, end: nat)
    ensures ProcSize(HeaderIn(l.SectorOf(vsec))) >= 0
    ensures var s := l.SectorOf(vsec);
            var r := Search(l, selected, vsec, end);
            && r.1 > vsec
            && r == if vsec >= end || !IsHeader(l, vsec) then (None, vsec + 1)
                    else if selected(NameIn(s)) then (Some(Item(HeaderIn(s), vsec + 1)), vsec + 1)
                    else Search(l, selected, vsec + 1 + ProcSize(HeaderIn(s)), end)
  {
    hide ProcSize, l.SectorOf, IsHeader, NameIn, HeaderIn;
    NatSize(HeaderIn(l.SectorOf(vsec)));
  }

  lemma HeaderBefore(l: Loader, vsec: nat, end: nat)
    requires NoneFrom(l, end) && IsHeader(l, vsec)
    ensures vsec < end
  {
    hide IsHeader;
  }

  // The click size and the flags of the kernel.

  lemma ClickSizes(shift: nat)
    requires 4 <= shift <= 16
    ensures ClickOk(Pow2(shift))
  {
    assert Pow2(4) == 16 && Pow2(5) == 32 && Pow2(6) == 64 && Pow2(7) == 128 && Pow2(8) == 256;
    assert Pow2(9) == 512 && Pow2(10) == 1024 && Pow2(11) == 2048 && Pow2(12) == 4096 && Pow2(13) == 8192;
    assert Pow2(14) == 16384 && Pow2(15) == 32768 && Pow2(16) == 65536;
  }

  /** What the kernel says about itself. */
  datatype Kernel = Kernel(click: nat, flags: Flags)

  function Short(s: Sector, at: nat): nat
    requires at + 2 <= SECTOR_SIZE
  {
    s[at] as nat + 0x100 * s[at + 1] as nat
  }

  /** What get_clickshift makes of the first sector of the kernel. */
  function ClickOf(s: Sector, e: Exec): (r: Option<Kernel>)
    ensures r.Some? ==> ClickOk(r.value.click)
  {
    var textp := if Has(e, A_PAL) then HdrLen(e) else 0;
    var shift, flags := Short(s, textp + 2), Short(s, textp + 4);
    if flags > 0x1FF || shift < 4 || shift > 16 then None else
      ClickSizes(shift);
      Some(Kernel(Pow2(shift), Flags(flags / 2 % 2 == 1, flags / 4 % 2 == 1, flags / 8 % 2 == 1)))
  }

  /** The text of a kernel says `shift` for its clicks and `word` for its features: two bytes each, the
      low one first, from the third byte of the text on. */
  predicate Says(s: Sector, e: Exec, shift: nat, word: nat) {
    var text := if e[2] as int / 2 % 2 == 1 then e[4] as int else 0;
    s[text + 2] as nat + 256 * s[text + 3] as nat == shift && s[text + 4] as nat + 256 * s[text + 5] as nat == word
  }

  /** The feature bits, lowest first; the ones from 0x10 to 0x100 do not matter to loading. */
  function Features(i386: bool, claim: bool, chmem: bool, high: bool, others: nat): nat {
    One(i386) + 2 * One(claim) + 4 * One(chmem) + 8 * One(high) + 16 * others
  }

  /** The features are taken as they are said, unless there is one that the monitor does not know or
      the click size is not between 16 bytes and 64 kilobytes. */
  lemma FeaturesTaken(s: Sector, e: Exec, shift: nat, i386: bool, claim: bool, chmem: bool, high: bool, others: nat)
    requires Says(s, e, shift, Features(i386, claim, chmem, high, others))
    ensures ClickOf(s, e) ==
            if others < 32 && 4 <= shift <= 16 then Some(Kernel(Pow2(shift), Flags(claim, chmem, high))) else None
  {
    hide Pow2, Features, One;
    FeatureBits(i386, claim, chmem, high, others);
  }

  lemma FeatureBits(i386: bool, claim: bool, chmem: bool, high: bool, others: nat)
    ensures var word := Features(i386, claim, chmem, high, others);
            && (word > 0x1FF <==> others >= 32)
            && (word / 2 % 2 == 1 <==> claim) && (word / 4 % 2 == 1 <==> chmem) && (word / 8 % 2 == 1 <==> high)
  {
    hide One;
    var word := Features(i386, claim, chmem, high, others);
    BitOf(word, One(i386), 2, claim, One(chmem) + 2 * One(high) + 4 * others);
    BitOf(word, One(i386) + 2 * One(claim), 4, chmem, One(high) + 2 * others);
    BitOf(word, One(i386) + 2 * One(claim) + 4 * One(chmem), 8, high, others);
  }

  /** A sector that is not there is one without click size. */
  lemma NoClick(l: Loader, ksec: nat, e: Exec)
    requires !l.There(ksec)
    ensures ClickOf(l.SectorOf(ksec), e) == None
  {
  }

  method GetClickShift(l: Loader, ksec: nat, e: Exec) returns (r: Option<Kernel>)
    requires l.Valid()
    modifies l, l.buf
    ensures l.Valid() && (r.Some? ==> r == ClickOf(l.SectorOf(ksec), e))
    ensures r == None ==> ClickOf(l.SectorOf(ksec), e) == None || l.Unreadable(ksec)
  {
    hide l.Valid, l.SectorOf, ClickOf, l.Unreadable, l.There;
    var at := l.GetSector(ksec);
    if at == None {
      if !l.There(ksec) {
        NoClick(l, ksec, e);
      }
      return None;
    }
    r := ClickOf(l.buf[at.value..at.value + SECTOR_SIZE], e);
  }
}
