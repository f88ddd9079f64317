/** The format of a boot image: what a program becomes in the image and what comes out again,
    and that the second undoes the first. */
module BootImage {
  import opened Options
  import opened Arithmetic
  import opened BootBytes

  const IM_NAME_MAX: nat := 63

  /** What installboot keeps of the name of a program. */
  const BASENAME_MAX: nat := IM_NAME_MAX - 1

  const A_MINHDR: nat := 32
  const EXEC_SIZE: nat := 48
  const HEADER_SIZE: nat := IM_NAME_MAX + 1 + EXEC_SIZE

  const A_UZP: int := 0x01
  const A_PAL: int := 0x02
  const A_NSYM: int := 0x04
  const A_SEP: int := 0x20

  /** The fields of `struct exec`, which is kept as its 48 bytes. */
  type Exec = e: seq<Byte> | |e| == EXEC_SIZE witness Zeros(EXEC_SIZE)

  predicate Has(e: Exec, flag: int)
    requires flag > 0
  {
    e[2] as int / flag % 2 == 1
  }

  function HdrLen(e: Exec): (n: nat)
    ensures n < 256
  {
    e[4] as int
  }

  /** A `long` at byte `at`: little-endian, 32 bits, signed. */
  function Long(e: Exec, at: nat): int
    requires at + 4 <= EXEC_SIZE
  {
    var u := e[at] as int + 0x100 * e[at + 1] as int + 0x1_0000 * e[at + 2] as int + 0x100_0000 * e[at + 3] as int;
    if u < 0x8000_0000 then u else u - 0x1_0000_0000
  }

  function Text(e: Exec): int { Long(e, 8) }
  function Data(e: Exec): int { Long(e, 12) }
  function Bss(e: Exec): int { Long(e, 16) }
  function Total(e: Exec): int { Long(e, 24) }

  predicate GoodMagic(e: Exec) {
    e[0] == 0x01 && e[1] == 0x03
  }

  /** Is the header one of an executable? */
  predicate IsExec(e: Exec) {
    HdrLen(e) >= A_MINHDR && GoodMagic(e)
  }

  // The header as a C compiler lays it out.

  /** The bytes of a `long`, the lowest first. */
  function Bytes4(x: int): (b: seq<Byte>)
    ensures |b| == 4
  {
    var w := Word(x);
    [(w % 0x100) as Byte, (w / 0x100 % 0x100) as Byte, (w / 0x1_0000 % 0x100) as Byte, (w / 0x100_0000) as Byte]
  }

  predicate IsLong(x: int) {
    -0x8000_0000 <= x < 0x8000_0000
  }

  /** The bits of a_flags. */
  datatype ExecFlags = ExecFlags(uzp: bool, pal: bool, nsym: bool, img: bool, exec: bool, sep: bool, pure: bool,
                                 overlay: bool)

  function One(b: bool): (n: int)
    ensures 0 <= n <= 1
  {
    if b then 1 else 0
  }

  function FlagByte(f: ExecFlags): int {
    One(f.uzp) + 0x02 * One(f.pal) + 0x04 * One(f.nsym) + 0x08 * One(f.img) + 0x10 * One(f.exec) + 0x20 * One(f.sep)
    + 0x40 * One(f.pure) + 0x80 * One(f.overlay)
  }

  /** `struct exec`, field by field. */
  datatype Header = Header(flags: ExecFlags, cpu: Byte, hdrlen: Byte, version: seq<Byte>,
                           text: int, data: int, bss: int, entry: int, total: int, syms: int, more: seq<Byte>)

  predicate HeaderOk(h: Header) {
    && |h.version| == 3 && |h.more| == EXEC_SIZE - A_MINHDR
    && IsLong(h.text) && IsLong(h.data) && IsLong(h.bss) && IsLong(h.entry) && IsLong(h.total) && IsLong(h.syms)
  }

  function Encoded(h: Header): (e: Exec)
    requires HeaderOk(h)
  {
    FlagsOf(h.flags);
    [0x01, 0x03, FlagByte(h.flags) as Byte, h.cpu, h.hdrlen] + h.version
    + Bytes4(h.text) + Bytes4(h.data) + Bytes4(h.bss) + Bytes4(h.entry) + Bytes4(h.total) + Bytes4(h.syms) + h.more
  }

  lemma LongOf(e: Exec, at: nat, x: int)
    requires at + 4 <= EXEC_SIZE && IsLong(x) && e[at..at + 4] == Bytes4(x)
    ensures Long(e, at) == x
  {
    hide Word;
    var b, w := Bytes4(x), Word(x);
    assert e[at..at + 4][0] == e[at] && e[at..at + 4][1] == e[at + 1];
    assert e[at..at + 4][2] == e[at + 2] && e[at..at + 4][3] == e[at + 3];
    FourBytes(w);
    WordOf(x);
  }

  lemma FourBytes(w: nat)
    ensures w == w % 0x100 + 0x100 * (w / 0x100 % 0x100) + 0x1_0000 * (w / 0x1_0000 % 0x100) +
                 0x100_0000 * (w / 0x100_0000)
  {
    assert w / 0x100 / 0x100 == w / 0x1_0000 && w / 0x1_0000 / 0x100 == w / 0x100_0000;
  }

  lemma WordOf(x: int)
    requires IsLong(x)
    ensures Word(x) == if x >= 0 then x else x + 0x1_0000_0000
  {
  }

  /** The bit of `unit` in a byte. */
  lemma BitOf(x: int, low: int, unit: int, bit: bool, high: int)
    requires 0 <= low < unit && x == low + unit * (One(bit) + 2 * high)
    ensures x / unit % 2 == 1 <==> bit
  {
    DivModUnique(x, unit, One(bit) + 2 * high, low);
  }

  /** The byte as seen from one of its bits. */
  predicate Seen(f: ExecFlags, low: int, unit: int, bit: bool, high: int) {
    0 <= low < unit && FlagByte(f) == low + unit * (One(bit) + 2 * high)
  }

  lemma SeenParts(f: ExecFlags)
    ensures var low := One(f.uzp) + 2 * One(f.pal);
            var mid := One(f.nsym) + 2 * One(f.img) + 4 * One(f.exec);
            var high := One(f.pure) + 2 * One(f.overlay);
            && Seen(f, 0, A_UZP, f.uzp, One(f.pal) + 2 * (mid + 8 * (One(f.sep) + 2 * high)))
            && Seen(f, One(f.uzp), A_PAL, f.pal, mid + 8 * (One(f.sep) + 2 * high))
            && Seen(f, low, A_NSYM, f.nsym, One(f.img) + 2 * One(f.exec) + 4 * (One(f.sep) + 2 * high))
            && Seen(f, low + 4 * mid, A_SEP, f.sep, high)
  {
  }

  lemma FlagsOf(f: ExecFlags)
    ensures 0 <= FlagByte(f) < 0x100
    ensures FlagByte(f) / A_UZP % 2 == 1 <==> f.uzp
    ensures FlagByte(f) / A_PAL % 2 == 1 <==> f.pal
    ensures FlagByte(f) / A_NSYM % 2 == 1 <==> f.nsym
    ensures FlagByte(f) / A_SEP % 2 == 1 <==> f.sep
  {
    var low := One(f.uzp) + 2 * One(f.pal);
    var mid := One(f.nsym) + 2 * One(f.img) + 4 * One(f.exec);
    var high := One(f.pure) + 2 * One(f.overlay);
    SeenParts(f);
    assert 0 <= FlagByte(f) < 0x100;
    hide FlagByte, One;
    BitOf(FlagByte(f), 0, A_UZP, f.uzp, One(f.pal) + 2 * (mid + 8 * (One(f.sep) + 2 * high)));
    BitOf(FlagByte(f), One(f.uzp), A_PAL, f.pal, mid + 8 * (One(f.sep) + 2 * high));
    BitOf(FlagByte(f), low, A_NSYM, f.nsym, One(f.img) + 2 * One(f.exec) + 4 * (One(f.sep) + 2 * high));
    BitOf(FlagByte(f), low + 4 * mid, A_SEP, f.sep, high);
  }

  /** Every field is read from where it is: no two of them can be taken for each other. */
  lemma FieldsRead(h: Header)
    requires HeaderOk(h)
    ensures var e := Encoded(h);
            && GoodMagic(e) && HdrLen(e) == h.hdrlen as nat
            && Text(e) == h.text && Data(e) == h.data && Bss(e) == h.bss && Total(e) == h.total
            && (Has(e, A_UZP) <==> h.flags.uzp) && (Has(e, A_PAL) <==> h.flags.pal)
            && (Has(e, A_NSYM) <==> h.flags.nsym) && (Has(e, A_SEP) <==> h.flags.sep)
  {
    hide Long, Bytes4, FlagByte;
    FlagsOf(h.flags);
    var e := Encoded(h);
    assert e[8..12] == Bytes4(h.text) && e[12..16] == Bytes4(h.data) && e[16..20] == Bytes4(h.bss);
    assert e[24..28] == Bytes4(h.total);
    LongOf(e, 8, h.text);
    LongOf(e, 12, h.data);
    LongOf(e, 16, h.bss);
    LongOf(e, 24, h.total);
  }

  /** Without symbol table: a_syms is zero and the flag that describes it is clear. */
  function Strip(e: Exec): (s: Exec) {
    var flags: Byte := if Has(e, A_NSYM) then e[2] - 4 else e[2];
    e[..2] + [flags] + e[3..28] + Zeros(4) + e[32..]
  }

  lemma NoSymbolFlag(flags: int)
    requires 0 <= flags < 256 && flags / A_NSYM % 2 == 1
    ensures flags >= 4
    ensures (flags - 4) / A_NSYM % 2 == 0
    ensures (flags - 4) / A_UZP % 2 == flags / A_UZP % 2
    ensures (flags - 4) / A_PAL % 2 == flags / A_PAL % 2
    ensures (flags - 4) / A_SEP % 2 == flags / A_SEP % 2
  {
  }

  lemma StripKeeps(e: Exec)
    ensures var s := Strip(e);
            && s[28..32] == Zeros(4) && !Has(s, A_NSYM)
            && (forall k :: 0 <= k < EXEC_SIZE && k != 2 && !(28 <= k < 32) ==> s[k] == e[k])
            && Has(s, A_UZP) == Has(e, A_UZP) && Has(s, A_PAL) == Has(e, A_PAL) && Has(s, A_SEP) == Has(e, A_SEP)
  {
    if Has(e, A_NSYM) {
      NoSymbolFlag(e[2] as int);
    }
  }

  /** The bytes of the segments as they follow the header sector.  A page aligned program has its
      header in its text. */
  function TextLen(e: Exec): int {
    Text(e) + if Has(e, A_PAL) then HdrLen(e) else 0
  }

  function Lengths(e: Exec): (l: seq<int>)
    ensures 1 <= |l| <= 2
  {
    if Has(e, A_SEP) then [TextLen(e), Data(e)] else [TextLen(e) + Data(e)]
  }

  datatype Program = Program(name: seq<Byte>, file: seq<Byte>)

  /** The header in front of an executable file, or None if the file cannot be used. */
  function ExecOf(file: seq<Byte>): (r: Option<Exec>) {
    if |file| < A_MINHDR then None else
      var n := file[4] as int;
      if file[0] != 0x01 || file[1] != 0x03 || n < A_MINHDR || n > EXEC_SIZE || |file| < n then None
      else
        var e: Exec := file[..n] + Zeros(EXEC_SIZE - n);
        Some(e)
  }

  /** Where the segments start in the file. */
  function Start(e: Exec): nat {
    if Has(e, A_PAL) then 0 else HdrLen(e)
  }

  // Making an image.

  /** `n` bytes of `file` from `pos` on, padded to a sector.  (A negative n pads, too.) */
  function Padded(file: seq<Byte>, pos: nat, n: int): (r: Option<seq<Byte>>) {
    CeilBounds(n, SECTOR_SIZE);
    if n > 0 && pos + n > |file| then None
    else Some((if n > 0 then file[pos..pos + n] else []) + Zeros(Ceil(n, SECTOR_SIZE) - n))
  }

  function Segments(file: seq<Byte>, pos: nat, lengths: seq<int>): (r: Option<seq<Byte>>)
    decreases |lengths|
  {
    if lengths == [] then Some([]) else
      var head := Padded(file, pos, lengths[0]);
      var tail := Segments(file, pos + (if lengths[0] > 0 then lengths[0] else 0), lengths[1..]);
      if head == None || tail == None then None else Some(head.value + tail.value)
  }

  function NameField(name: seq<Byte>): (f: seq<Byte>)
    ensures |f| == IM_NAME_MAX + 1
  {
    if |name| <= BASENAME_MAX then name + Zeros(IM_NAME_MAX + 1 - |name|) else name[..BASENAME_MAX] + [0, 0]
  }

  function HeaderSector(p: Program, e: Exec): (s: seq<Byte>)
    ensures |s| == SECTOR_SIZE
  {
    NameField(p.name) + Strip(e) + Zeros(SECTOR_SIZE - HEADER_SIZE)
  }

  function ImageOf(p: Program): (r: Option<seq<Byte>>) {
    var e := ExecOf(p.file);
    if e == None then None else
      var body := Segments(p.file, Start(e.value), Lengths(e.value));
      if body == None then None else Some(HeaderSector(p, e.value) + body.value)
  }

  function Image(ps: seq<Program>): (r: Option<seq<Byte>>) {
    if ps == [] then Some([]) else
      var head, tail := ImageOf(ps[0]), Image(ps[1..]);
      if head == None || tail == None then None else Some(head.value + tail.value)
  }

  lemma TwoSegments(file: seq<Byte>, pos: nat, e: Exec)
    ensures var s := Segments(file, pos, Lengths(e));
            var text := TextLen(e);
            if Has(e, A_SEP) then
              var a, b := Padded(file, pos, text), Padded(file, pos + (if text > 0 then text else 0), Data(e));
              s == if a == None || b == None then None else Some(a.value + b.value)
            else s == Padded(file, pos, text + Data(e))
  {
    hide Padded, Has, Long;
    var text := TextLen(e);
    if Has(e, A_SEP) {
      var next := pos + if text > 0 then text else 0;
      assert [text, Data(e)][1..] == [Data(e)];
      OneSegment(file, next, Data(e));
    } else {
      OneSegment(file, pos, text + Data(e));
    }
  }

  lemma OneSegment(file: seq<Byte>, pos: nat, n: int)
    ensures Segments(file, pos, [n]) == Padded(file, pos, n)
  {
    hide Padded;
    assert [n][1..] == [];
    var a := Padded(file, pos, n);
    if a.Some? {
      assert a.value + [] == a.value;
    }
  }

  // Taking an image apart.

  /** The segments at the start of `rest`, and what follows their sectors. */
  function Extract(rest: seq<Byte>, lengths: seq<int>): (r: Option<(seq<Byte>, seq<Byte>)>)
    ensures r.Some? ==> |r.value.1| <= |rest|
    decreases |lengths|
  {
    if lengths == [] then Some(([], rest)) else
      var n := if lengths[0] > 0 then lengths[0] else 0;
      CeilBounds(n, SECTOR_SIZE);
      if Ceil(n, SECTOR_SIZE) > |rest| then None else
        var tail := Extract(rest[Ceil(n, SECTOR_SIZE)..], lengths[1..]);
        if tail == None then None else Some((rest[..n] + tail.value.0, tail.value.1))
  }

  /** The bytes before the first zero. */
  function CString(s: seq<Byte>): (r: seq<Byte>)
    ensures |r| <= |s| && (forall k :: 0 <= k < |r| ==> r[k] != 0 && r[k] == s[k])
    ensures |r| == |s| || s[|r|] == 0
  {
    if s == [] || s[0] == 0 then [] else [s[0]] + CString(s[1..])
  }

  /** Only the header of a program that is not page aligned is written to its file, and no more of it
      is known than `struct exec`. */
  predicate HeaderKnown(e: Exec) {
    Has(e, A_PAL) || HdrLen(e) <= EXEC_SIZE
  }

  function Programs(image: seq<Byte>): (r: Option<seq<Program>>)
    decreases |image|
  {
    if image == [] then Some([])
    else if |image| < SECTOR_SIZE then None
    else
      var e: Exec := image[IM_NAME_MAX + 1..HEADER_SIZE];
      if !IsExec(e) || !HeaderKnown(e) then None else
        var body := Extract(image[SECTOR_SIZE..], Lengths(e));
        if body == None then None else
          var tail := Programs(body.value.1);
          if tail == None then None
          else Some([Program(CString(image[..IM_NAME_MAX + 1]),
                             (if Has(e, A_PAL) then [] else e[..HdrLen(e)]) + body.value.0)] + tail.value)
  }

  /** A program is reached with a header longer than `struct exec`, and the bytes behind that are
      written for the rest of it. */
  predicate Overreads(image: seq<Byte>)
    decreases |image|
  {
    && |image| >= SECTOR_SIZE
    && var e: Exec := image[IM_NAME_MAX + 1..HEADER_SIZE];
       var body := Extract(image[SECTOR_SIZE..], Lengths(e));
       && IsExec(e)
       && (HeaderKnown(e) ==> body.Some? && Overreads(body.value.1))
  }

  /** This does not happen to an image that comes apart, such as one that installboot made. */
  lemma {:induction false} OverreadsNot(image: seq<Byte>)
    requires Programs(image).Some?
    ensures !Overreads(image)
    decreases |image|
  {
    hide Extract, Has, Long, CString, Lengths, HdrLen;
    if image != [] {
      var e: Exec := image[IM_NAME_MAX + 1..HEADER_SIZE];
      OverreadsNot(Extract(image[SECTOR_SIZE..], Lengths(e)).value.1);
    }
  }

  // The round trip.

  /** A name that fits and a file that is as long as its header says. */
  predicate Complete(p: Program) {
    && |p.name| <= BASENAME_MAX && 0 !in p.name
    && var e := ExecOf(p.file);
       e.Some? && Text(e.value) >= 0 && Data(e.value) >= 0 && |p.file| >= Start(e.value) + TextLen(e.value) +
         Data(e.value)
  }

  /** The program without its symbol table: of a page aligned program just the part in front of
      it, of another one with a header that says that there is none. */
  function Stripped(p: Program): (q: Program)
    requires Complete(p)
  {
    var e := ExecOf(p.file).value;
    var end := Start(e) + TextLen(e) + Data(e);
    Program(p.name, if Has(e, A_PAL) then p.file[..end] else Strip(e)[..HdrLen(e)] + p.file[HdrLen(e)..end])
  }

  lemma PaddedLength(file: seq<Byte>, pos: nat, n: nat)
    requires pos + n <= |file|
    ensures var s := Padded(file, pos, n);
            s.Some? && |s.value| == Ceil(n, SECTOR_SIZE) && s.value[..n] == file[pos..pos + n]
            && forall k :: n <= k < |s.value| ==> s.value[k] == 0
  {
    CeilBounds(n, SECTOR_SIZE);
  }

  lemma ExtractOn(head: seq<Byte>, t: seq<Byte>, lengths: seq<int>)
    requires lengths != [] && lengths[0] >= 0 && |head| == Ceil(lengths[0], SECTOR_SIZE)
    ensures lengths[0] <= |head|
    ensures var tail := Extract(t, lengths[1..]);
            Extract(head + t, lengths) ==
            if tail == None then None else Some((head[..lengths[0]] + tail.value.0, tail.value.1))
  {
    hide Ceil;
    CeilBounds(lengths[0], SECTOR_SIZE);
    assert (head + t)[|head|..] == t;
    assert (head + t)[..lengths[0]] == head[..lengths[0]];
  }

  lemma {:induction false} ExtractSegments(file: seq<Byte>, pos: nat, lengths: seq<int>, after: seq<Byte>)
    requires forall k :: 0 <= k < |lengths| ==> lengths[k] >= 0
    requires pos + Sum(lengths) <= |file|
    ensures Sum(lengths) >= 0 && Segments(file, pos, lengths).Some?
    ensures Extract(Segments(file, pos, lengths).value + after, lengths) == Some((file[pos..pos + Sum(lengths)], after))
    decreases |lengths|
  {
    hide Padded, Extract, Ceil, Segments;
    SumNonNegative(lengths);
    if lengths == [] {
      NothingToExtract(file, pos, after);
    } else {
      var n := lengths[0];
      SumNonNegative(lengths[1..]);
      PaddedLength(file, pos, n);
      ExtractSegments(file, pos + n, lengths[1..], after);
      SegmentsOn(file, pos, lengths);
      var head, tail := Padded(file, pos, n).value, Segments(file, pos + n, lengths[1..]).value;
      ExtractOn(head, tail + after, lengths);
      JoinParts(head, tail, after);
      JoinSlices(file, pos, n, Sum(lengths[1..]));
    }
  }

  lemma SegmentsOn(file: seq<Byte>, pos: nat, lengths: seq<int>)
    requires lengths != [] && lengths[0] >= 0
    ensures var head, tail := Padded(file, pos, lengths[0]), Segments(file, pos + lengths[0], lengths[1..]);
            Segments(file, pos, lengths) == if head == None || tail == None then None else Some(head.value + tail.value)
  {
    hide Padded;
  }

  lemma JoinParts(a: seq<Byte>, b: seq<Byte>, c: seq<Byte>)
    ensures a + (b + c) == a + b + c
  {
  }

  lemma JoinSlices(file: seq<Byte>, pos: nat, n: nat, m: nat)
    requires pos + n + m <= |file|
    ensures file[pos..pos + n] + file[pos + n..pos + n + m] == file[pos..pos + (n + m)]
  {
  }

  lemma NothingToExtract(file: seq<Byte>, pos: nat, after: seq<Byte>)
    requires pos <= |file|
    ensures Segments(file, pos, []).Some? &&
            Extract(Segments(file, pos, []).value + after, []) == Some((file[pos..pos], after))
  {
    assert file[pos..pos] == [];
    assert [] + after == after;
  }

  function Sum(l: seq<int>): int {
    if l == [] then 0 else l[0] + Sum(l[1..])
  }

  lemma {:induction false} SumNonNegative(l: seq<int>)
    requires forall k :: 0 <= k < |l| ==> l[k] >= 0
    ensures Sum(l) >= 0
    decreases |l|
  {
    if l != [] {
      SumNonNegative(l[1..]);
    }
  }

  lemma StripLengths(e: Exec)
    ensures HdrLen(Strip(e)) == HdrLen(e) && Lengths(Strip(e)) == Lengths(e) && IsExec(Strip(e)) == IsExec(e)
    ensures Has(Strip(e), A_PAL) == Has(e, A_PAL)
  {
    hide Strip, Has;
    StripKeeps(e);
  }

  lemma {:induction false} CStringOf(name: seq<Byte>, after: seq<Byte>)
    requires 0 !in name
    ensures CString(name + [0] + after) == name
    decreases |name|
  {
    if name != [] {
      assert (name + [0] + after)[1..] == name[1..] + [0] + after;
      CStringOf(name[1..], after);
    }
  }

  lemma ProgramsOn(sector: seq<Byte>, t: seq<Byte>, e: Exec)
    requires |sector| == SECTOR_SIZE && sector[IM_NAME_MAX + 1..HEADER_SIZE] == e && IsExec(e) && HeaderKnown(e)
    ensures var body := Extract(t, Lengths(e));
            Programs(sector + t) ==
            if body == None || Programs(body.value.1) == None then None
            else Some([Program(CString(sector[..IM_NAME_MAX + 1]),
                               (if Has(e, A_PAL) then [] else e[..HdrLen(e)]) + body.value.0)]
                                 + Programs(body.value.1).value)
  {
    hide Extract, Has, Lengths, IsExec, HdrLen, CString, HeaderKnown;
    var image := sector + t;
    assert image[IM_NAME_MAX + 1..HEADER_SIZE] == e && image[SECTOR_SIZE..] == t;
    assert image[..IM_NAME_MAX + 1] == sector[..IM_NAME_MAX + 1];
  }

  /** One program and whatever follows it. */
  lemma RoundTripOne(p: Program, after: seq<Byte>)
    requires Complete(p)
    ensures ImageOf(p).Some?
    ensures Programs(ImageOf(p).value + after) ==
            (if Programs(after) == None then None else Some([Stripped(p)] + Programs(after).value))
  {
    hide Has, Long, Extract, Segments, ExecOf, Strip, Programs, CString, Lengths, Sum, IsExec;
    ExecShape(p.file);
    var e := ExecOf(p.file).value;
    var lengths := Lengths(e);
    LengthsSum(e);
    ExtractSegments(p.file, Start(e), lengths, after);
    var sector, body := HeaderSector(p, e), Segments(p.file, Start(e), lengths).value;
    assert sector + (body + after) == sector + body + after;
    HeaderFields(p, e);
    StripLengths(e);
    ProgramsOn(sector, body + after, Strip(e));
    var segments := p.file[Start(e)..Start(e) + Sum(lengths)];
    assert [] + segments == segments;
    assert Stripped(p) == Program(p.name, (if Has(e, A_PAL) then [] else Strip(e)[..HdrLen(e)]) + segments);
  }

  /** A name that is too long is cut. */
  lemma NameKept(name: seq<Byte>)
    requires 0 !in name
    ensures CString(NameField(name)) == if |name| <= BASENAME_MAX then name else name[..BASENAME_MAX]
  {
    hide CString;
    if |name| <= BASENAME_MAX {
      assert NameField(name) == name + [0] + Zeros(IM_NAME_MAX - |name|);
      CStringOf(name, Zeros(IM_NAME_MAX - |name|));
    } else {
      assert NameField(name) == name[..BASENAME_MAX] + [0] + [0];
      CStringOf(name[..BASENAME_MAX], [0]);
    }
  }

  lemma HeaderFields(p: Program, e: Exec)
    requires |p.name| <= BASENAME_MAX && 0 !in p.name
    ensures var s := HeaderSector(p, e);
            s[IM_NAME_MAX + 1..HEADER_SIZE] == Strip(e) && CString(s[..IM_NAME_MAX + 1]) == p.name
  {
    hide CString, Strip;
    var s := HeaderSector(p, e);
    assert s[..IM_NAME_MAX + 1] == p.name + [0] + Zeros(IM_NAME_MAX - |p.name|);
    CStringOf(p.name, Zeros(IM_NAME_MAX - |p.name|));
  }

  lemma ExecShape(file: seq<Byte>)
    requires ExecOf(file).Some?
    ensures var e := ExecOf(file).value; IsExec(e) && HdrLen(e) <= EXEC_SIZE
  {
  }

  lemma LengthsSum(e: Exec)
    requires Text(e) >= 0 && Data(e) >= 0
    ensures Sum(Lengths(e)) == TextLen(e) + Data(e)
    ensures forall k :: 0 <= k < |Lengths(e)| ==> Lengths(e)[k] >= 0
  {
    assert Sum([TextLen(e), Data(e)]) == TextLen(e) + Sum([TextLen(e), Data(e)][1..]);
  }

  function AllStripped(ps: seq<Program>): (r: seq<Program>)
    requires forall k :: 0 <= k < |ps| ==> Complete(ps[k])
    ensures |r| == |ps| && forall k :: 0 <= k < |ps| ==> r[k] == Stripped(ps[k])
  {
    seq(|ps|, k requires 0 <= k < |ps| => Stripped(ps[k]))
  }

  lemma NoPrograms()
    ensures Programs([]) == Some([])
  {
  }

  /** extract_image undoes make_image, except for symbol tables. */
  lemma {:induction false} RoundTrip(ps: seq<Program>)
    requires forall k :: 0 <= k < |ps| ==> Complete(ps[k])
    ensures Image(ps).Some?
    ensures Programs(Image(ps).value) == Some(AllStripped(ps))
  {
    hide Complete, ImageOf, Stripped, Extract, Programs;
    NoPrograms();
    if ps != [] {
      RoundTrip(ps[1..]);
      RoundTripOne(ps[0], Image(ps[1..]).value);
      assert [Stripped(ps[0])] + AllStripped(ps[1..]) == AllStripped(ps);
    }
  }
}
