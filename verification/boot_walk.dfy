/** Loading a whole image: which programs are loaded, where they end up, and that each is in memory
    as it is in its file. */
module BootWalk {
  import opened Options
  import opened Arithmetic
  import opened BootBytes
  import opened BootImage
  import opened BootLoader
  import opened BootExec

  /** The header of a program as it is in the image. */
  function HeaderOf(p: Program): Exec
    requires Complete(p)
  {
    Strip(ExecOf(p.file).value)
  }

  /** A program that can go into an image and be loaded from it. */
  predicate Loadable(p: Program) {
    Complete(p) && Sized(HeaderOf(p), Flags(false, true, false))
  }

  predicate AllLoadable(ps: seq<Program>) {
    forall k :: 0 <= k < |ps| ==> Loadable(ps[k])
  }

  // What is where in the image.

  /** The sectors of the first `k` programs. */
  function Offset(ps: seq<Program>, k: nat): nat
    requires k <= |ps| && AllLoadable(ps)
  {
    if k == 0 then 0 else Offset(ps, k - 1) + 1 + ProcSectors(HeaderOf(ps[k - 1]))
  }

  function Body(p: Program): seq<Byte>
    requires Complete(p)
  {
    var e := ExecOf(p.file).value;
    var s := Segments(p.file, Start(e), Lengths(e));
    if s.Some? then s.value else []
  }

  lemma ImageParts(p: Program)
    requires Loadable(p)
    ensures ImageOf(p) == Some(HeaderSector(p, ExecOf(p.file).value) + Body(p))
    ensures |Body(p)| == SECTOR_SIZE * ProcSectors(HeaderOf(p))
  {
    hide Has, Long, Extract, Segments, ExecOf, Strip, Sum, IsExec, Ceil, HeaderSector;
    var e := ExecOf(p.file).value;
    LengthsSum(e);
    ExtractSegments(p.file, Start(e), Lengths(e), []);
    StripSizes(e);
    SegmentsLength(p.file, Start(e), e);
  }

  lemma StripSizes(e: Exec)
    ensures var s := Strip(e);
            && Lengths(s) == Lengths(e) && TextLen(s) == TextLen(e) && Text(s) == Text(e) && Data(s) == Data(e) &&
              Bss(s) == Bss(e)
            && Total(s) == Total(e) && HdrLen(s) == HdrLen(e) && Has(s, A_SEP) == Has(e, A_SEP) &&
              Has(s, A_PAL) == Has(e, A_PAL)
            && Has(s, A_UZP) == Has(e, A_UZP)
  {
    hide Strip, Has;
    StripKeeps(e);
  }

  lemma SegmentsLength(file: seq<Byte>, pos: nat, e: Exec)
    requires Text(e) >= 0 && Data(e) >= 0 && pos + TextLen(e) + Data(e) <= |file|
    ensures var s := Segments(file, pos, Lengths(e)); s.Some? && |s.value| == SECTOR_SIZE * ProcSectors(e)
  {
    hide Has, Long, Ceil, Padded;
    TwoSegments(file, pos, e);
    var text, data := TextLen(e), Data(e);
    if Has(e, A_SEP) {
      PaddedLength(file, pos, text);
      PaddedLength(file, pos + text, data);
      WholeSectors(text);
      WholeSectors(data);
    } else {
      PaddedLength(file, pos, text + data);
      WholeSectors(text + data);
    }
  }

  lemma WholeSectors(n: nat)
    ensures Ceil(n, SECTOR_SIZE) == SECTOR_SIZE * Sectors(n)
  {
  }

  /** Program `k` starts at sector Offset(k) of the image. */
  lemma {:induction false} ProgramAt(ps: seq<Program>, k: nat)
    requires AllLoadable(ps) && k <= |ps|
    ensures Image(ps).Some? && Image(ps[k..]).Some?
    ensures SECTOR_SIZE * Offset(ps, k) <= |Image(ps).value|
    ensures Image(ps).value[SECTOR_SIZE * Offset(ps, k)..] == Image(ps[k..]).value
    decreases k
  {
    hide Loadable, Complete, HeaderOf, ImageOf, Stripped, Image, Body, HeaderSector, AllStripped, Programs;
    AllImages(ps, 0);
    AllImages(ps, k);
    assert ps[0..] == ps;
    if k > 0 {
      AllImages(ps, k - 1);
      ProgramAt(ps, k - 1);
      LoadableComplete(ps[k - 1]);
      ImageParts(ps[k - 1]);
      ImageFrom(ps, k - 1);
      var one, o := ImageOf(ps[k - 1]).value, SECTOR_SIZE * Offset(ps, k - 1);
      Further(Image(ps).value, o, one, Image(ps[k..]).value);
    }
  }

  lemma ImageFrom(ps: seq<Program>, k: nat)
    requires k < |ps| && ImageOf(ps[k]).Some? && Image(ps[k + 1..]).Some?
    ensures Image(ps[k..]) == Some(ImageOf(ps[k]).value + Image(ps[k + 1..]).value)
  {
    hide ImageOf;
    assert ps[k..][0] == ps[k] && ps[k..][1..] == ps[k + 1..];
  }

  lemma Further(m: seq<Byte>, o: nat, one: seq<Byte>, rest: seq<Byte>)
    requires o <= |m| && m[o..] == one + rest
    ensures o + |one| <= |m| && m[o + |one|..] == rest
  {
    assert m[o + |one|..] == m[o..][|one|..];
  }

  lemma AllImages(ps: seq<Program>, k: nat)
    requires AllLoadable(ps) && k <= |ps|
    ensures Image(ps[k..]).Some?
    ensures forall j :: 0 <= j < |ps| ==> Loadable(ps[j])
  {
    hide Loadable;
    assert forall j :: 0 <= j < |ps| ==> Loadable(ps[j]);
    AllComplete(ps[k..]);
    RoundTrip(ps[k..]);
  }

  lemma AllComplete(ps: seq<Program>)
    requires forall k :: 0 <= k < |ps| ==> Loadable(ps[k])
    ensures forall k :: 0 <= k < |ps| ==> Complete(ps[k])
  {
  }

  lemma LoadableComplete(p: Program)
    requires Loadable(p)
    ensures Complete(p) && ExecOf(p.file).Some?
  {
  }

  // What is where in memory.

  /** The text and the data of a program file. */
  function TextOf(p: Program): seq<Byte>
    requires Complete(p)
  {
    var e := ExecOf(p.file).value;
    p.file[Start(e)..Start(e) + TextLen(e)]
  }

  function DataOf(p: Program): seq<Byte>
    requires Complete(p)
  {
    var e := ExecOf(p.file).value;
    p.file[Start(e) + TextLen(e)..Start(e) + TextLen(e) + Data(e)]
  }

  /** A file made of a header, text, data and whatever: these are the text and the data that are loaded,
      the header in front of the text if it is page aligned, and the sizes are those of the header. */
  lemma BuiltFile(p: Program, h: Header, text: seq<Byte>, data: seq<Byte>, after: seq<Byte>)
    requires HeaderOk(h) && A_MINHDR <= h.hdrlen as nat <= EXEC_SIZE && h.text == |text| && h.data == |data|
    requires p.file == Encoded(h)[..h.hdrlen as nat] + text + data + after
    requires |p.name| <= BASENAME_MAX && 0 !in p.name
    ensures Complete(p) && DataOf(p) == data
    ensures TextOf(p) == if h.flags.pal then Encoded(h)[..h.hdrlen as nat] + text else text
    ensures var e := HeaderOf(p);
            && Bss(e) == h.bss && Total(e) == h.total && HdrLen(e) == h.hdrlen as nat
            && Has(e, A_SEP) == h.flags.sep && Has(e, A_PAL) == h.flags.pal && Has(e, A_UZP) == h.flags.uzp
  {
    hide Long, Has, Strip, Encoded, ExecOf;
    var n := h.hdrlen as nat;
    var g := h.(more := h.more[..n - A_MINHDR] + Zeros(EXEC_SIZE - n));
    HeaderRead(h, g, text + data + after);
    assert p.file == Encoded(h)[..n] + (text + data + after);
    FieldsRead(g);
    StripSizes(Encoded(g));
    assert p.file[..n] == Encoded(h)[..n];
    assert p.file[n..n + |text|] == text && p.file[n + |text|..n + |text| + |data|] == data;
    assert p.file[..n + |text|] == Encoded(h)[..n] + text;
  }

  /** The header that is read from a file, which may be short. */
  lemma HeaderRead(h: Header, g: Header, rest: seq<Byte>)
    requires HeaderOk(h) && A_MINHDR <= h.hdrlen as nat <= EXEC_SIZE
    requires g == h.(more := h.more[..h.hdrlen as nat - A_MINHDR] + Zeros(EXEC_SIZE - h.hdrlen as nat))
    ensures HeaderOk(g) && ExecOf(Encoded(h)[..h.hdrlen as nat] + rest) == Some(Encoded(g))
  {
    hide Bytes4, FlagByte;
    var n := h.hdrlen as nat;
    var file := Encoded(h)[..n] + rest;
    assert file[..n] == Encoded(h)[..n];
    assert Encoded(g) == file[..n] + Zeros(EXEC_SIZE - n);
    assert file[0] == Encoded(h)[0] && file[1] == Encoded(h)[1] && file[4] == Encoded(h)[4];
  }

  /** The text, padded with zeros to a click if the data does not share its segment; the data; and
      zeros up to the end of the bss, in whole clicks. */
  function Wanted(p: Program, i: nat, f: Flags, click: nat): (b: seq<Byte>)
    requires Loadable(p) && Sized(HeaderOf(p), f) && ClickOk(click)
  {
    var e := HeaderOf(p);
    var text, data := TextOf(p), DataOf(p);
    var clear := Ceil(DataSize(e) + BssSize(e, i, f), click) - DataSize(e);
    (if Has(e, A_SEP) then text + Zeros(Room(|text|, click) - |text|) else text) + data + Zeros(clear)
  }

  /** One segment that the image holds padded to sectors. */
  lemma SegmentOf(l: Loader, vsec: nat, file: seq<Byte>, pos: nat, n: nat, click: nat)
    requires ClickOk(click) && pos + n <= |file|
    requires l.Bytes(vsec, Ceil(n, SECTOR_SIZE)) == Padded(file, pos, n).value
    ensures n <= Room(n, click)
    ensures l.Segment(vsec, n, click) == file[pos..pos + n] + Zeros(Room(n, click) - n)
  {
    hide Ceil, ClickOk;
    UnitOk(click);
    var u := Unit(click);
    SegmentFits(n, click);
    PaddedLength(file, pos, n);
    CeilBounds(n, SECTOR_SIZE);
    MultipleOf(Ceil(n, SECTOR_SIZE), SECTOR_SIZE, u);
    CeilLeast(n, u, Ceil(n, SECTOR_SIZE));
    var some, all := l.Bytes(vsec, Ceil(n, u)), l.Bytes(vsec, Ceil(n, SECTOR_SIZE));
    assert some == all[..Ceil(n, u)];
    assert some[..n] == file[pos..pos + n];
    assert some == file[pos..pos + n] + Zeros(Ceil(n, u) - n);
  }

  /** Two segments one after the other in the image. */
  lemma BytesSplit(l: Loader, vsec: nat, a: nat, b: nat)
    requires a % SECTOR_SIZE == 0
    ensures l.Bytes(vsec, a + b) == l.Bytes(vsec, a) + l.Bytes(vsec + a / SECTOR_SIZE, b)
  {
    hide l.SectorOf;
    var all, tail := l.Bytes(vsec, a + b), l.Bytes(vsec + a / SECTOR_SIZE, b);
    forall k | 0 <= k < b
      ensures all[a + k] == tail[k]
    {
      assert (a + k) / SECTOR_SIZE == a / SECTOR_SIZE + k / SECTOR_SIZE && (a + k) % SECTOR_SIZE == k % SECTOR_SIZE;
    }
  }

  // The two segments, or the one, of a file: padded in the image, loaded, and as they should be.

  function InImage(file: seq<Byte>, pos: nat, text: nat, data: nat, sep: bool): seq<Byte>
    requires pos + text + data <= |file|
  {
    if sep then Padded(file, pos, text).value + Padded(file, pos + text, data).value
    else Padded(file, pos, text + data).value
  }

  function Loaded(l: Loader, vsec: nat, text: nat, data: nat, sep: bool, bss: nat, click: nat): seq<Byte>
    requires ClickOk(click)
  {
    if sep then l.Segment(vsec, text, click) + l.Segment(vsec + Sectors(text), data, click) + Zeros(bss)
    else l.Segment(vsec, text + data, click) + Zeros(bss)
  }

  function Laid(file: seq<Byte>, pos: nat, text: nat, data: nat, sep: bool, bss: nat, click: nat): seq<Byte>
    requires ClickOk(click) && pos + text + data <= |file|
  {
    RoomHolds(text, click);
    RoomHolds(data, click);
    RoomHolds(text + data, click);
    if sep then
      file[pos..pos + text] + Zeros(Room(text, click) - text) + file[pos + text..pos + text + data]
      + Zeros(Room(data, click) - data + bss)
    else
      file[pos..pos + text] + file[pos + text..pos + text + data]
      + Zeros(Room(text + data, click) - (text + data) + bss)
  }

  lemma RoomHolds(n: nat, click: nat)
    requires ClickOk(click)
    ensures Room(n, click) >= n
  {
  }

  lemma LoadedAsLaid(l: Loader, vsec: nat, file: seq<Byte>, pos: nat, text: nat, data: nat, sep: bool, bss: nat,
          click: nat)
    requires ClickOk(click) && pos + text + data <= |file|
    requires var s := InImage(file, pos, text, data, sep); l.Bytes(vsec, |s|) == s
    ensures Loaded(l, vsec, text, data, sep, bss, click) == Laid(file, pos, text, data, sep, bss, click)
  {
    hide Ceil, ClickOk, Padded, l.Segment, l.Bytes, Room, Sectors;
    if sep {
      SegmentParts(l, vsec, file, pos, text, data);
      SegmentOf(l, vsec, file, pos, text, click);
      SegmentOf(l, vsec + Sectors(text), file, pos + text, data, click);
      ZerosAdd(Room(data, click) - data, bss);
      Regroup(file[pos..pos + text] + Zeros(Room(text, click) - text), file[pos + text..pos + text + data],
              Zeros(Room(data, click) - data), Zeros(bss));
    } else {
      PaddedLength(file, pos, text + data);
      SegmentOf(l, vsec, file, pos, text + data, click);
      assert file[pos..pos + (text + data)] == file[pos..pos + text] + file[pos + text..pos + text + data];
      ZerosAdd(Room(text + data, click) - (text + data), bss);
      Regroup(file[pos..pos + text], file[pos + text..pos + text + data],
              Zeros(Room(text + data, click) - (text + data)), Zeros(bss));
    }
  }

  /** What the loader puts in memory is what was in the file. */
  lemma LoadedAsWanted(l: Loader, p: Program, i: nat, f: Flags, vsec: nat, click: nat)
    requires Loadable(p) && Sized(HeaderOf(p), f) && ClickOk(click)
    requires l.Bytes(vsec, |Body(p)|) == Body(p)
    ensures Contents(l, HeaderOf(p), i, f, vsec, click) == Wanted(p, i, f, click)
  {
    hide Has, Long, Ceil, ClickOk, l.Bytes, Room, Contents, Wanted, Sized, TextLen, BssSize, ExecOf, Strip, IsExec,
      Complete, Loadable, HeaderOf, Start, Body, InImage, Loaded, Laid, DataSize;
    LoadableComplete(p);
    var e, s := ExecOf(p.file).value, HeaderOf(p);
    FileParts(p);
    BssRoom(s, i, f, click);
    var bss := Ceil(DataSize(s) + BssSize(s, i, f), click) - Room(DataSize(s), click);
    LoadedAsLaid(l, vsec, p.file, Start(e), TextLen(e), Data(e), Has(e, A_SEP), bss, click);
    ContentsShape(l, s, i, f, vsec, click);
    WantedShape(p, i, f, click);
  }

  lemma FileParts(p: Program)
    requires Loadable(p)
    ensures var e, s := ExecOf(p.file).value, HeaderOf(p);
            && Has(s, A_SEP) == Has(e, A_SEP) && TextLen(s) == TextLen(e) >= 0 && Data(s) == Data(e) >= 0
            && Start(e) + TextLen(e) + Data(e) <= |p.file|
            && Body(p) == InImage(p.file, Start(e), TextLen(e), Data(e), Has(e, A_SEP))
  {
    hide Has, Long, Padded, Strip, ExecOf, Segments, IsExec, Ceil;
    var e := ExecOf(p.file).value;
    StripSizes(e);
    ImageParts(p);
    TwoSegments(p.file, Start(e), e);
    if Has(e, A_SEP) {
      PaddedLength(p.file, Start(e), TextLen(e));
      PaddedLength(p.file, Start(e) + TextLen(e), Data(e));
    } else {
      PaddedLength(p.file, Start(e), TextLen(e) + Data(e));
    }
  }

  lemma ContentsShape(l: Loader, e: Exec, i: nat, f: Flags, vsec: nat, click: nat)
    requires ClickOk(click) && Sized(e, f) && TextLen(e) >= 0 && Data(e) >= 0
    ensures var bss := Ceil(DataSize(e) + BssSize(e, i, f), click) - Room(DataSize(e), click);
            && bss >= 0
            && Contents(l, e, i, f, vsec, click) == Loaded(l, vsec, TextLen(e), Data(e), Has(e, A_SEP), bss, click)
  {
    hide Has, Long, Ceil, ClickOk, l.Segment, Room, Sectors, Sized, TextLen, BssSize;
    BssRoom(e, i, f, click);
  }

  lemma WantedShape(p: Program, i: nat, f: Flags, click: nat)
    requires Loadable(p) && Sized(HeaderOf(p), f) && ClickOk(click)
    requires var e := ExecOf(p.file).value;
             TextLen(e) >= 0 && Data(e) >= 0 && Start(e) + TextLen(e) + Data(e) <= |p.file|
    requires var bss := Ceil(DataSize(HeaderOf(p)) + BssSize(HeaderOf(p), i, f), click);
             bss >= Room(DataSize(HeaderOf(p)), click)
    ensures var e, s := ExecOf(p.file).value, HeaderOf(p);
            var bss := Ceil(DataSize(s) + BssSize(s, i, f), click) - Room(DataSize(s), click);
            Wanted(p, i, f, click) == Laid(p.file, Start(e), TextLen(e), Data(e), Has(e, A_SEP), bss, click)
  {
    hide Has, Long, Ceil, ClickOk, Strip, ExecOf, Sized, TextLen, Body, Padded;
    FileParts(p);
  }

  lemma ZerosAdd(a: nat, b: nat)
    ensures Zeros(a) + Zeros(b) == Zeros(a + b)
  {
  }

  lemma Regroup(a: seq<Byte>, b: seq<Byte>, c: seq<Byte>, d: seq<Byte>)
    ensures a + (b + c) + d == a + b + (c + d)
    ensures a + b + c + d == a + b + (c + d)
  {
  }

  lemma SegmentParts(l: Loader, vsec: nat, file: seq<Byte>, pos: nat, text: nat, data: nat)
    requires pos + text + data <= |file|
    requires var a, b := Padded(file, pos, text).value, Padded(file, pos + text, data).value;
             l.Bytes(vsec, |a + b|) == a + b
    ensures l.Bytes(vsec, Ceil(text, SECTOR_SIZE)) == Padded(file, pos, text).value
    ensures l.Bytes(vsec + Sectors(text), Ceil(data, SECTOR_SIZE)) == Padded(file, pos + text, data).value
  {
    hide Padded, l.Bytes, Ceil;
    PaddedLength(file, pos, text);
    PaddedLength(file, pos + text, data);
    CeilBounds(text, SECTOR_SIZE);
    var a, b := Padded(file, pos, text).value, Padded(file, pos + text, data).value;
    BytesSplit(l, vsec, |a|, |b|);
    assert (a + b)[..|a|] == a && (a + b)[|a|..] == b;
  }
}
