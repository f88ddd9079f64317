/** installboot: images are written and read byte by byte and sector by sector through files. */
module InstallBoot {
  import opened Options
  import opened Arithmetic
  import opened BootBytes
  import opened BootImage

  class InFile {
    const data: seq<Byte>
    var pos: nat

    constructor (data: seq<Byte>)
      ensures Valid() && this.data == data && pos == 0
    {
      this.data, pos := data, 0;
    }

    ghost predicate Valid()
      reads this
    {
      pos <= |data|
    }

    ghost function Rest(): seq<Byte>
      requires Valid()
      reads this
    {
      data[pos..]
    }

    method Getc() returns (c: Option<Byte>)
      requires Valid()
      modifies this
      ensures Valid()
      ensures if old(pos) < |data| then c == Some(data[old(pos)]) && pos == old(pos) + 1
              else c == None && pos == old(pos)
    {
      if pos < |data| {
        c := Some(data[pos]);
        pos := pos + 1;
      } else {
        c := None;
      }
    }

    /** bread: all of the bytes or a fatal error. */
    method Read(len: nat) returns (b: Option<seq<Byte>>)
      requires Valid()
      modifies this
      ensures Valid() && (b.Some? <==> old(pos) + len <= |data|)
      ensures b.Some? ==> b.value == data[old(pos)..old(pos) + len] && pos == old(pos) + len
      ensures b == None ==> pos == old(pos)
    {
      if pos + len <= |data| {
        b := Some(data[pos..pos + len]);
        pos := pos + len;
      } else {
        b := None;
      }
    }

    /** bread into a structure that has room for so many bytes: they are stored one by one until
        there are `len` of them or the file ends.  Overrun: one was stored behind the structure,
        and what happens then is not part of this model. */
    method ReadInto(len: nat, room: nat) returns (b: Option<seq<Byte>>, overrun: bool)
      requires Valid()
      modifies this
      ensures Valid() && (b.Some? <==> len <= room && old(pos) + len <= |data|)
      ensures b.Some? ==> b.value == data[old(pos)..old(pos) + len] && pos == old(pos) + len
      ensures overrun <==> len > room && |old(Rest())| > room
    {
      ghost var start := pos;
      var left, stored := len, [];
      while left > 0
        invariant Valid() && pos == start + len - left && stored == data[start..pos] && |stored| <= room
      {
        var c := Getc();
        if c == None {
          return None, false;
        }
        if |stored| == room {
          return None, true;
        }
        stored := stored + [c.value];
        left := left - 1;
      }
      b, overrun := Some(stored), false;
    }
  }

  class OutFile {
    var data: seq<Byte>

    constructor ()
      ensures data == []
    {
      data := [];
    }

    method Write(b: seq<Byte>)
      modifies this
      ensures data == old(data) + b
    {
      data := data + b;
    }
  }

  method PadImage(imagef: OutFile, n: int)
    modifies imagef
    ensures imagef.data == old(imagef.data) + Zeros(if n > 0 then n else 0)
  {
    var left := n;
    while left > 0
      invariant n > 0 ==> 0 <= left <= n
      invariant imagef.data == old(imagef.data) + Zeros(if n > 0 then n - left else 0)
    {
      imagef.Write([0]);
      left := left - 1;
    }
  }

  method CopyExec(procf: InFile, imagef: OutFile, n: int) returns (ok: bool)
    requires procf.Valid()
    modifies procf, imagef
    ensures procf.Valid()
    ensures ok <==> Padded(procf.data, old(procf.pos), n).Some?
    ensures ok ==> imagef.data == old(imagef.data) + Padded(procf.data, old(procf.pos), n).value
    ensures ok ==> procf.pos == old(procf.pos) + if n > 0 then n else 0
  {
    hide Ceil;
    CeilBounds(n, SECTOR_SIZE);
    var pad := Ceil(n, SECTOR_SIZE) - n;
    ghost var start := procf.pos;
    var left := n;
    while left > 0
      invariant n > 0 ==> 0 <= left <= n
      invariant procf.Valid() && procf.pos == start + if n > 0 then n - left else 0
      invariant imagef.data == old(imagef.data) + procf.data[start..procf.pos]
    {
      var c := procf.Getc();
      if c == None {
        return false;
      }
      imagef.Write([c.value]);
      left := left - 1;
    }
    PadImage(imagef, pad);
    ok := true;
  }

  /** An executable whose header makes installboot write behind `struct exec`: nothing checks that
      the header is not longer than that, nor that it is not shorter than the part that is there
      already, in which case the rest of it is a negative number of bytes, a huge `size_t`. */
  predicate Overruns(file: seq<Byte>) {
    && |file| > EXEC_SIZE && file[0] == 0x01 && file[1] == 0x03
    && (file[4] as int < A_MINHDR || file[4] as int > EXEC_SIZE)
  }

  /** One file of each kind, as short as can be: a header of no bytes, and one of 49. */
  lemma OverrunsBothWays()
    ensures var short, long := [1, 3, 0, 0, 0] + Zeros(44), [1, 3, 0, 0, 49] + Zeros(44);
            Overruns(short) && Overruns(long) && |short| == |long| == EXEC_SIZE + 1
  {
    assert ([1, 3, 0, 0, 0] + Zeros(44))[4] == 0;
  }

  /** The header of an executable that is about to go into an image. */
  method ReadHeader(procf: InFile) returns (e: Option<Exec>, overrun: bool)
    requires procf.Valid() && procf.pos == 0
    modifies procf
    ensures procf.Valid() && e == ExecOf(procf.data)
    ensures e.Some? ==> procf.pos == HdrLen(e.value)
    ensures overrun <==> Overruns(procf.data)
  {
    var h := procf.Read(A_MINHDR);
    if h == None || h.value[0] != 0x01 || h.value[1] != 0x03 {
      return None, false;
    }
    var n := h.value[4] as int;
    var more;
    more, overrun := procf.ReadInto(Word(n - A_MINHDR), EXEC_SIZE - A_MINHDR);
    if more == None {
      return None, overrun;
    }
    var exec: Exec := h.value + more.value + Zeros(EXEC_SIZE - n);
    assert h.value + more.value == procf.data[..n];
    e := Some(exec);
  }

  /** One program goes into the image. */
  method AddProgram(p: Program, imagef: OutFile) returns (ok: bool, overrun: bool)
    modifies imagef
    ensures ok <==> ImageOf(p).Some?
    ensures overrun <==> Overruns(p.file)
    ensures ok ==> imagef.data == old(imagef.data) + ImageOf(p).value
  {
    hide ExecOf, Padded, Has, Long, Strip, NameField;
    var procf := new InFile(p.file);
    var e;
    e, overrun := ReadHeader(procf);
    if e == None {
      return false, overrun;
    }
    var phdr := e.value;
    ghost var before := imagef.data;
    imagef.Write(NameField(p.name) + Strip(phdr));
    PadImage(imagef, SECTOR_SIZE - HEADER_SIZE);
    assert imagef.data == before + HeaderSector(p, phdr);
    ok := CopySegments(procf, imagef, phdr);
  }

  /** Copy text and data, from the start of the file if the header belongs to the text. */
  method CopySegments(procf: InFile, imagef: OutFile, phdr: Exec) returns (ok: bool)
    requires procf.Valid() && procf.pos == HdrLen(phdr)
    modifies procf, imagef
    ensures var s := Segments(procf.data, Start(phdr), Lengths(phdr));
            (ok <==> s.Some?) && (ok ==> imagef.data == old(imagef.data) + s.value)
  {
    hide Padded, Has, Long;
    var text := Text(phdr);
    if Has(phdr, A_PAL) {
      procf.pos := 0;
      text := text + HdrLen(phdr);
    }
    TwoSegments(procf.data, Start(phdr), phdr);
    if Has(phdr, A_SEP) {
      ok := CopyExec(procf, imagef, text);
      if ok {
        ok := CopyExec(procf, imagef, Data(phdr));
      }
    } else {
      ok := CopyExec(procf, imagef, text + Data(phdr));
    }
  }

  /** All programs before the `k`-th are good, and its header makes installboot write too far. */
  predicate OverrunsAt(ps: seq<Program>, k: nat)
    requires k < |ps|
  {
    Overruns(ps[k].file) && forall j :: 0 <= j < k ==> ImageOf(ps[j]).Some?
  }

  method MakeImage(ps: seq<Program>, imagef: OutFile) returns (ok: bool, overrun: bool)
    requires imagef.data == []
    modifies imagef
    ensures ok <==> Image(ps).Some?
    ensures ok ==> imagef.data == Image(ps).value
    ensures overrun <==> exists k :: 0 <= k < |ps| && OverrunsAt(ps, k)
  {
    hide ImageOf, Image, Overruns;
    overrun := false;
    var procn := 0;
    ImageEnd();
    assert ps[0..] == ps;
    while procn < |ps|
      invariant procn <= |ps|
      invariant Image(ps).Some? <==> Image(ps[procn..]).Some?
      invariant Image(ps).Some? ==> Image(ps).value == imagef.data + Image(ps[procn..]).value
      invariant !overrun && forall k :: 0 <= k < procn ==> ImageOf(ps[k]).Some? && !Overruns(ps[k].file)
    {
      ImageOn(ps, procn);
      ok, overrun := AddProgram(ps[procn], imagef);
      if !ok {
        assert overrun ==> OverrunsAt(ps, procn);
        return;
      }
      OverrunsFails(ps[procn]);
      procn := procn + 1;
    }
    assert ps[procn..] == [];
    ok := true;
  }

  lemma OverrunsFails(p: Program)
    ensures Overruns(p.file) ==> ImageOf(p) == None
  {
  }

  lemma ImageEnd()
    ensures Image([]) == Some([])
  {
  }

  lemma ImageOn(ps: seq<Program>, k: nat)
    requires k < |ps|
    ensures var head, tail := ImageOf(ps[k]), Image(ps[k + 1..]);
            Image(ps[k..]) == if head == None || tail == None then None else Some(head.value + tail.value)
  {
    hide ImageOf;
    assert ps[k..][0] == ps[k] && ps[k..][1..] == ps[k + 1..];
  }

  /** A segment is taken out of the image sector by sector; `len` counts what is left of it. */
  method ExtractExec(imagef: InFile, procf: OutFile, count: int, len: int) returns (ok: bool, len': int)
    requires imagef.Valid()
    modifies imagef, procf
    ensures imagef.Valid()
    ensures var t := Taken(old(imagef.Rest()), count);
            && (ok <==> t.Some?)
            && (ok ==> procf.data == old(procf.data) + t.value.0 && imagef.Rest() == t.value.1)
            && (ok ==> len' - |imagef.Rest()| == len - |old(imagef.Rest())|)
  {
    hide Ceil, Taken;
    ghost var n: nat := if count > 0 then count else 0;
    ghost var start, done := imagef.pos, 0;
    var left := count;
    len' := len;
    while left > 0
      invariant imagef.Valid() && imagef.pos == start + done && left == count - done && len' == len - done
      invariant 0 <= done < n + SECTOR_SIZE && done % SECTOR_SIZE == 0
      invariant procf.data == old(procf.data) + imagef.data[start..start + Least(done, n)]
    {
      var buf := imagef.Read(SECTOR_SIZE);
      if buf == None {
        NotTaken(imagef.data[start..], count, n, done);
        return false, len';
      }
      len' := len' - SECTOR_SIZE;
      var m := if left < SECTOR_SIZE then left else SECTOR_SIZE;
      NextPart(imagef.data, start, done, m);
      procf.Write(buf.value[..m]);
      left := left - SECTOR_SIZE;
      done := done + SECTOR_SIZE;
    }
    AllTaken(imagef.data, start, count, n, done);
    ok := true;
  }

  lemma NextPart(data: seq<Byte>, start: nat, done: nat, m: nat)
    requires start + done + SECTOR_SIZE <= |data| && m <= SECTOR_SIZE
    ensures data[start..start + done] + data[start + done..start + done + SECTOR_SIZE][..m]
         == data[start..start + done + m]
  {
  }

  lemma NotTaken(rest: seq<Byte>, count: int, n: nat, done: nat)
    requires n == (if count > 0 then count else 0) && done % SECTOR_SIZE == 0 && done < n
    requires done + SECTOR_SIZE > |rest|
    ensures Taken(rest, count) == None
  {
    hide Ceil;
    CeilAbove(n, done);
  }

  lemma AllTaken(data: seq<Byte>, start: nat, count: int, n: nat, done: nat)
    requires n == (if count > 0 then count else 0) && done % SECTOR_SIZE == 0 && n <= done < n + SECTOR_SIZE
    requires start + done <= |data|
    ensures Taken(data[start..], count) == Some((data[start..start + Least(done, n)], data[start + done..]))
  {
    hide Ceil;
    CeilUnique(n, SECTOR_SIZE, done);
    var rest := data[start..];
    assert rest[..n] == data[start..start + n] && rest[done..] == data[start + done..];
  }

  function Least(a: nat, b: nat): nat {
    if a < b then a else b
  }

  lemma CeilAbove(n: int, done: int)
    requires done % SECTOR_SIZE == 0 && done < n
    ensures done + SECTOR_SIZE <= Ceil(n, SECTOR_SIZE)
  {
  }

  /** One program is taken out of the image.  Overread: its file gets bytes from behind the header,
      and which ones is not part of this model. */
  method ExtractProgram(imagef: InFile, len: int) returns (p: Option<Program>, len': int, overread: bool)
    requires imagef.Valid() && len == |imagef.Rest()| > 0
    modifies imagef
    ensures imagef.Valid()
    ensures overread ==> p == None
    ensures Overreads(old(imagef.Rest())) <==> overread || (p.Some? && Overreads(imagef.Rest()))
    ensures p.Some? ==> len' == |imagef.Rest()| < len
    ensures Programs(old(imagef.Rest())) ==
            if p == None || Programs(imagef.Rest()) == None then None
            else Some([p.value] + Programs(imagef.Rest()).value)
  {
    hide Programs, Overreads, Extract, Has, Long, CString, Ceil;
    overread := false;
    ghost var image := imagef.Rest();
    TakenApart(image);
    var buf := imagef.Read(SECTOR_SIZE);
    if buf == None {
      return None, len, false;
    }
    len' := len - SECTOR_SIZE;
    assert buf.value == image[..SECTOR_SIZE];
    var ihdr: Exec := buf.value[IM_NAME_MAX + 1..HEADER_SIZE];
    assert ihdr == image[IM_NAME_MAX + 1..HEADER_SIZE];
    if !IsExec(ihdr) {
      return None, len', false;
    }
    assert imagef.Rest() == image[SECTOR_SIZE..];
    var procf := new OutFile();
    var text := Text(ihdr);
    if Has(ihdr, A_PAL) {
      text := text + HdrLen(ihdr);
    } else if HdrLen(ihdr) > EXEC_SIZE {
      return None, len', true;
    } else {
      procf.Write(ihdr[..HdrLen(ihdr)]);
    }
    assert procf.data == if Has(ihdr, A_PAL) then [] else ihdr[..HdrLen(ihdr)];
    var ok;
    ok, len' := ExtractSegments(imagef, procf, ihdr, text, len');
    if !ok {
      return None, len', false;
    }
    assert buf.value[..IM_NAME_MAX + 1] == image[..IM_NAME_MAX + 1];
    p := Some(Program(CString(buf.value[..IM_NAME_MAX + 1]), procf.data));
  }

  /** Extract text and data segments. */
  method ExtractSegments(imagef: InFile, procf: OutFile, phdr: Exec, text: int, len: int) returns (ok: bool, len': int)
    requires imagef.Valid() && text == TextLen(phdr) && len == |imagef.Rest()|
    modifies imagef, procf
    ensures imagef.Valid()
    ensures var t := Extract(old(imagef.Rest()), Lengths(phdr));
            && (ok <==> t.Some?)
            && (ok ==>
              procf.data == old(procf.data) + t.value.0 && imagef.Rest() == t.value.1 &&
              len' == |imagef.Rest()|)
  {
    hide Extract, Has, Long, Ceil;
    TwoExtracts(imagef.Rest(), phdr);
    if Has(phdr, A_SEP) {
      ok, len' := ExtractExec(imagef, procf, text, len);
      if ok {
        ok, len' := ExtractExec(imagef, procf, Data(phdr), len');
      }
    } else {
      ok, len' := ExtractExec(imagef, procf, text + Data(phdr), len);
    }
  }

  lemma TakenApart(image: seq<Byte>)
    requires image != []
    ensures |image| < SECTOR_SIZE ==> Programs(image) == None && !Overreads(image)
    ensures |image| >= SECTOR_SIZE ==>
              var e: Exec := image[IM_NAME_MAX + 1..HEADER_SIZE];
              var body := Extract(image[SECTOR_SIZE..], Lengths(e));
              && Overreads(image) == (IsExec(e) && (HeaderKnown(e) ==> body.Some? && Overreads(body.value.1)))
              && Programs(image) ==
              if !IsExec(e) || !HeaderKnown(e) || body == None || Programs(body.value.1) == None then None
              else Some([Program(CString(image[..IM_NAME_MAX + 1]),
                                 (if Has(e, A_PAL) then [] else e[..HdrLen(e)]) + body.value.0)]
                                   + Programs(body.value.1).value)
  {
    hide Extract, Has, Long, CString;
  }

  /** One segment at the start of `rest`. */
  function Taken(rest: seq<Byte>, count: int): (r: Option<(seq<Byte>, seq<Byte>)>) {
    var n := if count > 0 then count else 0;
    CeilBounds(n, SECTOR_SIZE);
    if Ceil(n, SECTOR_SIZE) > |rest| then None else Some((rest[..n], rest[Ceil(n, SECTOR_SIZE)..]))
  }

  lemma TwoExtracts(rest: seq<Byte>, e: Exec)
    ensures var text := TextLen(e);
            Extract(rest, Lengths(e)) ==
            if Has(e, A_SEP) then
              var a := Taken(rest, text);
              if a == None then None else
                var b := Taken(a.value.1, Data(e));
                if b == None then None else Some((a.value.0 + b.value.0, b.value.1))
            else Taken(rest, text + Data(e))
  {
    hide Has, Long, Ceil;
    var text := TextLen(e);
    if Has(e, A_SEP) {
      assert [text, Data(e)][1..] == [Data(e)];
      var a := Taken(rest, text);
      if a.Some? {
        OneExtract(a.value.1, Data(e));
      }
    } else {
      OneExtract(rest, text + Data(e));
    }
  }

  lemma OneExtract(rest: seq<Byte>, n: int)
    ensures Extract(rest, [n]) == Taken(rest, n)
  {
    hide Ceil;
    assert [n][1..] == [];
    var a := Taken(rest, n);
    if a.Some? {
      assert a.value.0 + [] == a.value.0;
    }
  }

  /** All programs are taken out of the image. */
  method ExtractImage(image: seq<Byte>) returns (ps: Option<seq<Program>>, overread: bool)
    ensures ps == Programs(image)
    ensures overread <==> Overreads(image)
  {
    hide Programs, Overreads;
    overread := false;
    var imagef := new InFile(image);
    var len := |image|;
    var done := [];
    NoPrograms();
    assert imagef.Rest() == image;
    if Programs(image).Some? {
      assert done + Programs(image).value == Programs(image).value;
    }
    while len != 0
      invariant imagef.Valid() && len == |imagef.Rest()|
      invariant !overread && (Overreads(image) <==> Overreads(imagef.Rest()))
      invariant Programs(image) == if Programs(imagef.Rest()) ==
                None then None else Some(done + Programs(imagef.Rest()).value)
      decreases len
    {
      var p;
      p, len, overread := ExtractProgram(imagef, len);
      if p == None {
        return None, overread;
      }
      if Programs(imagef.Rest()).Some? {
        assert done + ([p.value] + Programs(imagef.Rest()).value) == done + [p.value] + Programs(imagef.Rest()).value;
      }
      done := done + [p.value];
    }
    assert imagef.Rest() == [];
    assert done + [] == done;
    OverreadsNot(image);
    ps := Some(done);
  }
}
