/** cd: the name of the current directory is kept up to date as a string. */
module ShellCd {
  import opened Options

  // Path names as lists of components.

  predicate Plain(s: string) {
    '/' !in s
  }

  /** The components between the slashes, empty ones too. */
  function Split(s: string): (r: seq<string>)
    ensures r != [] && forall k :: 0 <= k < |r| ==> Plain(r[k])
    decreases |s|
  {
    var n := Slash(s);
    if n == |s| then [s] else [s[..n]] + Split(s[n + 1..])
  }

  /** The position of the first slash, or the length. */
  function Slash(s: string): (n: nat)
    ensures n <= |s| && Plain(s[..n]) && (n < |s| ==> s[n] == '/')
  {
    if s == "" || s[0] == '/' then 0 else
      var n := 1 + Slash(s[1..]);
      assert s[..n] == [s[0]] + s[1..][..n - 1];
      n
  }

  /** A component that a normal path name may have. */
  predicate Proper(c: string) {
    Plain(c) && c != "" && c != "." && c != ".."
  }

  predicate Normal(stack: seq<string>) {
    forall k :: 0 <= k < |stack| ==> Proper(stack[k])
  }

  /** What one component does: ".." pops, except at the root; "." and nothing do nothing. */
  function Step(stack: seq<string>, c: string): (r: seq<string>)
    requires Normal(stack) && Plain(c)
    ensures Normal(r)
  {
    if c == ".." then (if stack == [] then [] else stack[..|stack| - 1])
    else if c == "" || c == "." then stack
    else stack + [c]
  }

  function Walk(stack: seq<string>, cs: seq<string>): (r: seq<string>)
    requires Normal(stack) && forall k :: 0 <= k < |cs| ==> Plain(cs[k])
    ensures Normal(r)
    decreases |cs|
  {
    if cs == [] then stack else Walk(Step(stack, cs[0]), cs[1..])
  }

  predicate Absolute(dir: string) {
    dir != "" && dir[0] == '/'
  }

  /** The directory that `cd dir` leads to. */
  function Cd(stack: seq<string>, dir: string): (r: seq<string>)
    requires Normal(stack)
    ensures Normal(r)
  {
    Walk(if Absolute(dir) then [] else stack, Split(dir))
  }

  function Path(stack: seq<string>): string {
    if stack == [] then "" else Path(stack[..|stack| - 1]) + "/" + stack[|stack| - 1]
  }

  /** The name of a directory. */
  function Name(stack: seq<string>): string {
    if stack == [] then "/" else Path(stack)
  }

  // The name determines the directory.

  lemma SplitSlash(a: string, b: string)
    requires Plain(a)
    ensures Slash(a + "/" + b) == |a|
    ensures Split(a + "/" + b) == [a] + Split(b)
  {
    SlashAt(a, "/" + b);
    assert a + "/" + b == a + ("/" + b);
    assert (a + "/" + b)[..|a|] == a && (a + "/" + b)[|a| + 1..] == b;
  }

  lemma {:induction false} SlashAt(a: string, t: string)
    requires Plain(a) && (t == "" || t[0] == '/')
    ensures Slash(a + t) == |a|
    decreases |a|
  {
    if a == "" {
      assert a + t == t;
    } else {
      assert (a + t)[1..] == a[1..] + t && a[0] != '/';
      SlashAt(a[1..], t);
    }
  }

  lemma SplitPlain(a: string)
    requires Plain(a)
    ensures Split(a) == [a]
  {
    SlashAt(a, "");
    assert a + "" == a;
  }

  lemma SplitOn(s: string)
    ensures Split(s) == if Slash(s) == |s| then [s] else [s[..Slash(s)]] + Split(s[Slash(s) + 1..])
  {
    hide Slash, Plain;
  }

  lemma SlashParts(a: string)
    requires Slash(a) < |a|
    ensures a == a[..Slash(a)] + "/" + a[Slash(a) + 1..]
  {
    hide Slash, Plain;
    var n := Slash(a);
    assert a[n..n + 1] == "/";
  }

  lemma Regroup(x: string, y: string, b: string)
    ensures x + "/" + y + "/" + b == x + "/" + (y + "/" + b)
  {
  }

  /** Splitting undoes joining with a slash. */
  lemma {:induction false} SplitJoined(a: string, b: string)
    ensures Split(a + "/" + b) == Split(a) + Split(b)
    decreases |a|
  {
    hide Split, Slash, Plain;
    SplitOn(a);
    var n := Slash(a);
    if n == |a| {
      assert a[..n] == a;
      SplitSlash(a, b);
    } else {
      var rest := a[n + 1..];
      SlashParts(a);
      Regroup(a[..n], rest, b);
      SplitSlash(a[..n], rest + "/" + b);
      SplitJoined(rest, b);
      assert [a[..n]] + (Split(rest) + Split(b)) == [a[..n]] + Split(rest) + Split(b);
    }
  }

  lemma {:induction false} SplitPath(stack: seq<string>)
    requires Normal(stack)
    ensures Split(Path(stack)) == [""] + stack
    decreases |stack|
  {
    hide Split;
    if stack == [] {
      SplitPlain("");
    } else {
      var front, last := stack[..|stack| - 1], stack[|stack| - 1];
      assert Proper(last);
      SplitPath(front);
      SplitJoined(Path(front), last);
      SplitPlain(last);
      assert [""] + front + [last] == [""] + stack;
    }
  }

  lemma NameDetermines(s: seq<string>, t: seq<string>)
    requires Normal(s) && Normal(t) && Name(s) == Name(t)
    ensures s == t
  {
    SplitPath(s);
    SplitPath(t);
    SplitPlain("");
    SplitSlash("", "");
    assert "" + "/" + "" == "/";
    if s == [] && t != [] {
      PathIsNotRoot(t);
    } else if s != [] && t == [] {
      PathIsNotRoot(s);
    } else {
      assert s == ([""] + s)[1..] && t == ([""] + t)[1..];
    }
  }

  lemma PathIsNotRoot(s: seq<string>)
    requires Normal(s) && s != []
    ensures Path(s) != "/"
  {
    assert Proper(s[|s| - 1]);
    assert |Path(s)| >= 2;
  }

  // Two steps and one.

  /** From everywhere the name of a directory leads to it. */
  lemma CdByName(stack: seq<string>, to: seq<string>)
    requires Normal(stack) && Normal(to)
    ensures Cd(stack, Name(to)) == to
  {
    hide Split;
    if to == [] {
      RootName();
      assert Walk(Walk([], [""]), [""]) == [];
      assert ["", ""] == [""] + [""];
      assert Walk([], ["", ""]) == Walk(Step([], ""), [""]);
    } else {
      SplitPath(to);
      PathStarts(to);
      assert ([""] + to)[1..] == to;
      assert Walk([], [""] + to) == Walk(Step([], ""), to);
      WalkDown([], to);
    }
  }

  lemma RootName()
    ensures Split("/") == ["", ""]
  {
    SplitSlash("", "");
    assert "" + "/" + "" == "/";
    SplitPlain("");
  }

  lemma PathStarts(stack: seq<string>)
    requires stack != []
    ensures Absolute(Path(stack))
  {
    if |stack| > 1 {
      PathStarts(stack[..|stack| - 1]);
    }
  }

  lemma {:induction false} WalkDown(stack: seq<string>, cs: seq<string>)
    requires Normal(stack) && Normal(cs)
    ensures Walk(stack, cs) == stack + cs
    decreases |cs|
  {
    if cs == [] {
      assert stack + cs == stack;
    } else {
      WalkDown(stack + [cs[0]], cs[1..]);
      assert stack + [cs[0]] + cs[1..] == stack + cs;
    }
  }

  /** A name leads down, ".." back up, and at the root nowhere; "." and an empty name lead nowhere. */
  lemma DownAndUp(stack: seq<string>, c: string)
    requires Normal(stack) && Proper(c)
    ensures Cd(stack, c) == stack + [c] && Cd(stack + [c], "..") == stack && Cd([], "..") == []
    ensures Cd(stack, ".") == stack && Cd(stack, "") == stack
  {
    SplitPlain(c);
    SplitPlain("..");
    SplitPlain(".");
    SplitPlain("");
    assert (stack + [c])[..|stack|] == stack;
    OneStep(stack, c);
    OneStep(stack + [c], "..");
    OneStep([], "..");
    OneStep(stack, ".");
    OneStep(stack, "");
  }

  lemma OneStep(stack: seq<string>, c: string)
    requires Normal(stack) && Plain(c)
    ensures Walk(stack, [c]) == Step(stack, c)
  {
    assert [c][1..] == [];
  }

  lemma {:induction false} WalkTwice(stack: seq<string>, a: seq<string>, b: seq<string>)
    requires Normal(stack) && (forall k :: 0 <= k < |a| ==> Plain(a[k])) && (forall k :: 0 <= k < |b| ==> Plain(b[k]))
    ensures Walk(stack, a + b) == Walk(Walk(stack, a), b)
    decreases |a|
  {
    if a == [] {
      assert a + b == b;
    } else {
      assert (a + b)[0] == a[0] && (a + b)[1..] == a[1..] + b;
      WalkTwice(Step(stack, a[0]), a[1..], b);
    }
  }

  /** How many levels a walk goes up above its start, beyond `own` levels of its own. */
  function Climbs(cs: seq<string>, own: nat): nat {
    if cs == [] then 0
    else if cs[0] == ".." then (if own > 0 then Climbs(cs[1..], own - 1) else 1 + Climbs(cs[1..], 0))
    else if cs[0] == "" || cs[0] == "." then Climbs(cs[1..], own)
    else Climbs(cs[1..], own + 1)
  }

  /** A walk keeps what it does not climb over of the directory it starts in. */
  lemma {:induction false} WalkFrom(base: seq<string>, own: seq<string>, cs: seq<string>)
    requires Normal(base) && Normal(own) && forall k :: 0 <= k < |cs| ==> Plain(cs[k])
    ensures Normal(base + own)
    ensures Walk(base + own, cs) == Kept(base, Climbs(cs, |own|)) + Walk(own, cs)
    decreases |cs|
  {
    hide Walk, Climbs, Step;
    WalkOn(base + own, cs);
    WalkOn(own, cs);
    ClimbsOn(cs, |own|);
    if cs == [] {
      assert base[..|base|] == base;
    } else if cs[0] == ".." && own == [] {
      assert base + own == base;
      StepUp(base);
      StepUp([]);
      WalkFrom(Kept(base, 1), [], cs[1..]);
      assert Kept(base, 1) + [] == Kept(base, 1);
      KeptTwice(base, 1, Climbs(cs[1..], 0));
    } else {
      StepOn(base, own, cs[0]);
      WalkFrom(base, Step(own, cs[0]), cs[1..]);
    }
  }

  /** What is left of a directory `n` levels further up. */
  function Kept(base: seq<string>, n: nat): seq<string> {
    base[..if n < |base| then |base| - n else 0]
  }

  lemma KeptTwice(base: seq<string>, m: nat, n: nat)
    ensures Kept(Kept(base, m), n) == Kept(base, m + n)
  {
  }

  lemma WalkOn(stack: seq<string>, cs: seq<string>)
    requires Normal(stack) && forall k :: 0 <= k < |cs| ==> Plain(cs[k])
    ensures Walk(stack, cs) == if cs == [] then stack else Walk(Step(stack, cs[0]), cs[1..])
  {
  }

  lemma ClimbsOn(cs: seq<string>, own: nat)
    ensures Climbs(cs, own) ==
            if cs == [] then 0
            else if cs[0] == ".." then (if own > 0 then Climbs(cs[1..], own - 1) else 1 + Climbs(cs[1..], 0))
            else if cs[0] == "" || cs[0] == "." then Climbs(cs[1..], own)
            else Climbs(cs[1..], own + 1)
  {
  }

  lemma StepUp(stack: seq<string>)
    requires Normal(stack)
    ensures Step(stack, "..") == Kept(stack, 1)
  {
  }

  lemma StepOn(base: seq<string>, own: seq<string>, c: string)
    requires Normal(base) && Normal(own) && Plain(c) && !(c == ".." && own == [])
    ensures Normal(base + own) && Step(base + own, c) == base + Step(own, c)
    ensures |Step(own, c)| == if c == ".." then |own| - 1 else if c == "" || c == "." then |own| else |own| + 1
  {
  }

  /** Changing to `a` and from there to `b`, which is relative, is changing to `a/b`; the exception
      is an empty `a`, for then `a/b` is absolute, unless `b` climbs to the root anyway. */
  lemma CdTwice(stack: seq<string>, a: string, b: string)
    requires Normal(stack) && !Absolute(b)
    ensures Cd(Cd(stack, a), b) == Cd(stack, a + "/" + b) <==> a != "" || Climbs(Split(b), 0) >= |stack|
  {
    var start := if Absolute(a) then [] else stack;
    SplitJoined(a, b);
    WalkTwice(start, Split(a), Split(b));
    if a == "" {
      SplitPlain("");
      assert Absolute(a + "/" + b) && Cd(stack, a) == stack;
      assert Split(a + "/" + b)[1..] == Split(b);
      assert Cd(stack, a + "/" + b) == Walk([], Split(b));
      WalkFrom(stack, [], Split(b));
      assert stack + [] == stack;
      var n := Climbs(Split(b), 0);
      if n < |stack| {
        assert |Cd(Cd(stack, a), b)| > |Cd(stack, a + "/" + b)|;
      } else {
        assert [] + Walk([], Split(b)) == Walk([], Split(b));
      }
    } else {
      assert Absolute(a + "/" + b) == Absolute(a);
    }
  }

  // The code.

  class Directory {
    var curdir: Option<string>
    var cdcomppath: Option<string>

    /** What curdir stands for. */
    ghost var stack: seq<string>

    constructor (known: bool)
      ensures Valid() && stack == [] && curdir == if known then Some("/") else None
    {
      curdir := if known then Some("/") else None;
      cdcomppath, stack := None, [];
    }

    ghost predicate Valid()
      reads this
    {
      Normal(stack) && (curdir.Some? ==> curdir.value == Name(stack))
    }

    method GetComponent() returns (p: Option<string>)
      modifies this`cdcomppath
      ensures if old(cdcomppath) == None then p == None && cdcomppath == None
              else
                var cs := Split(old(cdcomppath).value);
                && p == Some(cs[0])
                && if |cs| == 1 then cdcomppath == None
                   else
                     && cdcomppath.Some? && Split(cdcomppath.value) == cs[1..]
                     && |cdcomppath.value| < |old(cdcomppath).value|
    {
      if cdcomppath == None {
        return None;
      }
      var path := cdcomppath.value;
      var n := 0;
      while n < |path| && path[n] != '/'
        invariant n <= |path| && Slash(path) == n + Slash(path[n..])
      {
        assert path[n..][1..] == path[n + 1..];
        n := n + 1;
      }
      if n == |path| {
        assert path[n..] == "" && path[..n] == path;
        cdcomppath := None;
      } else {
        assert Slash(path[n..]) == 0;
        cdcomppath := Some(path[n + 1..]);
      }
      p := Some(path[..n]);
    }

    /** `curdir` is replaced by the normal name of the directory that `dir` leads to; if it is not
        known, a relative `dir` leaves it unknown. */
    method UpdatePwd(dir: string)
      requires Valid()
      modifies this
      ensures Valid()
      ensures if old(curdir) == None && !Absolute(dir) then curdir == None && stack == old(stack)
              else curdir == Some(Name(stack)) && stack == Cd(old(stack), dir)
    {
      cdcomppath := Some(dir);
      var built := "";
      if !Absolute(dir) {
        if curdir == None {
          return;
        }
        built := curdir.value;
        NameEnds(stack);
        if built[|built| - 1] == '/' {
          built := built[..|built| - 1];
        }
      }
      ghost var here := if Absolute(dir) then [] else stack;
      ghost var todo := Split(dir);
      ghost var target := Walk(here, todo);
      var p := GetComponent();
      while p.Some?
        invariant Normal(here) && built == Path(here)
        invariant p.Some? ==>
                  todo != [] && p.value == todo[0] && (forall k :: 0 <= k < |todo| ==> Plain(todo[k])) &&
                  Walk(here, todo) == target
        invariant p.Some? ==> if |todo| == 1 then cdcomppath == None
                  else cdcomppath.Some? && Split(cdcomppath.value) == todo[1..]
        invariant p == None ==> here == target
        decreases if p == None then 0 else |todo|
        modifies this`cdcomppath
      {
        if p.value == ".." {
          built := PopComponent(built, here);
        } else if p.value != "" && p.value != "." {
          built := built + "/" + p.value;
          assert (here + [p.value])[..|here|] == here;
        }
        here := Step(here, todo[0]);
        todo := todo[1..];
        p := GetComponent();
      }
      if built == "" {
        built := "/";
      }
      PathEmpty(here);
      curdir, stack := Some(built), here;
    }

    /** Take off the last component and its slash. */
    static method PopComponent(path: string, ghost here: seq<string>) returns (path': string)
      requires Normal(here) && path == Path(here)
      ensures path' == Path(Step(here, ".."))
    {
      path' := path;
      ghost var last := if here == [] then "" else here[|here| - 1];
      ghost var front := if here == [] then "" else Path(here[..|here| - 1]);
      ghost var j: int := |last|;
      assert last[..j] == last;
      while |path'| > 0
        invariant 0 <= j <= |last| && path' == if here == [] then "" else front + "/" + last[..j]
        decreases |path'|
      {
        var c := path'[|path'| - 1];
        path' := path'[..|path'| - 1];
        if j == 0 {
          assert last[..0] == "" && path' == front;
        } else {
          NoSlash(here, j);
          assert last[..j] == last[..j - 1] + [last[j - 1]];
          assert path' == front + "/" + last[..j - 1];
        }
        if c == '/' {
          break;
        }
        j := j - 1;
      }
    }
  }

  lemma NoSlash(here: seq<string>, j: nat)
    requires Normal(here) && here != [] && 0 < j <= |here[|here| - 1]|
    ensures here[|here| - 1][j - 1] != '/'
  {
    assert Proper(here[|here| - 1]);
  }

  lemma NameEnds(stack: seq<string>)
    requires Normal(stack)
    ensures Name(stack) != "" && (Name(stack)[|Name(stack)| - 1] == '/' <==> stack == [])
  {
    if stack != [] {
      var last := stack[|stack| - 1];
      assert Proper(last) && last[|last| - 1] in last;
    }
  }

  lemma PathEmpty(stack: seq<string>)
    ensures Path(stack) == "" <==> stack == []
  {
  }
}
