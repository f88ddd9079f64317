/** Commands where they stand: what `break n`, `continue n` and `return` do in any context. */
module ShellContexts {
  import opened Options
  import opened ShellSemantics

  type LoopNode = n: Node | n.Loop? witness Loop(false, BreakCmd(0), BreakCmd(0))

  type ForNode = n: Node | n.For? witness For("", [], BreakCmd(0))

  /** What is still to be done around a command that is being executed, one level of it. */
  datatype Frame =
    | SemiRest(second: Node, fuel: nat)
    | AndRest(second: Node, fuel: nat)
    | OrRest(second: Node, fuel: nat)
    | IfRest(ifPart: Node, elsePart: Option<Node>, fuel: nat)
    | InTest(loop: LoopNode, status: int, fuel: nat)
    | InBody(loop: LoopNode, fuel: nat)
    | InFor(list: ForNode, words: seq<string>, fuel: nat)
    | InCall(params: seq<string>)

  predicate IsLoop(f: Frame) {
    f.InTest? || f.InBody? || f.InFor?
  }

  /** The place of a command with `f` around it. */
  function PlaceOf(f: Frame, at: Place): Place {
    if IsLoop(f) then Inside(at) else if f.InCall? then at.(inFunction := true) else at
  }

  /** The frames are innermost first. */
  function PlaceIn(frames: seq<Frame>, at: Place): Place {
    if frames == [] then at else PlaceOf(frames[0], PlaceIn(frames[1..], at))
  }

  /** The rest of the command around, if the part that was being executed ended with `r`. */
  function Finish(f: Frame, r: (Outcome, Env), at: Place): (r': (Outcome, Env))
    requires Fits(r.0, PlaceOf(f, at))
    ensures Fits(r'.0, at)
  {
    match f
    case SemiRest(b, fuel) => if r.0 != Normal then r else Exec(b, r.1, at, fuel)
    case AndRest(b, fuel) => if r.0 != Normal || r.1.status != 0 then r else Exec(b, r.1, at, fuel)
    case OrRest(b, fuel) => if r.0 != Normal || r.1.status == 0 then r else Exec(b, r.1, at, fuel)
    case IfRest(a, b, fuel) =>
      if r.0 != Normal then r
      else if r.1.status == 0 then Exec(a, r.1, at, fuel)
      else if b.Some? then Exec(b.value, r.1, at, fuel)
      else (Normal, r.1.(status := 0))
    case InTest(loop, status, fuel) => AfterTest(loop, r, at, status, fuel + 1)
    case InBody(loop, fuel) => AfterBody(loop, r, at, fuel + 1)
    case InFor(list, words, fuel) =>
      if GoesOn(r.0) then ExecFor(list, words, r.1, at, fuel) else (Left(r.0), r.1)
    case InCall(params) => (if r.0 == Return then Normal else r.0, r.1.(params := params))
  }

  function Resume(frames: seq<Frame>, r: (Outcome, Env), at: Place): (r': (Outcome, Env))
    requires Fits(r.0, PlaceIn(frames, at))
    ensures Fits(r'.0, at)
  {
    if frames == [] then r else Resume(frames[1..], Finish(frames[0], r, PlaceIn(frames[1..], at)), at)
  }

  // Commands that are executed as parts of other ones.

  datatype Config = Config(n: Node, s: Env, fuel: nat, frames: seq<Frame>)

  function Result(c: Config, at: Place): (r: (Outcome, Env))
    ensures Fits(r.0, PlaceIn(c.frames, at))
  {
    Exec(c.n, c.s, PlaceIn(c.frames, at), c.fuel)
  }

  /** The whole command: what is left to do with the result of the part. */
  function Whole(c: Config, at: Place): (Outcome, Env) {
    Resume(c.frames, Result(c, at), at)
  }

  /** The clause that is executed. */
  function Chosen(clauses: seq<Clause>, word: string): Option<Node> {
    if clauses == [] then None
    else if Matches(clauses[0], word) then Some(clauses[0].body)
    else Chosen(clauses[1..], word)
  }

  /** The first part of a command that is executed. */
  function Down(c: Config): Option<Config> {
    var Config(n, s, fuel, frames) := c;
    match n
    case Semi(a, b) => Some(Config(a, s, fuel, [SemiRest(b, fuel)] + frames))
    case And(a, b) => Some(Config(a, s, fuel, [AndRest(b, fuel)] + frames))
    case Or(a, b) => Some(Config(a, s, fuel, [OrRest(b, fuel)] + frames))
    case If(test, a, b) => Some(Config(test, s, fuel, [IfRest(a, b, fuel)] + frames))
    case Loop(_, test, _) =>
      if fuel == 0 then None else Some(Config(test, s, fuel, [InTest(n, 0, fuel - 1)] + frames))
    case For(name, _, body) =>
      var words := Expand(n.words, s);
      if words == [] then None
      else
        var s1 := s.(store := s.store[name := words[0]], status := 0);
        Some(Config(body, s1, fuel, [InFor(n, words[1..], fuel)] + frames))
    case Case(word, clauses) =>
      var body := Chosen(clauses, word(s.store, s.params));
      if body == None then None else Some(Config(body.value, s, fuel, frames))
    case Call(name, args) =>
      if name !in s.functions || fuel == 0 then None
      else
        var s1 := s.(params := args(s.store, s.params));
        Some(Config(s.functions[name], s1, fuel - 1, [InCall(s.params)] + frames))
    case _ => None
  }

  /** What is executed next when a part is done. */
  function Next(c: Config, at: Place): Option<Config> {
    var (o, s) := Result(c, at);
    if c.frames == [] then None else
      var rest := c.frames[1..];
      match c.frames[0]
      case SemiRest(b, fuel) => if o != Normal then None else Some(Config(b, s, fuel, rest))
      case AndRest(b, fuel) => if o != Normal || s.status != 0 then None else Some(Config(b, s, fuel, rest))
      case OrRest(b, fuel) => if o != Normal || s.status == 0 then None else Some(Config(b, s, fuel, rest))
      case IfRest(a, b, fuel) =>
        if o != Normal then None
        else if s.status == 0 then Some(Config(a, s, fuel, rest))
        else if b.Some? then Some(Config(b.value, s, fuel, rest))
        else None
      case InTest(loop, status, fuel) =>
        if o == Continue(1) && fuel > 0 then
          Some(Config(loop.test, s, fuel, [InTest(loop, status, fuel - 1)] + rest))
        else if o == Normal && (s.status == 0) != loop.until then
          Some(Config(loop.body, s, fuel + 1, [InBody(loop, fuel)] + rest))
        else None
      case InBody(loop, fuel) =>
        if GoesOn(o) && fuel > 0 then
          Some(Config(loop.test, s, fuel, [InTest(loop, s.status, fuel - 1)] + rest))
        else None
      case InFor(list, words, fuel) =>
        if GoesOn(o) && words != [] then
          var s1 := s.(store := s.store[list.name := words[0]]);
          Some(Config(list.body, s1, fuel, [InFor(list, words[1..], fuel)] + rest))
        else None
      case InCall(_) => None
  }

  /** A way from a command to a part of it that is executed. */
  ghost predicate Path(cs: seq<Config>, at: Place) {
    cs != [] && forall k :: 0 < k < |cs| ==> Leads(cs[k - 1], cs[k], at)
  }

  ghost predicate Leads(c: Config, d: Config, at: Place) {
    Down(c) == Some(d) || Next(c, at) == Some(d)
  }

  lemma ResumeOn(f: Frame, frames: seq<Frame>, r: (Outcome, Env), at: Place)
    requires Fits(r.0, PlaceOf(f, PlaceIn(frames, at)))
    ensures PlaceIn([f] + frames, at) == PlaceOf(f, PlaceIn(frames, at))
    ensures Resume([f] + frames, r, at) == Resume(frames, Finish(f, r, PlaceIn(frames, at)), at)
  {
    hide Finish, PlaceOf;
    assert ([f] + frames)[1..] == frames;
  }

  /** Going down does not change what the whole means... */
  lemma DownMeans(c: Config, at: Place)
    requires Down(c).Some?
    ensures Whole(Down(c).value, at) == Whole(c, at)
  {
    hide Exec, Resume, Finish, PlaceOf, PlaceIn, Fits, Down;
    PartMeans(c, at);
    var d := Down(c).value;
    if d.frames != c.frames {
      ResumeOn(d.frames[0], c.frames, Result(d, at), at);
      assert d.frames == [d.frames[0]] + c.frames;
    }
  }

  /** The first part of a command, and the rest of it after that. */
  lemma PartMeans(c: Config, at: Place)
    requires Down(c).Some?
    ensures var here, d := PlaceIn(c.frames, at), Down(c).value;
            if d.frames == c.frames then Exec(d.n, d.s, here, d.fuel) == Exec(c.n, c.s, here, c.fuel)
            else
              && d.frames != [] && d.frames[1..] == c.frames
              && PlaceIn(d.frames, at) == PlaceOf(d.frames[0], here)
              && Finish(d.frames[0], Exec(d.n, d.s, PlaceOf(d.frames[0], here), d.fuel), here)
                 == Exec(c.n, c.s, here, c.fuel)
  {
    hide ExecLoop, ExecFor, ExecCase, AfterTest, AfterBody;
    var here := PlaceIn(c.frames, at);
    match c.n {
      case Loop(_, _, _) => StartLoop(c.n, c.s, here, c.fuel);
      case For(_, words, _) =>
        if Expand(words, c.s) != [] {
          ForStart(c.n, c.s, here, c.fuel);
          ForOnce(c.n, Expand(words, c.s), c.s.(status := 0), here, c.fuel);
        }
      case Case(word, clauses) =>
        CaseMeans(c.n, word(c.s.store, c.s.params), 0, c.s, here, c.fuel);
        assert clauses[0..] == clauses;
      case _ =>
    }
  }

  lemma StartLoop(n: Node, s: Env, at: Place, fuel: nat)
    requires n.Loop?
    ensures fuel > 0 ==>
              Exec(n, s, at, fuel) == AfterTest(n, Exec(n.test, s, Inside(at), fuel), at, 0, fuel)
  {
    hide AfterTest;
  }

  lemma {:induction false} CaseMeans(n: Node, word: string, k: nat, s: Env, at: Place, fuel: nat)
    requires n.Case? && k <= |n.clauses|
    ensures ExecCase(n, word, k, s, at, fuel) ==
            var body := Chosen(n.clauses[k..], word);
            if body == None then (Normal, s) else Exec(body.value, s, at, fuel)
    decreases |n.clauses| - k
  {
    hide Exec;
    if k < |n.clauses| {
      assert n.clauses[k..][0] == n.clauses[k] && n.clauses[k..][1..] == n.clauses[k + 1..];
      CaseMeans(n, word, k + 1, s, at, fuel);
    }
  }

  /** ... and neither does going on. */
  lemma NextMeans(c: Config, at: Place)
    requires Next(c, at).Some?
    ensures Whole(Next(c, at).value, at) == Whole(c, at)
  {
    hide Exec, Resume, Finish, PlaceOf, PlaceIn, Fits, Next, Result;
    OnwardMeans(c, at);
    var f, rest, d := c.frames[0], c.frames[1..], Next(c, at).value;
    assert c.frames == [f] + rest;
    ResumeOn(f, rest, Result(c, at), at);
    if d.frames != rest {
      ResumeOn(d.frames[0], rest, Result(d, at), at);
      assert d.frames == [d.frames[0]] + rest;
    }
  }

  lemma OnwardMeans(c: Config, at: Place)
    requires Next(c, at).Some?
    ensures c.frames != []
    ensures var f, rest, d := c.frames[0], c.frames[1..], Next(c, at).value;
            var here := PlaceIn(rest, at);
            && PlaceIn(c.frames, at) == PlaceOf(f, here)
            && if d.frames == rest then Result(d, at) == Finish(f, Result(c, at), here)
               else
                 && d.frames != [] && d.frames[1..] == rest
                 && PlaceIn(d.frames, at) == PlaceOf(d.frames[0], here)
                 && Finish(d.frames[0], Result(d, at), here) == Finish(f, Result(c, at), here)
  {
    hide Exec, ExecFor, ExecCase, ExecLoop;
    var f, rest, r := c.frames[0], c.frames[1..], Result(c, at);
    var here := PlaceIn(rest, at);
    match f {
      case InTest(loop, status, fuel) =>
        if fuel > 0 {
          AnotherRound(loop, r.1, here, status, fuel);
        }
      case InBody(loop, fuel) =>
        if fuel > 0 {
          AnotherRound(loop, r.1, here, r.1.status, fuel);
        }
      case InFor(list, words, fuel) =>
        if words != [] {
          ForOnce(list, words, r.1, here, fuel);
        }
      case _ =>
    }
  }

  lemma AnotherRound(n: Node, s: Env, at: Place, status: int, fuel: nat)
    requires n.Loop? && fuel > 0
    ensures ExecLoop(n, s, at, status, fuel) == AfterTest(n, Exec(n.test, s, Inside(at), fuel), at, status, fuel)
  {
    hide Exec, AfterTest;
  }

  lemma {:induction false} PathMeans(cs: seq<Config>, at: Place)
    requires Path(cs, at)
    ensures cs != []
    ensures Whole(cs[|cs| - 1], at) == Whole(cs[0], at)
    decreases |cs|
  {
    hide Whole, Down, Next;
    if |cs| > 1 {
      var most := cs[..|cs| - 1];
      forall k | 0 < k < |most|
        ensures Leads(most[k - 1], most[k], at)
      {
        assert Leads(cs[k - 1], cs[k], at);
      }
      PathMeans(most, at);
      var c, d := cs[|cs| - 2], cs[|cs| - 1];
      assert Leads(c, d, at);
      if Down(c) == Some(d) {
        DownMeans(c, at);
      } else {
        NextMeans(c, at);
      }
    }
  }

  // What break, continue and return do to what is around them.

  function LoopsIn(frames: seq<Frame>): nat {
    if frames == [] then 0 else LoopsIn(frames[1..]) + if IsLoop(frames[0]) then 1 else 0
  }

  lemma {:induction false} LoopsAround(frames: seq<Frame>, at: Place)
    ensures PlaceIn(frames, at).loops == at.loops + LoopsIn(frames)
    decreases |frames|
  {
    if frames != [] {
      LoopsAround(frames[1..], at);
    }
  }

  /** How many frames there are up to and with the `k`-th loop. */
  function Upto(frames: seq<Frame>, k: nat): (n: nat)
    requires 1 <= k <= LoopsIn(frames)
    ensures 1 <= n <= |frames| && IsLoop(frames[n - 1])
  {
    if !IsLoop(frames[0]) then 1 + Upto(frames[1..], k)
    else if k == 1 then 1
    else 1 + Upto(frames[1..], k - 1)
  }

  /** The state after a command was left: a loop that is left in its test gets the status of its
      last body, and a function call restores the parameters. */
  function Leave(f: Frame, s: Env): Env {
    match f
    case InTest(_, status, _) => s.(status := status)
    case InCall(params) => s.(params := params)
    case _ => s
  }

  function Abandon(frames: seq<Frame>, s: Env): Env {
    if frames == [] then s else Abandon(frames[1..], Leave(frames[0], s))
  }

  lemma FinishBreak(f: Frame, k: nat, s: Env, at: Place)
    requires 1 <= k <= PlaceOf(f, at).loops
    ensures var k1 := if IsLoop(f) then k - 1 else k;
            Finish(f, (Break(k), s), at) == (if k1 == 0 then Normal else Break(k1), Leave(f, s))
  {
    hide Exec, ExecLoop, ExecFor;
  }

  /** `break k` ends the `k` innermost loops, and what follows the last of them is executed as if it
      had ended by itself; if there are fewer, the rest concerns loops further out. */
  lemma {:induction false} BreakEnds(frames: seq<Frame>, k: nat, s: Env, at: Place)
    requires 1 <= k <= PlaceIn(frames, at).loops
    ensures LoopsIn(frames) < k ==>
              Resume(frames, (Break(k), s), at) == (Break(k - LoopsIn(frames)), Abandon(frames, s))
    ensures k <= LoopsIn(frames) ==>
              var n := Upto(frames, k);
              Resume(frames, (Break(k), s), at) == Resume(frames[n..], (Normal, Abandon(frames[..n], s)), at)
    decreases |frames|
  {
    hide Finish;
    if frames != [] {
      var f, rest := frames[0], frames[1..];
      var s1 := Leave(f, s);
      var k1 := if IsLoop(f) then k - 1 else k;
      LoopsAround(frames, at);
      LoopsAround(rest, at);
      FinishBreak(f, k, s, PlaceIn(rest, at));
      if k1 > 0 {
        BreakEnds(rest, k1, s1, at);
      }
      if k <= LoopsIn(frames) {
        Abandoned(frames, Upto(frames, k), s);
      }
    }
  }

  lemma Abandoned(frames: seq<Frame>, n: nat, s: Env)
    requires 1 <= n <= |frames|
    ensures Abandon(frames[..n], s) == Abandon(frames[1..][..n - 1], Leave(frames[0], s))
    ensures frames[n..] == frames[1..][n - 1..]
  {
    assert frames[..n][1..] == frames[1..][..n - 1];
  }

  /** What a loop does after `continue` for it. */
  function NextRound(f: Frame, s: Env, at: Place): (r: (Outcome, Env))
    requires IsLoop(f)
    ensures Fits(r.0, at)
  {
    match f
    case InTest(loop, status, fuel) => ExecLoop(loop, s, at, status, fuel)
    case InBody(loop, fuel) => ExecLoop(loop, s, at, s.status, fuel)
    case InFor(list, words, fuel) => ExecFor(list, words, s, at, fuel)
  }

  /** `continue k` ends the `k - 1` innermost loops, and the next one goes on with its next round. */
  lemma {:induction false} ContinueEnds(frames: seq<Frame>, k: nat, s: Env, at: Place)
    requires 1 <= k <= PlaceIn(frames, at).loops
    ensures LoopsIn(frames) < k ==>
              Resume(frames, (Continue(k), s), at) == (Continue(k - LoopsIn(frames)), Abandon(frames, s))
    ensures k <= LoopsIn(frames) ==>
              var n := Upto(frames, k);
              Resume(frames, (Continue(k), s), at) ==
              Resume(frames[n..], NextRound(frames[n - 1], Abandon(frames[..n - 1], s), PlaceIn(frames[n..], at)), at)
    decreases |frames|
  {
    hide Exec, ExecLoop, ExecFor;
    if frames != [] {
      var f, rest := frames[0], frames[1..];
      var s1 := Leave(f, s);
      LoopsAround(frames, at);
      LoopsAround(rest, at);
      if IsLoop(f) && k == 1 {
        assert Finish(f, (Continue(k), s), PlaceIn(rest, at)) == NextRound(f, s, PlaceIn(rest, at));
        assert frames[..0] == [];
      } else {
        var k1 := if IsLoop(f) then k - 1 else k;
        assert Finish(f, (Continue(k), s), PlaceIn(rest, at)) == (Continue(k1), s1);
        ContinueEnds(rest, k1, s1, at);
        if k <= LoopsIn(frames) {
          Abandoned(frames, Upto(frames, k), s);
          Abandoned(frames, Upto(frames, k) - 1, s);
        }
      }
    }
  }

  predicate InFunction(frames: seq<Frame>) {
    exists k :: 0 <= k < |frames| && frames[k].InCall?
  }

  /** How many frames there are up to and with the innermost function call. */
  function UptoCall(frames: seq<Frame>): (n: nat)
    requires InFunction(frames)
    ensures 1 <= n <= |frames| && frames[n - 1].InCall?
    ensures forall k :: 0 <= k < n - 1 ==> !frames[k].InCall?
  {
    if frames[0].InCall? then 1 else 1 + UptoCall(frames[1..])
  }

  /** `return` ends the innermost function call, and what follows it is executed. */
  lemma {:induction false} ReturnEnds(frames: seq<Frame>, s: Env, at: Place)
    requires PlaceIn(frames, at).inFunction
    ensures !InFunction(frames) ==> Resume(frames, (Return, s), at) == (Return, Abandon(frames, s))
    ensures InFunction(frames) ==>
              var n := UptoCall(frames);
              Resume(frames, (Return, s), at) == Resume(frames[n..], (Normal, Abandon(frames[..n], s)), at)
    decreases |frames|
  {
    hide Exec, ExecLoop, ExecFor;
    if frames != [] {
      var f, rest := frames[0], frames[1..];
      var s1 := Leave(f, s);
      if f.InCall? {
        assert Finish(f, (Return, s), PlaceIn(rest, at)) == (Normal, s1);
      } else {
        assert Finish(f, (Return, s), PlaceIn(rest, at)) == (Return, s1);
        ReturnEnds(rest, s1, at);
      }
      if InFunction(frames) {
        Abandoned(frames, UptoCall(frames), s);
      }
    }
  }

  /** The status that the outermost of the loops that are left in their test gives. */
  function TestStatus(frames: seq<Frame>): Option<int> {
    if frames == [] then None else
      var outer := TestStatus(frames[1..]);
      if outer == None && frames[0].InTest? then Some(frames[0].status) else outer
  }

  lemma {:induction false} StatusLeft(frames: seq<Frame>, s: Env)
    ensures var t := TestStatus(frames);
            Abandon(frames, s).status == if t == None then s.status else t.value
    decreases |frames|
  {
    if frames != [] {
      StatusLeft(frames[1..], Leave(frames[0], s));
    }
  }

  // The same for a command that is executed as part of another one.

  /** `break count` somewhere in a command. */
  lemma BreakReached(cs: seq<Config>, at: Place)
    requires Path(cs, at) && cs[0].frames == [] && cs[|cs| - 1].n.BreakCmd?
    ensures var c := cs[|cs| - 1];
            var s, around := c.s.(status := 0), LoopsIn(c.frames);
            var k := Min(c.n.count, at.loops + around);
            Exec(cs[0].n, cs[0].s, at, cs[0].fuel) ==
            if k == 0 then Resume(c.frames, (Normal, s), at)
            else if around < k then (Break(k - around), Abandon(c.frames, s))
            else
              var n := Upto(c.frames, k);
              Resume(c.frames[n..], (Normal, Abandon(c.frames[..n], s)), at)
  {
    hide Resume, Upto, Abandon, LoopsIn, Path, Whole, PlaceIn;
    PathMeans(cs, at);
    var c := cs[|cs| - 1];
    Alone(cs[0], at);
    LoopsAround(c.frames, at);
    var k := Min(c.n.count, at.loops + LoopsIn(c.frames));
    assert Result(c, at) == (if k == 0 then Normal else Break(k), c.s.(status := 0));
    EndOf(c, at);
    if k > 0 {
      BreakEnds(c.frames, k, c.s.(status := 0), at);
    }
  }

  lemma EndOf(c: Config, at: Place)
    ensures Whole(c, at) == Resume(c.frames, Result(c, at), at)
  {
  }

  lemma Alone(c: Config, at: Place)
    requires c.frames == []
    ensures Whole(c, at) == Exec(c.n, c.s, at, c.fuel)
  {
  }

  /** `continue count` somewhere in a command. */
  lemma ContinueReached(cs: seq<Config>, at: Place)
    requires Path(cs, at) && cs[0].frames == [] && cs[|cs| - 1].n.ContinueCmd?
    ensures var c := cs[|cs| - 1];
            var s, around := c.s.(status := 0), LoopsIn(c.frames);
            var k := Min(c.n.count, at.loops + around);
            Exec(cs[0].n, cs[0].s, at, cs[0].fuel) ==
            if k == 0 then Resume(c.frames, (Normal, s), at)
            else if around < k then (Continue(k - around), Abandon(c.frames, s))
            else
              var n := Upto(c.frames, k);
              var here := PlaceIn(c.frames[n..], at);
              Resume(c.frames[n..], NextRound(c.frames[n - 1], Abandon(c.frames[..n - 1], s), here), at)
  {
    hide Resume, Upto, Abandon, LoopsIn, NextRound, Path, Whole, PlaceIn;
    PathMeans(cs, at);
    var c := cs[|cs| - 1];
    Alone(cs[0], at);
    LoopsAround(c.frames, at);
    var k := Min(c.n.count, at.loops + LoopsIn(c.frames));
    assert Result(c, at) == (if k == 0 then Normal else Continue(k), c.s.(status := 0));
    EndOf(c, at);
    if k > 0 {
      ContinueEnds(c.frames, k, c.s.(status := 0), at);
    }
  }

  /** The status that `return` asks for. */
  function Wanted(c: Config): int
    requires c.n.ReturnCmd?
  {
    if c.n.arg.Some? then c.n.arg.value else c.s.status
  }

  /** `return v` somewhere in a function: the call is over, with status v if and only if no loop of
      the function is being left in its test, or the outermost of those that are executed a body
      with that status last. */
  lemma ReturnReached(cs: seq<Config>, at: Place)
    requires Path(cs, at) && cs[0].frames == [] && cs[|cs| - 1].n.ReturnCmd?
    requires InFunction(cs[|cs| - 1].frames)
    ensures var c := cs[|cs| - 1];
            var n, v := UptoCall(c.frames), Wanted(c);
            var s := Abandon(c.frames[..n], c.s.(status := v));
            && Exec(cs[0].n, cs[0].s, at, cs[0].fuel) == Resume(c.frames[n..], (Normal, s), at)
            && (s.status == v <==> var t := TestStatus(c.frames[..n]); t == None || t == Some(v))
  {
    hide Resume, UptoCall, Abandon;
    var c := cs[|cs| - 1];
    PathMeans(cs, at);
    Alone(cs[0], at);
    Called(c.frames, at);
    ReturnEnds(c.frames, c.s.(status := Wanted(c)), at);
    StatusLeft(c.frames[..UptoCall(c.frames)], c.s.(status := Wanted(c)));
  }

  lemma {:induction false} Called(frames: seq<Frame>, at: Place)
    requires InFunction(frames) || at.inFunction
    ensures PlaceIn(frames, at).inFunction
    decreases |frames|
  {
    if frames != [] && !frames[0].InCall? {
      Called(frames[1..], at);
    }
  }

  // Whatever is left pending was caused by one of these commands.

  predicate Pending(o: Outcome) {
    o.Break? || o.Continue? || o.Return?
  }

  /** Does `o` leave the command that `f` belongs to? */
  predicate Through(f: Frame, o: Outcome) {
    match o
    case Break(k) => k > 1 || !IsLoop(f)
    case Continue(k) => k > 1 || !IsLoop(f)
    case Return => !f.InCall?
    case _ => false
  }

  /** What `c`, a command that leaves all of `frames`, leaves pending around them. */
  function Leaves(c: Config, frames: seq<Frame>, at: Place): Option<(Outcome, Env)> {
    var here := PlaceIn(c.frames, at);
    match c.n
    case BreakCmd(count) =>
      var k := Min(count, here.loops);
      if k <= LoopsIn(frames) then None
      else Some((Break(k - LoopsIn(frames)), Abandon(frames, c.s.(status := 0))))
    case ContinueCmd(count) =>
      var k := Min(count, here.loops);
      if k <= LoopsIn(frames) then None
      else Some((Continue(k - LoopsIn(frames)), Abandon(frames, c.s.(status := 0))))
    case ReturnCmd(_) =>
      if !here.inFunction || InFunction(frames) then None
      else Some((Return, Abandon(frames, c.s.(status := Wanted(c)))))
    case _ => None
  }

  /** A way from `c` to a command that leaves everything inside `around`, with the result `r`. */
  ghost predicate Causes(cs: seq<Config>, c: Config, around: seq<Frame>, r: (Outcome, Env), at: Place) {
    && Path(cs, at) && cs[0] == c
    && var last := cs[|cs| - 1];
       && |around| <= |last.frames| && last.frames[|last.frames| - |around|..] == around
       && Leaves(last, last.frames[..|last.frames| - |around|], at) == Some(r)
  }

  lemma Itself(c: Config, at: Place)
    requires c.n.BreakCmd? || c.n.ContinueCmd? || c.n.ReturnCmd?
    requires Pending(Result(c, at).0)
    ensures Causes([c], c, c.frames, Result(c, at), at)
  {
    hide PlaceIn;
    assert c.frames[..0] == [];
  }

  lemma Longer(c: Config, d: Config, cs: seq<Config>, around: seq<Frame>, r: (Outcome, Env), at: Place)
    requires Leads(c, d, at) && Causes(cs, d, around, r, at)
    ensures Causes([c] + cs, c, around, r, at)
  {
    hide Leads, Leaves;
    var all := [c] + cs;
    forall k | 0 < k < |all|
      ensures Leads(all[k - 1], all[k], at)
    {
      if k > 1 {
        assert Leads(cs[k - 2], cs[k - 1], at);
      }
    }
  }

  lemma {:induction false} MoreAround(frames: seq<Frame>, f: Frame, s: Env)
    ensures LoopsIn(frames + [f]) == LoopsIn(frames) + if IsLoop(f) then 1 else 0
    ensures Abandon(frames + [f], s) == Leave(f, Abandon(frames, s))
    ensures InFunction(frames + [f]) <==> InFunction(frames) || f.InCall?
    decreases |frames|
  {
    hide IsLoop, Leave;
    if frames == [] {
      assert [f][1..] == [];
      assert frames + [f] == [f];
      assert Abandon([f], s) == Abandon([f][1..], Leave(f, s));
    } else {
      assert (frames + [f])[1..] == frames[1..] + [f];
      MoreAround(frames[1..], f, Leave(frames[0], s));
    }
    assert InFunction(frames + [f]) <==> InFunction(frames) || f.InCall? by {
      assert (frames + [f])[|frames|] == f;
      forall k | 0 <= k < |frames|
        ensures (frames + [f])[k] == frames[k]
      {
      }
    }
  }

  lemma FinishThrough(f: Frame, r: (Outcome, Env), at: Place)
    requires Fits(r.0, PlaceOf(f, at)) && Through(f, r.0)
    ensures Finish(f, r, at) == (if IsLoop(f) then Left(r.0) else r.0, Leave(f, r.1))
  {
    hide Exec, ExecLoop, ExecFor;
  }

  /** It leaves one frame more. */
  lemma Further(cs: seq<Config>, c: Config, f: Frame, around: seq<Frame>, r: (Outcome, Env), at: Place)
    requires Causes(cs, c, [f] + around, r, at) && Through(f, r.0) && Fits(r.0, PlaceOf(f, PlaceIn(around, at)))
    ensures Causes(cs, c, around, Finish(f, r, PlaceIn(around, at)), at)
  {
    hide Finish, PlaceIn, LoopsIn, Abandon, InFunction, Fits, PlaceOf, Leave, Leads;
    var last := cs[|cs| - 1];
    var m := |last.frames| - |around|;
    var inner := last.frames[..m - 1];
    assert last.frames[m - 1..] == [f] + around;
    assert last.frames[m..] == last.frames[m - 1..][1..] == around;
    assert last.frames[..m] == inner + [f];
    FinishThrough(f, r, PlaceIn(around, at));
    MoreAround(inner, f, if last.n.ReturnCmd? then last.s.(status := Wanted(last)) else last.s.(status := 0));
  }

  /** `d` is a part of `n`, whose rest is its innermost frame. */
  ghost predicate PartOf(d: Config, n: Node) {
    d.frames != [] &&
    match d.frames[0]
    case SemiRest(b, fuel) => n == Semi(d.n, b) && d.fuel == fuel
    case AndRest(b, fuel) => n == And(d.n, b) && d.fuel == fuel
    case OrRest(b, fuel) => n == Or(d.n, b) && d.fuel == fuel
    case IfRest(a, b, fuel) => n == If(d.n, a, b) && d.fuel == fuel
    case InTest(loop, _, fuel) => n == loop && d.n == loop.test && d.fuel == fuel + 1
    case InBody(loop, fuel) => n == loop && d.n == loop.body && d.fuel == fuel + 1
    case InFor(list, _, fuel) => n == list && d.n == list.body && d.fuel == fuel
    case InCall(_) => false
  }

  function Rank(f: Frame): nat {
    if f.InTest? then 1 else if f.InFor? then |f.words| else 0
  }

  /** Everything that a command leaves pending was caused by a `break`, `continue` or `return` that
      was executed as a part of it. */
  lemma {:induction false} Cause(c: Config, at: Place) returns (cs: seq<Config>)
    requires Pending(Result(c, at).0)
    ensures Causes(cs, c, c.frames, Result(c, at), at)
    decreases c.fuel, c.n, 1, 0
  {
    hide ExecLoop, ExecFor, ExecCase, AfterTest, AfterBody, Causes, PlaceIn, Finish, Exec, Fits, PlaceOf, Pending,
      PartOf, Down, Result;
    if c.n.BreakCmd? || c.n.ContinueCmd? || c.n.ReturnCmd? {
      Itself(c, at);
      return [c];
    }
    HasPart(c, at);
    var d := Down(c).value;
    PartResult(c, at);
    if d.frames == c.frames {
      cs := Cause(d, at);
    } else if d.frames[0].InCall? {
      CallThrough(d, at);
      cs := Cause(d, at);
      assert d.frames == [d.frames[0]] + c.frames;
      Further(cs, d, d.frames[0], c.frames, Result(d, at), at);
    } else {
      cs := CauseIn(d, c.n, at);
    }
    Longer(c, d, cs, c.frames, Result(c, at), at);
    cs := [c] + cs;
  }

  lemma {:induction false} CauseIn(d: Config, n: Node, at: Place) returns (cs: seq<Config>)
    requires PartOf(d, n) && Fits(Result(d, at).0, PlaceOf(d.frames[0], PlaceIn(d.frames[1..], at)))
    requires Pending(Finish(d.frames[0], Result(d, at), PlaceIn(d.frames[1..], at)).0)
    ensures Causes(cs, d, d.frames[1..], Finish(d.frames[0], Result(d, at), PlaceIn(d.frames[1..], at)), at)
    decreases d.fuel, n, 0, Rank(d.frames[0])
  {
    hide ExecLoop, ExecFor, ExecCase, AfterTest, AfterBody, Causes, PlaceIn, Finish, Exec, Fits, PlaceOf, Pending,
      Through, Next, Result;
    var f, rest := d.frames[0], d.frames[1..];
    assert d.frames == [f] + rest;
    if Through(f, Result(d, at).0) {
      ThroughPending(f, Result(d, at).0);
      cs := Cause(d, at);
      Further(cs, d, f, rest, Result(d, at), at);
    } else {
      GoesOnward(d, n, at);
      OnwardMeans(d, at);
      var d2 := Next(d, at).value;
      if d2.frames == rest {
        cs := Cause(d2, at);
      } else {
        cs := CauseIn(d2, n, at);
      }
      Longer(d, d2, cs, rest, Finish(f, Result(d, at), PlaceIn(rest, at)), at);
      cs := [d] + cs;
    }
  }

  lemma ThroughPending(f: Frame, o: Outcome)
    ensures Through(f, o) ==> Pending(o)
  {
  }

  /** Only commands with parts, or one of the three, leave something pending. */
  lemma HasPart(c: Config, at: Place)
    requires Pending(Result(c, at).0) && !(c.n.BreakCmd? || c.n.ContinueCmd? || c.n.ReturnCmd?)
    ensures Down(c).Some?
  {
    hide AfterTest, AfterBody;
    var here := PlaceIn(c.frames, at);
    match c.n {
      case Loop(_, _, _) => LoopTurn(c.n, c.s, here, 0, c.fuel);
      case For(_, words, _) =>
        ForStart(c.n, c.s, here, c.fuel);
        ForEnd(c.n, c.s.(status := 0), here, c.fuel);
      case Case(word, clauses) =>
        CaseMeans(c.n, word(c.s.store, c.s.params), 0, c.s, here, c.fuel);
        assert clauses[0..] == clauses;
      case _ =>
    }
  }

  lemma PartResult(c: Config, at: Place)
    requires Down(c).Some?
    ensures var here, d := PlaceIn(c.frames, at), Down(c).value;
            if d.frames == c.frames then Result(d, at) == Result(c, at) && d.n < c.n && d.fuel == c.fuel
            else
              && d.frames != [] && d.frames[1..] == c.frames
              && Fits(Result(d, at).0, PlaceOf(d.frames[0], here))
              && Finish(d.frames[0], Result(d, at), here) == Result(c, at)
              && (if d.frames[0].InCall? then d.fuel < c.fuel else PartOf(d, c.n) && d.fuel == c.fuel)
  {
    hide Finish, Exec, PlaceIn, Fits, PlaceOf;
    PartMeans(c, at);
    if c.n.Case? {
      ClauseSmaller(c.n.clauses, c.n.word(c.s.store, c.s.params));
    }
  }

  lemma {:induction false} ClauseSmaller(clauses: seq<Clause>, word: string)
    ensures var b := Chosen(clauses, word);
            b.Some? ==> exists k :: 0 <= k < |clauses| && b.value == clauses[k].body
    decreases |clauses|
  {
    hide Matches;
    if clauses != [] && !Matches(clauses[0], word) {
      ClauseSmaller(clauses[1..], word);
      if Chosen(clauses[1..], word).Some? {
        var k :| 0 <= k < |clauses| - 1 && Chosen(clauses[1..], word).value == clauses[1..][k].body;
        assert clauses[k + 1] == clauses[1..][k];
      }
    }
  }

  lemma CallThrough(d: Config, at: Place)
    requires d.frames != [] && d.frames[0].InCall?
    requires Fits(Result(d, at).0, PlaceOf(d.frames[0], PlaceIn(d.frames[1..], at)))
    requires Pending(Finish(d.frames[0], Result(d, at), PlaceIn(d.frames[1..], at)).0)
    ensures Through(d.frames[0], Result(d, at).0) && Pending(Result(d, at).0)
  {
    hide Result, PlaceIn;
  }

  /** What is left pending by a command, but not by its first part, comes from what follows. */
  lemma GoesOnward(d: Config, n: Node, at: Place)
    requires PartOf(d, n) && Fits(Result(d, at).0, PlaceOf(d.frames[0], PlaceIn(d.frames[1..], at)))
    requires Pending(Finish(d.frames[0], Result(d, at), PlaceIn(d.frames[1..], at)).0)
    requires !Through(d.frames[0], Result(d, at).0)
    ensures Next(d, at).Some?
    ensures var d2 := Next(d, at).value;
            if d2.frames == d.frames[1..] then d2.n < n && d2.fuel == d.fuel
            else
              && d2.frames != [] && PartOf(d2, n)
              && (d2.fuel < d.fuel || (d2.fuel == d.fuel && Rank(d2.frames[0]) < Rank(d.frames[0])))
  {
    hide Result, PlaceIn, Exec;
    var here, s := PlaceIn(d.frames[1..], at), Result(d, at).1;
    match d.frames[0] {
      case InTest(loop, status, fuel) => LoopTurn(loop, s, here, status, fuel);
      case InBody(loop, fuel) => LoopTurn(loop, s, here, s.status, fuel);
      case InFor(list, _, fuel) => ForEnd(list, s, here, fuel);
      case _ =>
    }
  }

  /** A function that returns: some `return` was executed in it, and its status is kept if and only
      if no loop was left in its test, or the outermost of those executed a body with that status
      last. */
  lemma ReturnStatus(n: Node, s: Env, at: Place, fuel: nat) returns (cs: seq<Config>)
    requires Exec(n, s, at, fuel).0 == Return
    ensures Path(cs, at) && cs[0] == Config(n, s, fuel, [])
    ensures var c := cs[|cs| - 1];
            && c.n.ReturnCmd? && !InFunction(c.frames)
            && Exec(n, s, at, fuel) == (Return, Abandon(c.frames, c.s.(status := Wanted(c))))
            && (Exec(n, s, at, fuel).1.status == Wanted(c) <==>
              var t := TestStatus(c.frames); t == None || t == Some(Wanted(c)))
  {
    hide Exec, Abandon, TestStatus, InFunction, PlaceIn, LoopsIn, Leads;
    var c := Config(n, s, fuel, []);
    AloneResult(c, at);
    cs := Cause(c, at);
    var last := cs[|cs| - 1];
    assert last.frames[..|last.frames| - 0] == last.frames;
    StatusLeft(last.frames, last.s.(status := Wanted(last)));
  }

  lemma AloneResult(c: Config, at: Place)
    requires c.frames == []
    ensures Result(c, at) == Exec(c.n, c.s, at, c.fuel)
  {
  }
}
