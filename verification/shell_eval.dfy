/** The shell evaluator: recursion over the tree, with all control flow in four variables. */
module ShellEval {
  import opened Options
  import opened ShellSemantics

  datatype Skip = NoSkip | SkipBreak | SkipCont | SkipFunc

  // The loops of the semantics, one step at a time.

  /** A loop while `o` is pending. */
  function RunLoop(n: Node, s: Env, at: Place, o: Outcome, status: int, fuel: nat): (r: (Outcome, Env))
    requires n.Loop? && Fits(o, Inside(at)) && o != Timeout
    ensures Fits(r.0, at)
  {
    if fuel == 0 then (Timeout, s) else AfterTest(n, Run(n.test, s, Inside(at), o, fuel), at, status, fuel)
  }

  /** The test and, if it says so, the body: the outcome, the state, the status of the last body
      executed and whether the test ends the loop. */
  function Turn(n: Node, s: Env, at: Place, o: Outcome, status: int, fuel: nat): (r: (Outcome, Env, int, bool))
    requires n.Loop? && Fits(o, Inside(at)) && o != Timeout
    ensures Fits(r.0, Inside(at)) && (r.3 ==> r.0 == Normal)
  {
    var (o1, s1) := Run(n.test, s, Inside(at), o, fuel);
    if o1 != Normal then (o1, s1, status, false)
    else if (s1.status == 0) == n.until then (o1, s1, status, true)
    else
      var (o2, s2) := Exec(n.body, s1, Inside(at), fuel);
      (o2, s2, s2.status, false)
  }

  /** One round of a loop: what is left pending, the state, the status of the last body and
      whether there is another round. */
  function Round(n: Node, s: Env, at: Place, o: Outcome, status: int, fuel: nat): (r: (Outcome, Env, int, bool))
    requires n.Loop? && Fits(o, Inside(at)) && o != Timeout
    ensures Fits(r.0, at) && (r.3 ==> r.0 == Normal)
  {
    var t := Turn(n, s, at, o, status, fuel);
    if t.3 || !GoesOn(t.0) then (Left(t.0), t.1, t.2, false) else (Normal, t.1, t.2, true)
  }

  lemma LoopOnce(n: Node, s: Env, at: Place, o: Outcome, status: int, fuel: nat)
    requires n.Loop? && Fits(o, Inside(at)) && o != Timeout
    ensures RunLoop(n, s, at, o, status, fuel) ==
            if fuel == 0 then (Timeout, s) else
              var t := Round(n, s, at, o, status, fuel);
              if t.3 then RunLoop(n, t.1, at, Normal, t.2, fuel - 1) else (t.0, t.1.(status := t.2))
  {
    hide Run, Exec, ExecLoop;
    if fuel > 0 {
      var (o1, s1) := Run(n.test, s, Inside(at), o, fuel);
      if o1 == Continue(1) {
        NormalLoop(n, s1, at, status, fuel - 1);
      } else if o1 == Normal && (s1.status == 0) != n.until {
        var (o2, s2) := Exec(n.body, s1, Inside(at), fuel);
        assert AfterTest(n, (o1, s1), at, status, fuel) == AfterBody(n, (o2, s2), at, fuel);
        if GoesOn(o2) {
          NormalLoop(n, s2, at, s2.status, fuel - 1);
        }
      }
    }
  }

  lemma NormalLoop(n: Node, s: Env, at: Place, status: int, fuel: nat)
    requires n.Loop?
    ensures RunLoop(n, s, at, Normal, status, fuel) == ExecLoop(n, s, at, status, fuel)
  {
    hide Exec, AfterTest;
  }

  lemma LoopMeans(n: Node, s: Env, at: Place, o: Outcome, fuel: nat)
    requires n.Loop? && Fits(o, at) && o != Timeout
    ensures Run(n, s, at, o, fuel) == RunLoop(n, s, at, o, 0, fuel)
  {
    hide ExecLoop, AfterTest;
    if o == Normal {
      NormalLoop(n, s, at, 0, fuel);
    }
  }

  /** What the other commands mean, in terms of their parts. */
  function Means(n: Node, s: Env, at: Place, o: Outcome, fuel: nat): (Outcome, Env)
    requires Fits(o, at) && o != Timeout
  {
    match n
    case Semi(a, b) =>
      var (o1, s1) := Run(a, s, at, o, fuel);
      if o1 != Normal then (o1, s1) else Run(b, s1, at, Normal, fuel)
    case And(a, b) =>
      var (o1, s1) := Run(a, s, at, o, fuel);
      if o1 != Normal || s1.status != 0 then (o1, s1) else Run(b, s1, at, Normal, fuel)
    case Or(a, b) =>
      var (o1, s1) := Run(a, s, at, o, fuel);
      if o1 != Normal || s1.status == 0 then (o1, s1) else Run(b, s1, at, Normal, fuel)
    case If(test, a, b) =>
      var (o1, s1) := Run(test, s, at, o, fuel);
      if o1 != Normal then (o1, s1)
      else if s1.status == 0 then Run(a, s1, at, Normal, fuel)
      else if b.Some? then Run(b.value, s1, at, Normal, fuel)
      else (Normal, s1.(status := 0))
    case Defun(name, body) => (o, s.(functions := s.functions[name := body], status := 0))
    case Simple(run) =>
      var (store, status) := run(s.store, s.params);
      (o, s.(store := store, status := status))
    case BreakCmd(count) =>
      var k := Min(count, at.loops);
      (if k == 0 then o else Break(k), s.(status := 0))
    case ContinueCmd(count) =>
      var k := Min(count, at.loops);
      (if k == 0 then o else Continue(k), s.(status := 0))
    case ReturnCmd(arg) =>
      (if at.inFunction then Return else o, if arg.Some? then s.(status := arg.value) else s)
    case _ => Run(n, s, at, o, fuel)
  }

  lemma RunMeans(n: Node, s: Env, at: Place, o: Outcome, fuel: nat)
    requires Fits(o, at) && o != Timeout
    ensures Run(n, s, at, o, fuel) == Means(n, s, at, o, fuel)
  {
    hide ExecLoop, ExecFor, ExecCase, AfterTest;
  }

  lemma NothingPending(n: Node, s: Env, at: Place, fuel: nat)
    ensures Run(n, s, at, Normal, fuel) == Exec(n, s, at, fuel)
  {
    hide Exec;
  }

  lemma CallMeans(n: Node, s: Env, at: Place, o: Outcome, fuel: nat)
    requires n.Call? && Fits(o, at) && o != Timeout
    ensures Run(n, s, at, o, fuel) ==
            if n.name !in s.functions then (o, s.(status := 2))
            else if fuel == 0 then (Timeout, s)
            else
              var (o1, s1) := Run(s.functions[n.name], s.(params := n.args(s.store, s.params)),
                at.(inFunction := true), o, fuel - 1);
              (if o1 == Return then Normal else o1, s1.(params := s.params))
  {
  }

  /** What the variables of the evaluator say. */
  datatype State = State(pending: Outcome, env: Env, loops: nat, funcs: nat)

  /** A count of loops to leave is one of loops that there are. */
  predicate Fitted(st: State) {
    st.pending != Timeout && Fits(st.pending, Place(st.loops, st.funcs > 0))
  }

  /** ... after a command. */
  function After(st: State, n: Node, fuel: nat): (r: State)
    requires Fitted(st)
    ensures r.pending != Timeout ==> Fitted(r)
  {
    var r := Run(n, st.env, Place(st.loops, st.funcs > 0), st.pending, fuel);
    State(r.0, r.1, st.loops, st.funcs)
  }

  class Shell {
    var evalskip: Skip
    var skipcount: int
    var loopnest: nat
    var funcnest: nat
    var exitstatus: int

    var variables: Store
    var shellparam: seq<string>
    var functions: map<string, Node>

    constructor (variables: Store, params: seq<string>)
      ensures AtTop() && Env() == ShellSemantics.Env(variables, params, map[], 0)
    {
      evalskip, skipcount, loopnest, funcnest, exitstatus := NoSkip, 0, 0, 0, 0;
      this.variables, shellparam, functions := variables, params, map[];
    }

    ghost function Env(): ShellSemantics.Env
      reads this
    {
      ShellSemantics.Env(variables, shellparam, functions, exitstatus)
    }

    ghost function Here(): Place
      reads this
    {
      Place(loopnest, funcnest > 0)
    }

    /** What the flags say is pending. */
    ghost function Pending(): Outcome
      reads this
    {
      match evalskip
      case NoSkip => Normal
      case SkipBreak => if skipcount >= 0 then Break(skipcount) else Timeout
      case SkipCont => if skipcount >= 0 then Continue(skipcount) else Timeout
      case SkipFunc => Return
    }

    ghost function Now(): State
      reads this
    {
      State(Pending(), Env(), loopnest, funcnest)
    }

    ghost predicate Fitting()
      reads this
    {
      Fitted(Now())
    }

    ghost predicate AtTop()
      reads this
    {
      evalskip == NoSkip && loopnest == 0 && funcnest == 0
    }

    /** If nothing is pending at first, this is Exec. */
    method EvalTree(n: Node, fuel: nat) returns (done: bool)
      requires Fitting()
      modifies this
      ensures var r := Exec(n, old(Env()), old(Here()), fuel);
              old(evalskip) == NoSkip ==> After(old(Now()), n, fuel) == old(Now()).(pending := r.0, env := r.1)
      ensures done <==> After(old(Now()), n, fuel).pending != Timeout
      ensures done ==> Now() == After(old(Now()), n, fuel)
      decreases fuel, n, 1, 0
    {
      hide Exec, Run;
      NothingPending(n, Env(), Here(), fuel);
      RunMeans(n, Env(), Here(), Pending(), fuel);
      match n {
        case Semi(a, b) =>
          done := EvalTree(a, fuel);
          if !done || evalskip != NoSkip {
            return;
          }
          done := EvalTree(b, fuel);
        case And(a, b) =>
          done := EvalTree(a, fuel);
          if !done || evalskip != NoSkip || exitstatus != 0 {
            return;
          }
          done := EvalTree(b, fuel);
        case Or(a, b) =>
          done := EvalTree(a, fuel);
          if !done || evalskip != NoSkip || exitstatus == 0 {
            return;
          }
          done := EvalTree(b, fuel);
        case If(test, a, b) =>
          var status := 0;
          done := EvalTree(test, fuel);
          if !done || evalskip != NoSkip {
            return;
          }
          if exitstatus == 0 {
            done := EvalTree(a, fuel);
            status := exitstatus;
          } else if b.Some? {
            done := EvalTree(b.value, fuel);
            status := exitstatus;
          }
          exitstatus := status;
        case Loop(_, _, _) =>
          done := EvalLoop(n, fuel);
        case For(_, _, _) =>
          done := EvalFor(n, fuel);
        case Case(_, _) =>
          done := EvalCase(n, fuel);
        case Defun(name, body) =>
          functions := functions[name := body];
          exitstatus := 0;
          done := true;
        case Call(_, _) =>
          done := EvalCall(n, fuel);
        case Simple(run) =>
          var (store, status) := run(variables, shellparam);
          variables, exitstatus := store, status;
          done := true;
        case BreakCmd(count) =>
          BreakCommand(count, SkipBreak);
          done := true;
        case ContinueCmd(count) =>
          BreakCommand(count, SkipCont);
          done := true;
        case ReturnCmd(arg) =>
          ReturnCommand(arg);
          done := true;
      }
    }

    method BreakCommand(count: nat, skip: Skip)
      requires skip == SkipBreak || skip == SkipCont
      modifies this`evalskip, this`skipcount, this`exitstatus
      ensures exitstatus == 0
      ensures var k := Min(count, loopnest);
              Pending() == if k == 0 then old(Pending()) else if skip == SkipBreak then Break(k) else Continue(k)
    {
      var n := count;
      if n > loopnest {
        n := loopnest;
      }
      if n > 0 {
        evalskip, skipcount := skip, n;
      }
      exitstatus := 0;
    }

    method ReturnCommand(arg: Option<int>)
      modifies this`evalskip, this`skipcount, this`exitstatus
      ensures exitstatus == if arg.Some? then arg.value else old(exitstatus)
      ensures Pending() == if funcnest > 0 then Return else old(Pending())
    {
      var ret := if arg.Some? then arg.value else exitstatus;
      if funcnest > 0 {
        evalskip, skipcount := SkipFunc, 1;
      }
      exitstatus := ret;
    }

    /** What a loop does when its body or test left something pending. */
    method Skipping() returns (again: bool)
      requires evalskip != NoSkip && Pending() != Timeout && Fits(Pending(), Place(loopnest, true))
      modifies this`evalskip, this`skipcount
      ensures again <==> GoesOn(old(Pending()))
      ensures again ==> evalskip == NoSkip
      ensures !again ==> Pending() == Left(old(Pending()))
    {
      if evalskip == SkipCont {
        skipcount := skipcount - 1;
        if skipcount <= 0 {
          evalskip := NoSkip;
          return true;
        }
      }
      if evalskip == SkipBreak {
        skipcount := skipcount - 1;
        if skipcount <= 0 {
          evalskip := NoSkip;
        }
      }
      again := false;
    }

    method EvalLoop(n: Node, fuel: nat) returns (done: bool)
      requires Fitting() && n.Loop?
      modifies this
      ensures done <==> After(old(Now()), n, fuel).pending != Timeout
      ensures done ==> Now() == After(old(Now()), n, fuel)
      decreases fuel, n, 0, 2
    {
      hide Run, RunLoop, Round;
      LoopMeans(n, Env(), Here(), Pending(), fuel);
      ghost var r := RunLoop(n, Env(), Here(), Pending(), 0, fuel);
      ghost var loops, funcs, at := loopnest, funcnest, Here();
      var left: nat := fuel;
      var status := 0;
      loopnest := loopnest + 1;
      while true
        invariant left <= fuel && Fitting() && loopnest == loops + 1 && funcnest == funcs
        invariant r == RunLoop(n, Env(), at, Pending(), status, left)
        decreases left
      {
        LoopOnce(n, Env(), at, Pending(), status, left);
        if left == 0 {
          return false;
        }
        var again;
        done, again, status := EvalRound(n, status, left);
        if !done {
          return;
        }
        if !again {
          break;
        }
        left := left - 1;
      }
      loopnest := loopnest - 1;
      exitstatus := status;
    }

    /** One round of a loop, and what it does with something pending. */
    method EvalRound(n: Node, status: int, fuel: nat) returns (done: bool, again: bool, status': int)
      requires Fitting() && n.Loop? && loopnest > 0
      modifies this
      ensures var t := Round(n, old(Env()), Place(old(loopnest) - 1, old(funcnest) > 0), old(Pending()), status, fuel);
              && (done <==> t.0 != Timeout)
              && (done ==> Now() == State(t.0, t.1, old(loopnest), old(funcnest)) && status' == t.2 && again == t.3)
      decreases fuel, n, 0, 1
    {
      hide Run, Turn;
      var stop;
      done, stop, status' := EvalTurn(n, status, fuel);
      again := !stop;
      if done && evalskip != NoSkip {
        again := Skipping();
      }
    }

    /** The test and the body of a loop. */
    method EvalTurn(n: Node, status: int, fuel: nat) returns (done: bool, stop: bool, status': int)
      requires Fitting() && n.Loop? && loopnest > 0
      modifies this
      ensures var t := Turn(n, old(Env()), Place(old(loopnest) - 1, old(funcnest) > 0), old(Pending()), status, fuel);
              && (done <==> t.0 != Timeout)
              && (done ==>
                Now() == State(t.0, t.1, old(loopnest), old(funcnest)) && status' == t.2 && stop == t.3)
      decreases fuel, n, 0, 0
    {
      hide Exec, Run;
      stop, status' := false, status;
      done := EvalTree(n.test, fuel);
      if done && evalskip == NoSkip {
        stop := (exitstatus == 0) == n.until;
        if !stop {
          done := EvalTree(n.body, fuel);
          status' := exitstatus;
        }
      }
    }

    /** The words are expanded first, which something pending stops. */
    method ExpandWords(words: seq<Expansion>) returns (stop: bool, list: seq<string>)
      ensures stop <==> words != [] && evalskip != NoSkip
      ensures !stop ==> list == Expand(words, Env())
    {
      list := [];
      var argp := 0;
      while argp < |words|
        invariant argp <= |words| && (argp > 0 ==> evalskip == NoSkip)
        invariant list + Expand(words[argp..], Env()) == Expand(words, Env())
      {
        var more := words[argp](variables, shellparam);
        assert words[argp..][0] == words[argp] && words[argp..][1..] == words[argp + 1..];
        assert list + (more + Expand(words[argp + 1..], Env())) == list + more + Expand(words[argp + 1..], Env());
        list := list + more;
        if evalskip != NoSkip {
          return true, list;
        }
        argp := argp + 1;
      }
      assert list + [] == list;
      stop := false;
    }

    method EvalFor(n: Node, fuel: nat) returns (done: bool)
      requires Fitting() && n.For?
      modifies this
      ensures done <==> After(old(Now()), n, fuel).pending != Timeout
      ensures done ==> Now() == After(old(Now()), n, fuel)
      decreases fuel, n, 0, 1
    {
      hide Run, ExecFor, Expand;
      RunFor(n, Env(), Here(), Pending(), fuel);
      var stop, words := ExpandWords(n.words);
      if stop {
        return true;
      }
      exitstatus := 0;
      loopnest := loopnest + 1;
      done := EvalWords(n, words, fuel);
      if done {
        loopnest := loopnest - 1;
      }
    }

    /** The loop of evalfor. */
    method EvalWords(n: Node, words: seq<string>, fuel: nat) returns (done: bool)
      requires n.For? && loopnest > 0 && (evalskip == NoSkip || words == [])
      modifies this
      ensures words == [] ==> done && Now() == old(Now())
      ensures old(evalskip) == NoSkip ==>
                var r := ExecFor(n, words, old(Env()), Place(old(loopnest) - 1, old(funcnest) > 0), fuel);
                && (done <==> r.0 != Timeout)
                && (done ==> Now() == State(r.0, r.1, old(loopnest), old(funcnest)))
      decreases fuel, n, 0, 0
    {
      hide ExecFor, Exec;
      ghost var at := Place(loopnest - 1, funcnest > 0);
      var list := words;
      ForEnd(n, Env(), at, fuel);
      while list != []
        invariant loopnest == old(loopnest) && funcnest == old(funcnest)
        invariant words == [] ==> Now() == old(Now())
        invariant words != [] ==>
                    && evalskip == NoSkip
                    && ExecFor(n, list, Env(), at, fuel) == ExecFor(n, words, old(Env()), at, fuel)
        decreases |list|
      {
        ForOnce(n, list, Env(), at, fuel);
        variables := variables[n.name := list[0]];
        done := EvalTree(n.body, fuel);
        if !done {
          return;
        }
        list := list[1..];
        if evalskip != NoSkip {
          var again := Skipping();
          if !again {
            return true;
          }
        }
      }
      ForEnd(n, Env(), at, fuel);
      done := true;
    }

    method EvalCase(n: Node, fuel: nat) returns (done: bool)
      requires Fitting() && n.Case?
      modifies this
      ensures done <==> After(old(Now()), n, fuel).pending != Timeout
      ensures done ==> Now() == After(old(Now()), n, fuel)
      decreases fuel, n, 0, 0
    {
      var word := n.word(variables, shellparam);
      var cp := 0;
      while cp < |n.clauses| && evalskip == NoSkip
        invariant cp <= |n.clauses|
        invariant evalskip == NoSkip ==>
                    Exec(n, Env(), Here(), fuel) == ExecCase(n, word, cp, Env(), Here(), fuel)
        modifies {}
      {
        var matches := CaseMatch(n.clauses[cp], word);
        if matches {
          break;
        }
        cp := cp + 1;
      }
      if cp < |n.clauses| && evalskip == NoSkip {
        done := EvalTree(n.clauses[cp].body, fuel);
      } else {
        done := true;
      }
    }

    static method CaseMatch(c: Clause, word: string) returns (matches: bool)
      ensures matches == Matches(c, word)
    {
      var patp := 0;
      while patp < |c.patterns|
        invariant patp <= |c.patterns|
        invariant forall k :: 0 <= k < patp ==> !c.patterns[k](word)
      {
        if c.patterns[patp](word) {
          return true;
        }
        patp := patp + 1;
      }
      matches := false;
    }

    /** The function-call part of evalcommand. */
    method EvalCall(n: Node, fuel: nat) returns (done: bool)
      requires Fitting() && n.Call?
      modifies this
      ensures done <==> After(old(Now()), n, fuel).pending != Timeout
      ensures done ==> Now() == After(old(Now()), n, fuel)
      decreases fuel, n, 0, 1
    {
      hide Run;
      CallMeans(n, Env(), Here(), Pending(), fuel);
      if n.name !in functions {
        exitstatus := 2;
        done := true;
      } else if fuel == 0 {
        done := false;
      } else {
        done := CallFunction(n, fuel);
      }
    }

    method CallFunction(n: Node, fuel: nat) returns (done: bool)
      requires Fitting() && n.Call? && n.name in functions && fuel > 0
      modifies this
      ensures done <==> After(old(Now()), n, fuel).pending != Timeout
      ensures done ==> Now() == After(old(Now()), n, fuel)
      decreases fuel, n, 0, 0
    {
      hide Run, Fits;
      CallMeans(n, Env(), Here(), Pending(), fuel);
      FitsInside(Pending(), Here());
      var saveparam := shellparam;
      shellparam := n.args(variables, shellparam);
      funcnest := funcnest + 1;
      done := EvalTree(functions[n.name], fuel - 1);
      if done {
        ghost var s1 := Env();
        funcnest := funcnest - 1;
        shellparam := saveparam;
        if evalskip == SkipFunc {
          evalskip, skipcount := NoSkip, 0;
        }
        assert Env() == s1.(params := saveparam);
      }
    }

    /** The lines of an `eval` string, a `.` script or the input, one after the other, anywhere. */
    method EvalString(lines: seq<Node>, fuel: nat) returns (done: bool)
      requires Fitting()
      modifies this
      ensures var r := RunLines(lines, old(Env()), old(Here()), old(Pending()), fuel);
              && (done <==> r.0 != Timeout)
              && (done ==> Fitting() && Now() == old(Now()).(pending := r.0, env := r.1))
    {
      hide Run;
      ghost var at := Here();
      var k := 0;
      while k < |lines|
        invariant k <= |lines| && Fitting() && loopnest == old(loopnest) && funcnest == old(funcnest)
        invariant RunLines(lines[k..], Env(), at, Pending(), fuel)
                  == RunLines(lines, old(Env()), at, old(Pending()), fuel)
      {
        assert lines[k..][0] == lines[k] && lines[k..][1..] == lines[k + 1..];
        done := EvalTree(lines[k], fuel);
        if !done {
          return;
        }
        k := k + 1;
      }
      done := true;
    }
  }

  lemma FitsInside(o: Outcome, at: Place)
    requires Fits(o, at)
    ensures Fits(o, at.(inFunction := true)) && Fits(o, Inside(at))
  {
  }

  lemma RunFor(n: Node, s: Env, at: Place, o: Outcome, fuel: nat)
    requires n.For? && Fits(o, at) && o != Timeout
    ensures Run(n, s, at, o, fuel) ==
            if o == Normal then ExecFor(n, Expand(n.words, s), s.(status := 0), at, fuel)
            else (o, if n.words == [] then s.(status := 0) else s)
  {
    hide ExecFor;
    if o == Normal {
      ForStart(n, s, at, fuel);
    }
  }
}
