/** What `break`, `continue` and `return` do, for every command tree. */
module ShellTheorems {
  import opened Options
  import opened ShellSemantics

  // The meaning of a command does not depend on the fuel, once there is enough of it.

  lemma {:induction false} MoreFuel(n: Node, s: Env, at: Place, fuel: nat)
    requires Exec(n, s, at, fuel).0 != Timeout
    ensures Exec(n, s, at, fuel + 1) == Exec(n, s, at, fuel)
    decreases fuel, n, 1, 0
  {
    hide ExecLoop, ExecFor, ExecCase;
    match n
    case Semi(a, b) =>
      MoreFuel(a, s, at, fuel);
      if Exec(a, s, at, fuel).0 == Normal {
        MoreFuel(b, Exec(a, s, at, fuel).1, at, fuel);
      }
    case And(a, b) =>
      MoreFuel(a, s, at, fuel);
      if Exec(a, s, at, fuel).0 == Normal && Exec(a, s, at, fuel).1.status == 0 {
        MoreFuel(b, Exec(a, s, at, fuel).1, at, fuel);
      }
    case Or(a, b) =>
      MoreFuel(a, s, at, fuel);
      if Exec(a, s, at, fuel).0 == Normal && Exec(a, s, at, fuel).1.status != 0 {
        MoreFuel(b, Exec(a, s, at, fuel).1, at, fuel);
      }
    case If(test, a, b) =>
      MoreFuel(test, s, at, fuel);
      var (o, s1) := Exec(test, s, at, fuel);
      if o == Normal && s1.status == 0 {
        MoreFuel(a, s1, at, fuel);
      } else if o == Normal && b.Some? {
        MoreFuel(b.value, s1, at, fuel);
      }
    case Loop(_, _, _) => MoreFuelLoop(n, s, at, 0, fuel);
    case For(_, words, _) => MoreFuelFor(n, Expand(words, s), s.(status := 0), at, fuel);
    case Case(word, _) => MoreFuelCase(n, word(s.store, s.params), 0, s, at, fuel);
    case Call(name, args) =>
      if name in s.functions {
        MoreFuel(s.functions[name], s.(params := args(s.store, s.params)), at.(inFunction := true), fuel - 1);
      }
    case _ =>
  }

  lemma {:induction false} MoreFuelLoop(n: Node, s: Env, at: Place, status: int, fuel: nat)
    requires n.Loop? && ExecLoop(n, s, at, status, fuel).0 != Timeout
    ensures ExecLoop(n, s, at, status, fuel + 1) == ExecLoop(n, s, at, status, fuel)
    decreases fuel, n, 0, 0
  {
    hide Exec, ExecLoop;
    LoopTurn(n, s, at, status, fuel);
    LoopTurn(n, s, at, status, fuel + 1);
    MoreFuel(n.test, s, Inside(at), fuel);
    var (o, s1) := Exec(n.test, s, Inside(at), fuel);
    if o == Continue(1) {
      MoreFuelLoop(n, s1, at, status, fuel - 1);
    } else if o == Normal && (s1.status == 0) != n.until {
      MoreFuel(n.body, s1, Inside(at), fuel);
      var (o2, s2) := Exec(n.body, s1, Inside(at), fuel);
      if GoesOn(o2) {
        MoreFuelLoop(n, s2, at, s2.status, fuel - 1);
      }
    }
  }

  lemma {:induction false} MoreFuelFor(n: Node, words: seq<string>, s: Env, at: Place, fuel: nat)
    requires n.For? && ExecFor(n, words, s, at, fuel).0 != Timeout
    ensures ExecFor(n, words, s, at, fuel + 1) == ExecFor(n, words, s, at, fuel)
    decreases fuel, n, 0, |words|
  {
    hide Exec;
    if words != [] {
      var s0 := s.(store := s.store[n.name := words[0]]);
      MoreFuel(n.body, s0, Inside(at), fuel);
      var (o, s1) := Exec(n.body, s0, Inside(at), fuel);
      if GoesOn(o) {
        MoreFuelFor(n, words[1..], s1, at, fuel);
      }
    }
  }

  lemma {:induction false} MoreFuelCase(n: Node, word: string, k: nat, s: Env, at: Place, fuel: nat)
    requires n.Case? && k <= |n.clauses| && ExecCase(n, word, k, s, at, fuel).0 != Timeout
    ensures ExecCase(n, word, k, s, at, fuel + 1) == ExecCase(n, word, k, s, at, fuel)
    decreases fuel, n, 0, |n.clauses| - k
  {
    hide Exec;
    if k < |n.clauses| {
      if Matches(n.clauses[k], word) {
        MoreFuel(n.clauses[k].body, s, at, fuel);
      } else {
        MoreFuelCase(n, word, k + 1, s, at, fuel);
      }
    }
  }

  lemma {:induction false} EnoughFuel(n: Node, s: Env, at: Place, fuel: nat, more: nat)
    requires Exec(n, s, at, fuel).0 != Timeout && more >= fuel
    ensures Exec(n, s, at, more) == Exec(n, s, at, fuel)
    decreases more
  {
    hide Exec;
    if more > fuel {
      EnoughFuel(n, s, at, fuel, more - 1);
      MoreFuel(n, s, at, more - 1);
    }
  }

  /** Nothing is left pending outside all loops and functions. */
  lemma NothingPendingAtTop(n: Node, s: Env, fuel: nat)
    ensures var o := Exec(n, s, Place(0, false), fuel).0; o == Normal || o == Timeout
  {
    hide Exec;
    assert Fits(Exec(n, s, Place(0, false), fuel).0, Place(0, false));
  }

  // Nested loops.

  /** Loops over fixed words, outermost first, around `body`. */
  function Nest(loops: seq<(string, seq<string>)>, body: Node): Node {
    if loops == [] then body
    else
      var words := loops[0].1;
      For(loops[0].0, [(_, _) => words], Nest(loops[1..], body))
  }

  /** The values of the loop variables if the innermost `left` loops are left in their first round
      and the others go through all their words. */
  function Finals(loops: seq<(string, seq<string>)>, left: nat): Store
    requires forall k :: 0 <= k < |loops| ==> loops[k].1 != []
  {
    if loops == [] then map[]
    else
      var words := loops[0].1;
      map[loops[0].0 := if |loops| > left then words[|words| - 1] else words[0]] + Finals(loops[1..], left)
  }

  /** How many of the loops around it `cmd` leaves before their words are used up. */
  function Early(cmd: Node, around: nat): nat
    requires cmd.BreakCmd? || cmd.ContinueCmd?
  {
    var k := Min(cmd.count, around);
    if cmd.BreakCmd? || k == 0 then k else k - 1
  }

  function Still(cmd: Node, k: int): Outcome {
    if k <= 0 then Normal else if cmd.BreakCmd? then Break(k) else Continue(k)
  }

  /** `break n` in the middle of nested loops ends exactly min(n, number of loops around it) of
      them: of those in `loops` the innermost ones are left in their first round, the others go
      through all their words, and what is left of the count concerns loops further out.
      `continue n` ends one loop less and goes on with the next one. */
  lemma {:induction false} LeavesExactly(loops: seq<(string, seq<string>)>, cmd: Node, s: Env, at: Place, fuel: nat)
    requires (cmd.BreakCmd? || cmd.ContinueCmd?) && cmd.count > 0
    requires forall k :: 0 <= k < |loops| ==> loops[k].1 != []
    ensures var around := at.loops + |loops|;
            Exec(Nest(loops, cmd), s, at, fuel) ==
            (Still(cmd, Min(cmd.count, around) - |loops|),
              s.(store := s.store + Finals(loops, Early(cmd, around)), status := 0))
    decreases |loops|, 1
  {
    hide Exec, ExecFor, Nest, Finals, BodySets, Early, Still, GoesOn;
    if loops == [] {
      NoLoops(cmd, s, at, fuel);
    } else {
      var f := Nest(loops, cmd);
      var (x, words) := loops[0];
      var around := at.loops + |loops|;
      var early := Early(cmd, around);
      var inner := Finals(loops[1..], early);
      var o := Still(cmd, Min(cmd.count, around) - |loops| + 1);
      var s0 := s.(status := 0);
      NestStart(loops, cmd, s, at, fuel);
      InnerLoops(loops, cmd, s0, at, fuel);
      FinalsOf(loops, early);
      StillGoesOn(cmd, |loops|, around);
      if |loops| > early {
        AllWords(f, words, inner, o, s0, at, fuel);
        assert s.store[x := words[|words| - 1]] + inner == s.store + Finals(loops, early);
      } else {
        OneWord(f, words, inner, o, s0, at, fuel);
        assert s.store[x := words[0]] + inner == s.store + Finals(loops, early);
      }
    }
  }

  lemma NoLoops(cmd: Node, s: Env, at: Place, fuel: nat)
    requires cmd.BreakCmd? || cmd.ContinueCmd?
    ensures Exec(Nest([], cmd), s, at, fuel) ==
            (Still(cmd, Min(cmd.count, at.loops)), s.(store := s.store + Finals([], Early(cmd, at.loops)), status := 0))
  {
    assert s.store + map[] == s.store;
  }

  lemma NestStart(loops: seq<(string, seq<string>)>, cmd: Node, s: Env, at: Place, fuel: nat)
    requires loops != []
    ensures var f := Nest(loops, cmd);
            && f.For? && f.name == loops[0].0
            && Exec(f, s, at, fuel) == ExecFor(f, loops[0].1, s.(status := 0), at, fuel)
  {
    hide ExecFor;
    var f, words := Nest(loops, cmd), loops[0].1;
    ForStart(f, s, at, fuel);
    assert Expand(f.words, s) == f.words[0](s.store, s.params) + Expand(f.words[1..], s) == words + [] == words;
  }

  lemma StillGoesOn(cmd: Node, n: nat, around: nat)
    requires (cmd.BreakCmd? || cmd.ContinueCmd?) && cmd.count > 0 && 0 < n <= around
    ensures var k := Min(cmd.count, around);
            var o := Still(cmd, k - n + 1);
            && (GoesOn(o) <==> n > Early(cmd, around))
            && (GoesOn(o) ==> Still(cmd, k - n) == Normal)
            && (!GoesOn(o) ==> Left(o) == Still(cmd, k - n))
  {
  }

  /** In every round the body of `f` ends with `o` and sets the variables in `inner`. */
  ghost predicate BodySets(f: Node, inner: Store, o: Outcome, s: Env, at: Place, fuel: nat)
    requires f.For?
  {
    forall v: Store :: Exec(f.body, s.(store := v), Inside(at), fuel) == (o, s.(store := v + inner))
  }

  lemma {:induction false} InnerLoops(loops: seq<(string, seq<string>)>, cmd: Node, s: Env, at: Place, fuel: nat)
    requires (cmd.BreakCmd? || cmd.ContinueCmd?) && cmd.count > 0 && loops != []
    requires s.status == 0 && forall k :: 0 <= k < |loops| ==> loops[k].1 != []
    ensures var around := at.loops + |loops|;
            BodySets(Nest(loops, cmd), Finals(loops[1..], Early(cmd, around)),
              Still(cmd, Min(cmd.count, around) - |loops| + 1), s, at, fuel)
    decreases |loops|, 0
  {
    hide Exec, Finals;
    forall v: Store
      ensures var around := at.loops + |loops|;
              Exec(Nest(loops, cmd).body, s.(store := v), Inside(at), fuel) ==
              (Still(cmd, Min(cmd.count, around) - |loops| + 1),
                s.(store := v + Finals(loops[1..], Early(cmd, around))))
    {
      LeavesExactly(loops[1..], cmd, s.(store := v), Inside(at), fuel);
    }
  }

  lemma FinalsOf(loops: seq<(string, seq<string>)>, left: nat)
    requires loops != [] && forall k :: 0 <= k < |loops| ==> loops[k].1 != []
    ensures var words := loops[0].1;
            Finals(loops, left) == map[loops[0].0 := if |loops| > left then words[|words| - 1] else words[0]] +
              Finals(loops[1..], left)
  {
  }

  lemma OneWord(f: Node, words: seq<string>, inner: Store, o: Outcome, s: Env, at: Place, fuel: nat)
    requires f.For? && words != [] && BodySets(f, inner, o, s, at, fuel) && !GoesOn(o)
    ensures ExecFor(f, words, s, at, fuel) == (Left(o), s.(store := s.store[f.name := words[0]] + inner))
  {
    hide Exec, ExecFor;
    ForOnce(f, words, s, at, fuel);
    assert Exec(f.body, s.(store := s.store[f.name := words[0]]), Inside(at), fuel).0 == o;
  }

  lemma BodyAt(f: Node, inner: Store, o: Outcome, s: Env, at: Place, fuel: nat, v: Store)
    requires f.For? && BodySets(f, inner, o, s, at, fuel)
    ensures Exec(f.body, s.(store := v), Inside(at), fuel) == (o, s.(store := v + inner))
    ensures BodySets(f, inner, o, s.(store := v), at, fuel)
  {
    hide Exec;
    forall w: Store
      ensures s.(store := v).(store := w) == s.(store := w)
    {
    }
  }

  lemma {:induction false} AllWords(f: Node, words: seq<string>, inner: Store, o: Outcome, s: Env, at: Place, fuel: nat)
    requires f.For? && words != [] && BodySets(f, inner, o, s, at, fuel) && GoesOn(o)
    ensures ExecFor(f, words, s, at, fuel) == (Normal, s.(store := s.store[f.name := words[|words| - 1]] + inner))
    decreases |words|
  {
    hide Exec, ExecFor, BodySets;
    var v := s.store[f.name := words[0]];
    var s1 := s.(store := v + inner);
    ForOnce(f, words, s, at, fuel);
    BodyAt(f, inner, o, s, at, fuel, v);
    if |words| > 1 {
      BodyAt(f, inner, o, s, at, fuel, v + inner);
      AllWords(f, words[1..], inner, o, s1, at, fuel);
      assert s1.store[f.name := words[|words| - 1]] + inner == s.store[f.name := words[|words| - 1]] + inner;
    } else {
      ForEnd(f, s1, at, fuel);
    }
  }

  // Return.

  /** A function that is a loop with `return v` for its test returns 0: its status is lost. */
  lemma ReturnInTestLosesStatus(call: Node, until: bool, body: Node, v: int, s: Env, at: Place, fuel: nat)
    requires call.Call? && call.name in s.functions &&
             s.functions[call.name] == Loop(until, ReturnCmd(Some(v)), body) && fuel > 1
    ensures Exec(call, s, at, fuel).0 == Normal && Exec(call, s, at, fuel).1.status == 0
  {
    hide AfterTest, AfterBody;
    var s1 := s.(params := call.args(s.store, s.params));
    var f := s.functions[call.name];
    LoopTurn(f, s1, at.(inFunction := true), 0, fuel - 1);
    assert Exec(f.test, s1, Inside(at.(inFunction := true)), fuel - 1) == (Return, s1.(status := v));
    assert ExecLoop(f, s1, at.(inFunction := true), 0, fuel - 1) == (Return, s1.(status := 0));
  }

  // The lines of `eval`.

  lemma {:induction false} LinesMore(pre: seq<Node>, line: Node, s: Env, at: Place, o: Outcome, fuel: nat)
    requires Fits(o, at) && o != Timeout
    ensures RunLines(pre + [line], s, at, o, fuel) ==
            var (o1, s1) := RunLines(pre, s, at, o, fuel);
            if o1 == Timeout then (o1, s1) else Run(line, s1, at, o1, fuel)
    decreases |pre|
  {
    hide Run;
    if pre == [] {
      assert pre + [line] == [line] && [line][1..] == [];
    } else {
      var (o1, s1) := Run(pre[0], s, at, o, fuel);
      assert (pre + [line])[1..] == pre[1..] + [line];
      if o1 != Timeout {
        LinesMore(pre[1..], line, s1, at, o1, fuel);
      }
    }
  }

  lemma {:induction false} SeqMore(pre: seq<Node>, line: Node, s: Env, at: Place, fuel: nat)
    ensures ExecSeq(pre + [line], s, at, fuel) ==
            var (o1, s1) := ExecSeq(pre, s, at, fuel);
            if o1 != Normal then (o1, s1) else Exec(line, s1, at, fuel)
    decreases |pre|
  {
    hide Exec;
    if pre == [] {
      assert pre + [line] == [line] && [line][1..] == [];
    } else {
      assert (pre + [line])[1..] == pre[1..] + [line];
      SeqMore(pre[1..], line, Exec(pre[0], s, at, fuel).1, at, fuel);
    }
  }

  lemma {:induction false} NothingLeft(lines: seq<Node>, s: Env, at: Place, fuel: nat)
    requires var o := ExecSeq(lines, s, at, fuel).0; o == Normal || o == Timeout
    ensures RunLines(lines, s, at, Normal, fuel) == ExecSeq(lines, s, at, fuel)
    decreases |lines|
  {
    hide Exec;
    if lines != [] && Exec(lines[0], s, at, fuel).0 == Normal {
      NothingLeft(lines[1..], Exec(lines[0], s, at, fuel).1, at, fuel);
    }
  }

  /** Does one line more mean the same after `lines` as it does in a sequence of commands? */
  ghost predicate SameWith(lines: seq<Node>, line: Node, s: Env, at: Place, fuel: nat) {
    RunLines(lines + [line], s, at, Normal, fuel) == ExecSeq(lines + [line], s, at, fuel)
  }

  /** The lines of `eval` are executed like a sequence of commands, whatever the next line is, if
      and only if nothing is pending before that. */
  lemma LinesAsSequence(lines: seq<Node>, s: Env, at: Place, fuel: nat)
    ensures (forall line :: SameWith(lines, line, s, at, fuel)) <==>
            var o := ExecSeq(lines, s, at, fuel).0; o == Normal || o == Timeout
  {
    hide Exec, ExecSeq, RunLines, Run, SameWith;
    var (o, s1) := ExecSeq(lines, s, at, fuel);
    if o == Normal || o == Timeout {
      NothingLeft(lines, s, at, fuel);
      forall line
        ensures SameWith(lines, line, s, at, fuel)
      {
        LineAgrees(lines, line, s, at, fuel);
      }
    } else {
      var other := map["x" := if "x" in s1.store then s1.store["x"] + "x" else "x"];
      assert other != s1.store by {
        assert "x" in s1.store ==> |other["x"]| == |s1.store["x"]| + 1;
      }
      var line := Simple((_, _) => (other, 0));
      LineDiffers(lines, line, other, s, at, fuel);
    }
  }

  lemma LineAgrees(lines: seq<Node>, line: Node, s: Env, at: Place, fuel: nat)
    requires var o := ExecSeq(lines, s, at, fuel).0; o == Normal || o == Timeout
    requires RunLines(lines, s, at, Normal, fuel) == ExecSeq(lines, s, at, fuel)
    ensures SameWith(lines, line, s, at, fuel)
  {
    hide ExecSeq, RunLines, Exec;
    LinesMore(lines, line, s, at, Normal, fuel);
    SeqMore(lines, line, s, at, fuel);
  }

  /** A line that sets a variable is executed although something is pending. */
  lemma LineDiffers(lines: seq<Node>, line: Node, other: Store, s: Env, at: Place, fuel: nat)
    requires var (o, s1) := ExecSeq(lines, s, at, fuel);
             o != Normal && o != Timeout && s1.store != other
    requires line.Simple? && forall v, p :: line.run(v, p) == (other, 0)
    ensures !SameWith(lines, line, s, at, fuel)
  {
    hide ExecSeq, RunLines;
    LinesMore(lines, line, s, at, Normal, fuel);
    SeqMore(lines, line, s, at, fuel);
  }

  /** The shortest case: in a loop, `eval` of a `break` and of another command in the next line. */
  lemma LineAfterBreak(other: Store, s: Env, inFunction: bool, fuel: nat)
    ensures var at := Place(1, inFunction);
            var lines := [BreakCmd(1), Simple((_, _) => (other, 0))];
            && ExecSeq(lines, s, at, fuel) == (Break(1), s.(status := 0))
            && RunLines(lines, s, at, Normal, fuel) == (Break(1), s.(store := other, status := 0))
  {
    var at := Place(1, inFunction);
    var line := Simple((_, _) => (other, 0));
    assert [BreakCmd(1), line] == [BreakCmd(1)] + [line];
    LinesMore([BreakCmd(1)], line, s, at, Normal, fuel);
    SeqMore([BreakCmd(1)], line, s, at, fuel);
    OneLine(BreakCmd(1), s, at, fuel);
  }

  lemma OneLine(line: Node, s: Env, at: Place, fuel: nat)
    ensures ExecSeq([line], s, at, fuel) == Exec(line, s, at, fuel)
    ensures RunLines([line], s, at, Normal, fuel) == Exec(line, s, at, fuel)
  {
    hide Exec;
    assert [line][1..] == [];
  }

  /** Outside all loops and functions nothing is ever pending between the lines. */
  lemma {:induction false} LinesAtTop(lines: seq<Node>, s: Env, fuel: nat)
    ensures RunLines(lines, s, Place(0, false), Normal, fuel) == ExecSeq(lines, s, Place(0, false), fuel)
    decreases |lines|
  {
    hide Exec;
    if lines != [] {
      NothingPendingAtTop(lines[0], s, fuel);
      LinesAtTop(lines[1..], Exec(lines[0], s, Place(0, false), fuel).1, fuel);
    }
  }
}
