/** What the commands that choose and repeat do, said in terms of the commands inside them. */
module ShellLaws {
  import opened Options
  import opened ShellSemantics
  import opened ShellTheorems

  // Case.

  /** Some pattern of the clause accepts the word. */
  predicate Accepting(c: Clause, j: nat, word: string) {
    j < |c.patterns| && c.patterns[j](word)
  }

  /** No pattern of the first `k` clauses accepts the word. */
  ghost predicate NoneBefore(clauses: seq<Clause>, k: nat, word: string)
    requires k <= |clauses|
  {
    forall i: nat, j: nat :: i < k ==> !Accepting(clauses[i], j, word)
  }

  /** Of a case command the first clause is executed that has a pattern for the word, whichever of
      its patterns that is. */
  lemma CaseExecutes(n: Node, k: nat, j: nat, s: Env, at: Place, fuel: nat)
    requires n.Case? && k < |n.clauses|
    requires var word := n.word(s.store, s.params);
             Accepting(n.clauses[k], j, word) && NoneBefore(n.clauses, k, word)
    ensures Exec(n, s, at, fuel) == Exec(n.clauses[k].body, s, at, fuel)
  {
    hide Exec, ExecCase;
    CaseStart(n, s, at, fuel);
    CaseFrom(n, n.word(s.store, s.params), 0, k, j, s, at, fuel);
  }

  /** If there is none, nothing is. */
  lemma CaseExecutesNothing(n: Node, s: Env, at: Place, fuel: nat)
    requires n.Case? && NoneBefore(n.clauses, |n.clauses|, n.word(s.store, s.params))
    ensures Exec(n, s, at, fuel) == (Normal, s)
  {
    hide Exec, ExecCase;
    CaseStart(n, s, at, fuel);
    CaseEnds(n, n.word(s.store, s.params), 0, s, at, fuel);
  }

  lemma CaseStart(n: Node, s: Env, at: Place, fuel: nat)
    requires n.Case?
    ensures Exec(n, s, at, fuel) == ExecCase(n, n.word(s.store, s.params), 0, s, at, fuel)
  {
    hide ExecCase;
  }

  lemma MatchesIf(c: Clause, word: string)
    ensures Matches(c, word) <==> exists j: nat :: Accepting(c, j, word)
  {
    if Matches(c, word) {
      var k :| 0 <= k < |c.patterns| && c.patterns[k](word);
      assert Accepting(c, k, word);
    }
  }

  lemma {:induction false} CaseFrom(n: Node, word: string, i: nat, k: nat, j: nat, s: Env, at: Place, fuel: nat)
    requires n.Case? && i <= k < |n.clauses| && Accepting(n.clauses[k], j, word) && NoneBefore(n.clauses, k, word)
    ensures ExecCase(n, word, i, s, at, fuel) == Exec(n.clauses[k].body, s, at, fuel)
    decreases k - i
  {
    hide Exec;
    if i < k {
      assert forall x: nat :: !Accepting(n.clauses[i], x, word);
      MatchesIf(n.clauses[i], word);
      CaseFrom(n, word, i + 1, k, j, s, at, fuel);
    } else {
      MatchesIf(n.clauses[k], word);
    }
  }

  lemma {:induction false} CaseEnds(n: Node, word: string, i: nat, s: Env, at: Place, fuel: nat)
    requires n.Case? && i <= |n.clauses| && NoneBefore(n.clauses, |n.clauses|, word)
    ensures ExecCase(n, word, i, s, at, fuel) == (Normal, s)
    decreases |n.clauses| - i
  {
    hide Exec;
    if i < |n.clauses| {
      assert forall x: nat :: !Accepting(n.clauses[i], x, word);
      MatchesIf(n.clauses[i], word);
      CaseEnds(n, word, i + 1, s, at, fuel);
    }
  }

  // Sequences, && and ||, if.

  /** After a command that ended with a status, and with nothing pending: what follows `;` is
      executed, what follows `&&` if it succeeded, what follows `||` if it did not, and of an `if` the
      one or the other part; an `if` without a part to execute succeeds. */
  lemma Chosen(a: Node, b: Node, c: Node, s: Env, s1: Env, at: Place, fuel: nat)
    requires Exec(a, s, at, fuel) == (Normal, s1)
    ensures Exec(Semi(a, b), s, at, fuel) == Exec(b, s1, at, fuel)
    ensures s1.status == 0 ==>
              && Exec(And(a, b), s, at, fuel) == Exec(b, s1, at, fuel)
              && Exec(Or(a, b), s, at, fuel) == (Normal, s1)
              && Exec(If(a, b, Some(c)), s, at, fuel) == Exec(If(a, b, None), s, at, fuel) == Exec(b, s1, at, fuel)
    ensures s1.status != 0 ==>
              && Exec(And(a, b), s, at, fuel) == (Normal, s1)
              && Exec(Or(a, b), s, at, fuel) == Exec(b, s1, at, fuel)
              && Exec(If(a, b, Some(c)), s, at, fuel) == Exec(c, s1, at, fuel)
              && Exec(If(a, b, None), s, at, fuel) == (Normal, s1.(status := 0))
  {
  }

  /** If something is pending none of that is executed. */
  lemma NotChosen(a: Node, b: Node, c: Option<Node>, s: Env, at: Place, fuel: nat)
    requires Exec(a, s, at, fuel).0 != Normal
    ensures Exec(Semi(a, b), s, at, fuel) == Exec(a, s, at, fuel)
    ensures Exec(And(a, b), s, at, fuel) == Exec(a, s, at, fuel)
    ensures Exec(Or(a, b), s, at, fuel) == Exec(a, s, at, fuel)
    ensures Exec(If(a, b, c), s, at, fuel) == Exec(a, s, at, fuel)
  {
  }

  // Loops.

  /** Round `i` of a `while` loop, or an `until` loop: it is entered in state `ss[i]`, and its test
      ends in state `ts[i]`. */
  ghost predicate Round(n: Node, ss: seq<Env>, ts: seq<Env>, i: nat, at: Place, fuel: nat)
    requires n.Loop? && i < |ts| && |ts| == |ss|
  {
    && Exec(n.test, ss[i], Inside(at), fuel) == (Normal, ts[i])
    && if i == |ts| - 1 then (ts[i].status == 0) == n.until
       else (ts[i].status == 0) != n.until && Exec(n.body, ts[i], Inside(at), fuel) == (Normal, ss[i + 1])
  }

  ghost predicate Rounds(n: Node, ss: seq<Env>, ts: seq<Env>, at: Place, fuel: nat)
    requires n.Loop? && |ts| == |ss|
  {
    ss != [] && forall i :: 0 <= i < |ss| ==> Round(n, ss, ts, i, at, fuel)
  }

  /** The body of a `while` loop is executed as long as the test succeeds, of an `until` loop as long
      as it fails.  The loop ends with what the last test left behind, and with the status of the last
      body, or success if there was none. */
  lemma LoopRuns(n: Node, ss: seq<Env>, ts: seq<Env>, at: Place, fuel: nat, more: nat)
    requires n.Loop? && |ts| == |ss| && Rounds(n, ss, ts, at, fuel) && more >= fuel + |ss|
    ensures Exec(n, ss[0], at, more) ==
            (Normal, ts[|ts| - 1].(status := if |ss| == 1 then 0 else ss[|ss| - 1].status))
  {
    hide Exec, ExecLoop;
    LoopStart(n, ss[0], at, more);
    LoopRunsFrom(n, ss, ts, 0, at, fuel, more);
  }

  lemma LoopStart(n: Node, s: Env, at: Place, fuel: nat)
    requires n.Loop?
    ensures Exec(n, s, at, fuel) == ExecLoop(n, s, at, 0, fuel)
  {
    hide ExecLoop;
  }

  lemma {:induction false} LoopRunsFrom(n: Node, ss: seq<Env>, ts: seq<Env>, i: nat, at: Place, fuel: nat, more: nat)
    requires n.Loop? && |ts| == |ss| && Rounds(n, ss, ts, at, fuel) && i < |ss| && more >= fuel + |ss| - i
    ensures ExecLoop(n, ss[i], at, if i == 0 then 0 else ss[i].status, more) ==
            (Normal, ts[|ts| - 1].(status := if |ss| == 1 then 0 else ss[|ss| - 1].status))
    decreases |ss| - i
  {
    hide Exec, ExecLoop;
    LoopTurn(n, ss[i], at, if i == 0 then 0 else ss[i].status, more);
    assert Round(n, ss, ts, i, at, fuel);
    EnoughFuel(n.test, ss[i], Inside(at), fuel, more);
    if i < |ss| - 1 {
      EnoughFuel(n.body, ts[i], Inside(at), fuel, more);
      LoopRunsFrom(n, ss, ts, i + 1, at, fuel, more - 1);
    }
  }

  /** The rounds of a `for` loop: one for each word, which the variable has as its value. */
  ghost predicate ForRounds(n: Node, words: seq<string>, ss: seq<Env>, at: Place, fuel: nat)
    requires n.For? && |ss| == |words| + 1
  {
    forall i :: 0 <= i < |words| ==> ForRound(n, words, ss, i, at, fuel)
  }

  ghost predicate ForRound(n: Node, words: seq<string>, ss: seq<Env>, i: nat, at: Place, fuel: nat)
    requires n.For? && |ss| == |words| + 1 && i < |words|
  {
    var (o, s1) := Exec(n.body, ss[i].(store := ss[i].store[n.name := words[i]]), Inside(at), fuel);
    (o == Normal || o == Continue(1)) && s1 == ss[i + 1]
  }

  /** All words of all arguments, in order. */
  lemma {:induction false} ExpandAll(words: seq<Expansion>, more: seq<Expansion>, s: Env)
    ensures Expand(words + more, s) == Expand(words, s) + Expand(more, s)
    ensures words != [] ==> Expand([words[0]], s) == words[0](s.store, s.params)
    decreases |words|
  {
    if words == [] {
      assert words + more == more;
    } else {
      assert (words + more)[1..] == words[1..] + more && [words[0]][1..] == [];
      ExpandAll(words[1..], more, s);
    }
  }

  /** A `for` loop executes its body once for each word; without words it succeeds. */
  lemma ForRuns(n: Node, ss: seq<Env>, s: Env, at: Place, fuel: nat)
    requires n.For?
    requires var words := Expand(n.words, s);
             |ss| == |words| + 1 && ss[0] == s.(status := 0) && ForRounds(n, words, ss, at, fuel)
    ensures Exec(n, s, at, fuel) == (Normal, ss[|ss| - 1])
  {
    hide Exec, ExecFor, ForRounds, Expand;
    ForStart(n, s, at, fuel);
    ForRunsFrom(n, Expand(n.words, s), ss, 0, at, fuel);
  }

  lemma {:induction false} ForRunsFrom(n: Node, words: seq<string>, ss: seq<Env>, i: nat, at: Place, fuel: nat)
    requires n.For? && |ss| == |words| + 1 && ForRounds(n, words, ss, at, fuel) && i <= |words|
    ensures ExecFor(n, words[i..], ss[i], at, fuel) == (Normal, ss[|ss| - 1])
    decreases |words| - i
  {
    hide Exec, ExecFor;
    if i == |words| {
      ForEnd(n, ss[i], at, fuel);
      assert words[i..] == [];
    } else {
      assert ForRound(n, words, ss, i, at, fuel);
      assert words[i..][0] == words[i] && words[i..][1..] == words[i + 1..];
      ForOnce(n, words[i..], ss[i], at, fuel);
      ForRunsFrom(n, words, ss, i + 1, at, fuel);
    }
  }

  // Functions.

  /** A function is executed with its arguments as positional parameters, which are put back; a return
      ends there.  A name that stands for no function is an error. */
  lemma CallRuns(name: string, args: Expansion, s: Env, at: Place, fuel: nat)
    ensures name !in s.functions ==> Exec(Call(name, args), s, at, fuel) == (Normal, s.(status := 2))
    ensures name in s.functions && fuel > 0 ==>
              var (o, s1) := Exec(s.functions[name], s.(params := args(s.store, s.params)), at.(inFunction := true),
                                  fuel - 1);
              Exec(Call(name, args), s, at, fuel) == (if o == Return then Normal else o, s1.(params := s.params))
  {
  }

  // With something pending.

  /** While a break, continue or return is pending a simple command is still executed, and leaves it
      pending; no body of a `for` and no clause of a `case` is; and of two commands the second is not,
      unless the first ended what was pending. */
  lemma PendingRuns(n: Node, a: Node, b: Node, s: Env, at: Place, o: Outcome, fuel: nat)
    requires Fits(o, at) && o != Timeout && o != Normal
    ensures n.Simple? ==>
              Run(n, s, at, o, fuel) ==
              (o, s.(store := n.run(s.store, s.params).0, status := n.run(s.store, s.params).1))
    ensures n.Case? || (n.For? && n.words != []) ==> Run(n, s, at, o, fuel) == (o, s)
    ensures n.For? && n.words == [] ==> Run(n, s, at, o, fuel) == (o, s.(status := 0))
    ensures var r := Run(a, s, at, o, fuel);
            && (r.0 != Normal ==>
                  && Run(Semi(a, b), s, at, o, fuel) == r && Run(And(a, b), s, at, o, fuel) == r
                  && Run(Or(a, b), s, at, o, fuel) == r && Run(If(a, b, None), s, at, o, fuel) == r
                  && Run(If(a, b, Some(n)), s, at, o, fuel) == r)
            && (r.0 == Normal ==> Run(Semi(a, b), s, at, o, fuel) == Exec(b, r.1, at, fuel))
  {
    hide Exec;
  }

  /** So are break, continue and return, which take the place of what is pending; functions are defined
      and called, and a pending return ends with the call. */
  lemma PendingCommands(k: nat, arg: Option<int>, name: string, body: Node, args: Expansion, s: Env, at: Place,
          o: Outcome, fuel: nat)
    requires Fits(o, at) && o != Timeout && o != Normal
    ensures Run(Defun(name, body), s, at, o, fuel) == (o, Exec(Defun(name, body), s, at, fuel).1)
    ensures 0 < k <= at.loops ==>
              && Run(BreakCmd(k), s, at, o, fuel) == (Break(k), s.(status := 0))
              && Run(ContinueCmd(k), s, at, o, fuel) == (Continue(k), s.(status := 0))
    ensures k == 0 || at.loops == 0 ==>
              && Run(BreakCmd(k), s, at, o, fuel) == (o, s.(status := 0))
              && Run(ContinueCmd(k), s, at, o, fuel) == (o, s.(status := 0))
    ensures k > at.loops > 0 ==>
              && Run(BreakCmd(k), s, at, o, fuel) == (Break(at.loops), s.(status := 0))
              && Run(ContinueCmd(k), s, at, o, fuel) == (Continue(at.loops), s.(status := 0))
    ensures at.inFunction ==> Run(ReturnCmd(arg), s, at, o, fuel).0 == Return
    ensures !at.inFunction ==> Run(ReturnCmd(arg), s, at, o, fuel).0 == o
    ensures Run(ReturnCmd(arg), s, at, o, fuel).1 == if arg.Some? then s.(status := arg.value) else s
    ensures name !in s.functions ==> Run(Call(name, args), s, at, o, fuel) == (o, s.(status := 2))
    ensures name in s.functions && fuel > 0 ==>
              var (o1, s1) := Run(s.functions[name], s.(params := args(s.store, s.params)), at.(inFunction := true), o,
                                  fuel - 1);
              Run(Call(name, args), s, at, o, fuel) == (if o1 == Return then Normal else o1, s1.(params := s.params))
  {
  }

  /** A loop that is reached while something is pending executes its test, and takes what is pending for
      something that happened there: a break ends it, a continue lets it go on if it counts no other
      loop. */
  lemma PendingLoop(n: Node, s: Env, at: Place, o: Outcome, fuel: nat)
    requires n.Loop? && n.test.Simple? && Fits(o, at) && o != Timeout && o != Normal && fuel > 0
    ensures var (store, status) := n.test.run(s.store, s.params);
            var s1 := s.(store := store, status := status);
            match o
            case Continue(k) =>
              Run(n, s, at, o, fuel) ==
              if k == 1 then Exec(n, s1, at, fuel - 1) else (Continue(k - 1), s1.(status := 0))
            case Break(k) => Run(n, s, at, o, fuel) == (if k == 1 then Normal else Break(k - 1), s1.(status := 0))
            case _ => Run(n, s, at, o, fuel) == (o, s1.(status := 0))
  {
    var (store, status) := n.test.run(s.store, s.params);
    var s1 := s.(store := store, status := status);
    assert Run(n.test, s, Inside(at), o, fuel) == (o, s1);
  }

  /** A function is what its last definition says, until there is another. */
  lemma DefinedRuns(name: string, body: Node, args: Expansion, s: Env, at: Place, fuel: nat)
    requires fuel > 0
    ensures var s0 := s.(functions := s.functions[name := body], status := 0);
            var (o, s1) := Exec(body, s0.(params := args(s.store, s.params)), at.(inFunction := true), fuel - 1);
            Exec(Semi(Defun(name, body), Call(name, args)), s, at, fuel) ==
            (if o == Return then Normal else o, s1.(params := s.params))
  {
    var s0 := s.(functions := s.functions[name := body], status := 0);
    assert Exec(Defun(name, body), s, at, fuel) == (Normal, s0);
    CallRuns(name, args, s0, at, fuel);
  }
}
