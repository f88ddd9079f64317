/** What a shell command tree means, with `break n`, `continue n` and `return` as outcomes that
    propagate outwards, instead of the global flags the evaluator uses. */
module ShellSemantics {
  import opened Options

  type Store = map<string, string>

  type Expansion = (Store, seq<string>) -> seq<string>

  /** Command trees.  What a simple command does, how words expand and what a pattern matches are
      functions of the variables and the positional parameters. */
  datatype Node =
    | Semi(first: Node, second: Node)
    | And(first: Node, second: Node)
    | Or(first: Node, second: Node)
    | If(test: Node, ifPart: Node, elsePart: Option<Node>)
    | Loop(until: bool, test: Node, body: Node)
    | For(name: string, words: seq<Expansion>, body: Node)
    | Case(word: (Store, seq<string>) -> string, clauses: seq<Clause>)
    | Defun(name: string, body: Node)
    | Call(name: string, args: Expansion)
    | Simple(run: (Store, seq<string>) -> (Store, int))
    | BreakCmd(count: nat)
    | ContinueCmd(count: nat)
    | ReturnCmd(arg: Option<int>)

  datatype Clause = Clause(patterns: seq<string -> bool>, body: Node)

  /** Everything a command can change besides control flow. */
  datatype Env = Env(store: Store, params: seq<string>, functions: map<string, Node>, status: int)

  /** Where a command stands: inside how many loops, and whether inside a function. */
  datatype Place = Place(loops: nat, inFunction: bool)

  datatype Outcome = Normal | Break(k: nat) | Continue(k: nat) | Return | Timeout

  function Min(a: nat, b: nat): nat {
    if a < b then a else b
  }

  predicate Fits(o: Outcome, at: Place) {
    match o
    case Break(k) => 1 <= k <= at.loops
    case Continue(k) => 1 <= k <= at.loops
    case Return => at.inFunction
    case _ => true
  }

  predicate Matches(c: Clause, word: string) {
    exists k :: 0 <= k < |c.patterns| && c.patterns[k](word)
  }

  /** Does a loop go on after its body or test ended with `o`? */
  predicate GoesOn(o: Outcome) {
    o == Normal || o == Continue(1)
  }

  /** The outcome of a loop that does not go on. */
  function Left(o: Outcome): Outcome {
    match o
    case Break(k) => if k <= 1 then Normal else Break(k - 1)
    case Continue(k) => if k <= 1 then Normal else Continue(k - 1)
    case _ => o
  }

  function Inside(at: Place): Place {
    at.(loops := at.loops + 1)
  }

  /** The words that the arguments of a `for` expand to. */
  function Expand(words: seq<Expansion>, s: Env): (w: seq<string>)
    ensures words == [] ==> w == []
  {
    if words == [] then [] else words[0](s.store, s.params) + Expand(words[1..], s)
  }

  /** Execute `n`.  `fuel` bounds the loop iterations and function calls along each path; if it
      runs out the outcome is Timeout.  A pending break or continue never counts more loops than
      there are around the command, and a return is pending only inside a function. */
  function Exec(n: Node, s: Env, at: Place, fuel: nat): (r: (Outcome, Env))
    ensures Fits(r.0, at)
    decreases fuel, n, 1, 0
  {
    match n
    case Semi(a, b) =>
      var (o, s1) := Exec(a, s, at, fuel);
      if o != Normal then (o, s1) else Exec(b, s1, at, fuel)
    case And(a, b) =>
      var (o, s1) := Exec(a, s, at, fuel);
      if o != Normal || s1.status != 0 then (o, s1) else Exec(b, s1, at, fuel)
    case Or(a, b) =>
      var (o, s1) := Exec(a, s, at, fuel);
      if o != Normal || s1.status == 0 then (o, s1) else Exec(b, s1, at, fuel)
    case If(test, a, b) =>
      var (o, s1) := Exec(test, s, at, fuel);
      if o != Normal then (o, s1)
      else if s1.status == 0 then Exec(a, s1, at, fuel)
      else if b.Some? then Exec(b.value, s1, at, fuel)
      else (Normal, s1.(status := 0))
    case Loop(_, _, _) => ExecLoop(n, s, at, 0, fuel)
    case For(_, words, _) => ExecFor(n, Expand(words, s), s.(status := 0), at, fuel)
    case Case(word, clauses) => ExecCase(n, word(s.store, s.params), 0, s, at, fuel)
    case Defun(name, body) => (Normal, s.(functions := s.functions[name := body], status := 0))
    case Call(name, args) =>
      if name !in s.functions then (Normal, s.(status := 2))
      else if fuel == 0 then (Timeout, s)
      else
        var (o, s1) := Exec(s.functions[name], s.(params := args(s.store, s.params)), at.(inFunction := true),
          fuel - 1);
        (if o == Return then Normal else o, s1.(params := s.params))
    case Simple(run) =>
      var (store, status) := run(s.store, s.params);
      (Normal, s.(store := store, status := status))
    case BreakCmd(count) =>
      var k := Min(count, at.loops);
      (if k == 0 then Normal else Break(k), s.(status := 0))
    case ContinueCmd(count) =>
      var k := Min(count, at.loops);
      (if k == 0 then Normal else Continue(k), s.(status := 0))
    case ReturnCmd(arg) =>
      (if at.inFunction then Return else Normal, if arg.Some? then s.(status := arg.value) else s)
  }

  /** `status` is the status of the last body that was executed, and becomes that of the loop. */
  function ExecLoop(n: Node, s: Env, at: Place, status: int, fuel: nat): (r: (Outcome, Env))
    requires n.Loop?
    ensures Fits(r.0, at)
    decreases fuel, n, 0, 2
  {
    if fuel == 0 then (Timeout, s) else AfterTest(n, Exec(n.test, s, Inside(at), fuel), at, status, fuel)
  }

  /** The rest of a loop if its test ended with `r`... */
  function AfterTest(n: Node, r: (Outcome, Env), at: Place, status: int, fuel: nat): (r': (Outcome, Env))
    requires n.Loop? && fuel > 0 && Fits(r.0, Inside(at))
    ensures Fits(r'.0, at)
    decreases fuel, n, 0, 1
  {
    var (o, s1) := r;
    if o == Continue(1) then ExecLoop(n, s1, at, status, fuel - 1)
    else if o != Normal || (s1.status == 0) == n.until then (Left(o), s1.(status := status))
    else AfterBody(n, Exec(n.body, s1, Inside(at), fuel), at, fuel)
  }

  /** ... and if its body did. */
  function AfterBody(n: Node, r: (Outcome, Env), at: Place, fuel: nat): (r': (Outcome, Env))
    requires n.Loop? && fuel > 0 && Fits(r.0, Inside(at))
    ensures Fits(r'.0, at)
    decreases fuel, n, 0, 0
  {
    if GoesOn(r.0) then ExecLoop(n, r.1, at, r.1.status, fuel - 1) else (Left(r.0), r.1)
  }

  function ExecFor(n: Node, words: seq<string>, s: Env, at: Place, fuel: nat): (r: (Outcome, Env))
    requires n.For?
    ensures Fits(r.0, at)
    decreases fuel, n, 0, |words|
  {
    if words == [] then (Normal, s) else
      var (o, s1) := Exec(n.body, s.(store := s.store[n.name := words[0]]), Inside(at), fuel);
      if GoesOn(o) then ExecFor(n, words[1..], s1, at, fuel)
      else (Left(o), s1)
  }

  /** The clauses from `k` on are tried; only the first that matches is executed. */
  function ExecCase(n: Node, word: string, k: nat, s: Env, at: Place, fuel: nat): (r: (Outcome, Env))
    requires n.Case? && k <= |n.clauses|
    ensures Fits(r.0, at)
    decreases fuel, n, 0, |n.clauses| - k
  {
    if k == |n.clauses| then (Normal, s)
    else if Matches(n.clauses[k], word) then Exec(n.clauses[k].body, s, at, fuel)
    else ExecCase(n, word, k + 1, s, at, fuel)
  }

  // A `while` or `until` loop, one round at a time.

  lemma LoopTurn(n: Node, s: Env, at: Place, status: int, fuel: nat)
    requires n.Loop?
    ensures ExecLoop(n, s, at, status, fuel) ==
            if fuel == 0 then (Timeout, s) else
              var (o, s1) := Exec(n.test, s, Inside(at), fuel);
              if o == Continue(1) then ExecLoop(n, s1, at, status, fuel - 1)
              else if o != Normal || (s1.status == 0) == n.until then (Left(o), s1.(status := status))
              else
                var (o2, s2) := Exec(n.body, s1, Inside(at), fuel);
                if GoesOn(o2) then ExecLoop(n, s2, at, s2.status, fuel - 1) else (Left(o2), s2)
  {
    hide Exec;
    if fuel > 0 {
      var (o, s1) := Exec(n.test, s, Inside(at), fuel);
      if o == Normal && (s1.status == 0) != n.until {
        var r := Exec(n.body, s1, Inside(at), fuel);
        assert AfterTest(n, (o, s1), at, status, fuel) == AfterBody(n, r, at, fuel);
      }
    }
  }

  // A `for` loop, one word at a time.

  lemma ForStart(n: Node, s: Env, at: Place, fuel: nat)
    requires n.For?
    ensures Exec(n, s, at, fuel) == ExecFor(n, Expand(n.words, s), s.(status := 0), at, fuel)
  {
  }

  lemma ForOnce(n: Node, words: seq<string>, s: Env, at: Place, fuel: nat)
    requires n.For? && words != []
    ensures ExecFor(n, words, s, at, fuel) ==
            var (o, s1) := Exec(n.body, s.(store := s.store[n.name := words[0]]), Inside(at), fuel);
            if GoesOn(o) then ExecFor(n, words[1..], s1, at, fuel) else (Left(o), s1)
  {
  }

  lemma ForEnd(n: Node, s: Env, at: Place, fuel: nat)
    requires n.For?
    ensures ExecFor(n, [], s, at, fuel) == (Normal, s)
  {
  }

  // Commands that are executed although something is pending.

  /** Execute `n` while `o` is pending.  The first simple command inside is still executed, and so
      is the first test of a loop, which then takes `o` for its own; a function call ends a pending
      return. */
  function Run(n: Node, s: Env, at: Place, o: Outcome, fuel: nat): (r: (Outcome, Env))
    requires Fits(o, at) && o != Timeout
    ensures Fits(r.0, at)
    decreases fuel, n
  {
    if o == Normal then Exec(n, s, at, fuel) else
      match n
      case Semi(a, b) =>
        var (o1, s1) := Run(a, s, at, o, fuel);
        if o1 != Normal then (o1, s1) else Exec(b, s1, at, fuel)
      case And(a, b) =>
        var (o1, s1) := Run(a, s, at, o, fuel);
        if o1 != Normal || s1.status != 0 then (o1, s1) else Exec(b, s1, at, fuel)
      case Or(a, b) =>
        var (o1, s1) := Run(a, s, at, o, fuel);
        if o1 != Normal || s1.status == 0 then (o1, s1) else Exec(b, s1, at, fuel)
      case If(test, a, b) =>
        var (o1, s1) := Run(test, s, at, o, fuel);
        if o1 != Normal then (o1, s1)
        else if s1.status == 0 then Exec(a, s1, at, fuel)
        else if b.Some? then Exec(b.value, s1, at, fuel)
        else (Normal, s1.(status := 0))
      case Loop(_, test, _) =>
        if fuel == 0 then (Timeout, s) else AfterTest(n, Run(test, s, Inside(at), o, fuel), at, 0, fuel)
      case For(_, words, _) => (o, if words == [] then s.(status := 0) else s)
      case Case(_, _) => (o, s)
      case Defun(name, body) => (o, s.(functions := s.functions[name := body], status := 0))
      case Call(name, args) =>
        if name !in s.functions then (o, s.(status := 2))
        else if fuel == 0 then (Timeout, s)
        else
          var (o1, s1) := Run(s.functions[name], s.(params := args(s.store, s.params)), at.(inFunction := true), o,
            fuel - 1);
          (if o1 == Return then Normal else o1, s1.(params := s.params))
      case Simple(run) =>
        var (store, status) := run(s.store, s.params);
        (o, s.(store := store, status := status))
      case BreakCmd(count) =>
        var k := Min(count, at.loops);
        (if k == 0 then o else Break(k), s.(status := 0))
      case ContinueCmd(count) =>
        var k := Min(count, at.loops);
        (if k == 0 then o else Continue(k), s.(status := 0))
      case ReturnCmd(arg) =>
        (if at.inFunction then Return else o, if arg.Some? then s.(status := arg.value) else s)
  }

  /** The lines of an `eval` string, of a script or of the input: each is executed, whatever the
      one before did. */
  function RunLines(lines: seq<Node>, s: Env, at: Place, o: Outcome, fuel: nat): (r: (Outcome, Env))
    requires Fits(o, at) && o != Timeout
    ensures Fits(r.0, at)
  {
    if lines == [] then (o, s) else
      var (o1, s1) := Run(lines[0], s, at, o, fuel);
      if o1 == Timeout then (Timeout, s1) else RunLines(lines[1..], s1, at, o1, fuel)
  }

  /** What they would do as one command: nothing is executed once something is pending. */
  function ExecSeq(lines: seq<Node>, s: Env, at: Place, fuel: nat): (r: (Outcome, Env))
    ensures Fits(r.0, at)
  {
    if lines == [] then (Normal, s) else
      var (o, s1) := Exec(lines[0], s, at, fuel);
      if o != Normal then (o, s1) else ExecSeq(lines[1..], s1, at, fuel)
  }
}
