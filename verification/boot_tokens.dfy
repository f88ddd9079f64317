/** The command language of the boot monitor: lines are taken apart into tokens, and the tokens of
    a function body are put together again to be stored. */
module BootTokens {
  import opened Options

  /** The special characters, among which a C string's end is one too. */
  predicate Sugar(s: string) {
    s == "" || s[0] in "=(){};\n"
  }

  /** Not printable, or the end of the line. */
  predicate Ends(s: string) {
    s == "" || s[0] < ' '
  }

  // One token.

  function SkipSpace(s: string): (r: string)
    ensures |r| <= |s|
    ensures r == "" || (r[0] != ' ' && !(r[0] == '\n' && |r| > 1 && r[1] == '\n'))
  {
    if s != "" && (s[0] == ' ' || (s[0] == '\n' && |s| > 1 && s[1] == '\n')) then SkipSpace(s[1..]) else s
  }

  /** The length of a token that starts with '(' inside `depth` open ones, and whether it is closed. */
  function Paren(s: string, depth: nat): (r: (nat, bool))
    ensures r.0 <= |s|
  {
    if Ends(s) then (0, false)
    else if s[0] == ')' && depth == 1 then (1, true)
    else
      var (n, closed) := Paren(s[1..], if s[0] == '(' then depth + 1
        else if s[0] == ')' && depth > 0 then depth - 1 else depth);
      (n + 1, closed)
  }

  function Word(s: string): (n: nat)
    ensures n <= |s| && (forall k :: 0 <= k < n ==> s[k] > ' ' && !Sugar(s[k..]))
    ensures n < |s| ==> s[n] <= ' ' || Sugar(s[n..])
  {
    if s == "" || s[0] <= ' ' || Sugar(s) then 0 else
      assert forall k :: 0 <= k < |s| - 1 ==> s[1..][k..] == s[k + 1..];
      1 + Word(s[1..])
  }

  function Length(s: string): (n: nat)
    requires !(Ends(s) && !(s != "" && s[0] == '\n'))
    ensures 0 < n <= |s|
  {
    if s[0] == '(' then Paren(s, 0).0
    else if Sugar(s) then 1
    else 1 + Word(s[1..])
  }

  /** The token at the start of a line, and the rest of the line. */
  function OneToken(s: string): (r: Option<(string, string)>)
    ensures r.Some? ==> |r.value.1| < |s|
  {
    var t := SkipSpace(s);
    if Ends(t) && !(t != "" && t[0] == '\n') then None
    else
      var n := Length(t);
      Some((if t[0] == '\n' then ";" else t[..n], t[n..]))
  }

  function Tokens(s: string): (r: seq<string>)
    decreases |s|
  {
    var one := OneToken(s);
    if one == None then [] else [one.value.0] + Tokens(one.value.1)
  }

  // Putting tokens together.

  function Join(ts: seq<string>): string {
    if ts == [] then ""
    else if |ts| == 1 then ts[0]
    else ts[0] + (if !Sugar(ts[0]) && !Sugar(ts[1]) then " " else "") + Join(ts[1..])
  }

  predicate IsSingle(t: string) {
    |t| == 1 && t[0] in "=){};"
  }

  predicate IsParen(t: string) {
    t != "" && t[0] == '(' && Paren(t, 0).0 == |t|
  }

  predicate IsWord(t: string) {
    t != "" && forall k :: 0 <= k < |t| ==> t[k] > ' ' && t[k] !in "=(){};\n"
  }

  /** What OneToken makes. */
  predicate IsToken(t: string) {
    IsSingle(t) || IsParen(t) || IsWord(t)
  }

  predicate Closed(t: string) {
    t != "" && t[0] == '(' ==> Paren(t, 0).1
  }

  /** A token is found again if what follows does not run into it. */
  lemma FoundAgain(t: string, rest: string)
    requires IsToken(t) && (IsWord(t) ==> Ends(rest) || rest[0] == ' ' || Sugar(rest)) && (Closed(t) || rest == "")
    ensures OneToken(t + rest) == Some((t, rest))
  {
    hide Paren, Word;
    var s := t + rest;
    assert SkipSpace(s) == s;
    assert s[|t|..] == rest && s[..|t|] == t;
    LengthOf(t, rest);
  }

  lemma LengthOf(t: string, rest: string)
    requires IsToken(t) && (IsWord(t) ==> Ends(rest) || rest[0] == ' ' || Sugar(rest)) && (Closed(t) || rest == "")
    ensures !Ends(t + rest) && Length(t + rest) == |t|
  {
    hide Paren, Word;
    var s := t + rest;
    if IsParen(t) {
      ParenBefore(t, rest, 0);
    } else if IsWord(t) {
      WordBefore(t[1..], rest);
      assert s[1..] == t[1..] + rest;
    }
  }

  lemma {:induction false} ParenBefore(t: string, rest: string, depth: nat)
    requires Paren(t, depth).0 == |t| && (Paren(t, depth).1 || rest == "")
    ensures Paren(t + rest, depth) == Paren(t, depth)
    decreases |t|
  {
    if rest == "" {
      assert t + rest == t;
    } else if t != "" && !(t[0] == ')' && depth == 1) {
      assert (t + rest)[1..] == t[1..] + rest;
      ParenBefore(t[1..], rest, if t[0] == '(' then depth + 1
        else if t[0] == ')' && depth > 0 then depth - 1 else depth);
    }
  }

  lemma {:induction false} WordBefore(t: string, rest: string)
    requires forall k :: 0 <= k < |t| ==> t[k] > ' ' && t[k] !in "=(){};\n"
    requires Ends(rest) || rest[0] == ' ' || Sugar(rest)
    ensures Word(t + rest) == |t|
    decreases |t|
  {
    if t == "" {
      assert t + rest == rest;
    } else {
      assert (t + rest)[1..] == t[1..] + rest;
      WordBefore(t[1..], rest);
    }
  }

  lemma FirstChar(t: string)
    requires IsToken(t)
    ensures t != "" && t[0] > ' ' && (IsWord(t) <==> !Sugar(t))
  {
    hide Paren;
  }

  lemma JoinStarts(ts: seq<string>)
    requires ts != [] && forall k :: 0 <= k < |ts| ==> IsToken(ts[k])
    ensures Join(ts) != "" && ts[0] != "" && Join(ts)[0] == ts[0][0] > ' '
  {
    hide IsToken;
    FirstChar(ts[0]);
  }

  lemma SkipNothing(s: string)
    requires s != "" && s[0] > ' '
    ensures SkipSpace(s) == s && SkipSpace(" " + s) == s
  {
    assert (" " + s)[1..] == s;
  }

  /** Tokens are separated by nothing or by one space. */
  lemma JoinOn(ts: seq<string>)
    requires |ts| > 1 && forall k :: 0 <= k < |ts| ==> IsToken(ts[k])
    ensures |ts[0]| < |Join(ts)| && Join(ts) == ts[0] + Join(ts)[|ts[0]|..]
    ensures var rest := Join(ts)[|ts[0]|..];
            && SkipSpace(rest) == Join(ts[1..]) && rest[0] >= ' '
            && (IsWord(ts[0]) ==> rest[0] == ' ' || Sugar(rest))
  {
    hide IsToken, IsWord, SkipSpace;
    var tail := Join(ts[1..]);
    FirstChar(ts[0]);
    FirstChar(ts[1]);
    JoinStarts(ts[1..]);
    SkipNothing(tail);
    var sep := if !Sugar(ts[0]) && !Sugar(ts[1]) then " " else "";
    assert Join(ts) == ts[0] + (sep + tail);
    assert Join(ts)[|ts[0]|..] == sep + tail;
    assert "" + tail == tail;
  }

  lemma TokensSkip(s: string)
    ensures Tokens(SkipSpace(s)) == Tokens(s)
  {
  }

  lemma NoTokens()
    ensures Tokens("") == []
  {
  }

  /** A stored function body gives back its tokens, if every '(' token but perhaps the last one is
      closed... */
  lemma {:induction false} RoundTrip(ts: seq<string>)
    requires forall k :: 0 <= k < |ts| ==> IsToken(ts[k]) && (k < |ts| - 1 ==> Closed(ts[k]))
    ensures Tokens(Join(ts)) == ts
    decreases |ts|
  {
    hide Tokens, IsToken, Closed, SkipSpace, OneToken;
    if |ts| == 0 {
      NoTokens();
    } else if |ts| == 1 {
      assert ts[0] + "" == ts[0];
      FoundAgain(ts[0], "");
      TokensOn(ts[0]);
      NoTokens();
    } else {
      JoinOn(ts);
      var rest := Join(ts)[|ts[0]|..];
      FoundAgain(ts[0], rest);
      TokensOn(Join(ts));
      TokensSkip(rest);
      RoundTrip(ts[1..]);
    }
  }

  /** ... and if one that is not closed is followed by something it swallows that. */
  lemma {:induction false} Swallows(ts: seq<string>, k: nat)
    requires k < |ts| - 1 && (forall j :: 0 <= j < |ts| ==> IsToken(ts[j])) && !Closed(ts[k])
    ensures Tokens(Join(ts)) != ts
    decreases |ts|
  {
    hide Join, IsToken, Closed, Tokens;
    JoinOn(ts);
    var rest := Join(ts)[|ts[0]|..];
    if Closed(ts[0]) {
      FoundAgain(ts[0], rest);
      TokensSkip(rest);
      TokensOn(Join(ts));
      Swallows(ts[1..], k - 1);
    } else {
      SwallowsNext(ts[0], rest);
      TokensOn(Join(ts));
    }
  }

  lemma TokensOn(s: string)
    ensures Tokens(s) == if OneToken(s) == None then [] else [OneToken(s).value.0] + Tokens(OneToken(s).value.1)
  {
  }

  lemma SwallowsNext(t: string, rest: string)
    requires IsToken(t) && !Closed(t) && rest != "" && rest[0] >= ' '
    ensures OneToken(t + rest).Some? && OneToken(t + rest).value.0 != t
  {
    hide Paren, SkipSpace;
    FirstChar(t);
    SkipNothing(t + rest);
    OpenParen(t);
    ParenGoesOn(t, rest, 0);
  }

  lemma OpenParen(t: string)
    requires IsToken(t) && !Closed(t)
    ensures t != "" && t[0] == '(' && Paren(t, 0) == (|t|, false)
  {
  }

  lemma {:induction false} ParenGoesOn(t: string, rest: string, depth: nat)
    requires Paren(t, depth) == (|t|, false) && !Ends(rest)
    ensures Paren(t + rest, depth).0 > |t|
    decreases |t|
  {
    if t == "" {
      assert t + rest == rest;
    } else {
      assert (t + rest)[1..] == t[1..] + rest;
      ParenGoesOn(t[1..], rest, if t[0] == '(' then depth + 1
        else if t[0] == ')' && depth > 0 then depth - 1 else depth);
    }
  }

  lemma RoundTripIff(ts: seq<string>)
    requires forall k :: 0 <= k < |ts| ==> IsToken(ts[k])
    ensures Tokens(Join(ts)) == ts <==> forall k :: 0 <= k < |ts| - 1 ==> Closed(ts[k])
  {
    if forall k :: 0 <= k < |ts| - 1 ==> Closed(ts[k]) {
      RoundTrip(ts);
    } else {
      var k :| 0 <= k < |ts| - 1 && !Closed(ts[k]);
      Swallows(ts, k);
    }
  }

  /** Whatever the line, its tokens are of the three kinds. */
  lemma {:induction false} TokensAreTokens(s: string)
    ensures forall k :: 0 <= k < |Tokens(s)| ==> IsToken(Tokens(s)[k])
    decreases |s|
  {
    hide IsToken, OneToken;
    TokensOn(s);
    var one := OneToken(s);
    if one.Some? {
      TokensAreTokens(one.value.1);
      OneIsToken(s);
    }
  }

  lemma OneIsToken(s: string)
    ensures OneToken(s).Some? ==> IsToken(OneToken(s).value.0)
  {
    hide SkipSpace, Paren, Word;
    var t := SkipSpace(s);
    if OneToken(s).Some? {
      var n := Length(t);
      if t[0] == '(' {
        ParenCut(t, 0);
      } else if !Sugar(t) {
        WordCut(t, n);
      }
    }
  }

  lemma WordCut(t: string, n: nat)
    requires t != "" && t[0] > ' ' && !Sugar(t) && n == 1 + Word(t[1..])
    ensures IsWord(t[..n])
  {
    forall k | 0 <= k < n
      ensures t[k] > ' ' && t[k] !in "=(){};\n"
    {
      if k > 0 {
        assert t[1..][k - 1] == t[k] && t[1..][k - 1..][0] == t[k];
      }
    }
  }

  lemma {:induction false} ParenCut(s: string, depth: nat)
    ensures Paren(s[..Paren(s, depth).0], depth) == Paren(s, depth)
    decreases |s|
  {
    var n := Paren(s, depth).0;
    if !Ends(s) && !(s[0] == ')' && depth == 1) {
      ParenCut(s[1..], if s[0] == '(' then depth + 1 else if s[0] == ')' && depth > 0 then depth - 1 else depth);
      assert s[..n][1..] == s[1..][..n - 1];
    }
  }

  // Lines.

  /** All of the line is taken apart, and no '(' in it is left open. */
  predicate Whole(s: string)
    decreases |s|
  {
    || SkipSpace(s) == ""
    || (OneToken(s).Some? && Closed(OneToken(s).value.0) && Whole(OneToken(s).value.1))
  }

  /** What can follow such a line: something that ends a word, and is not one more of its newlines. */
  predicate Follows(s: string, x: string) {
    x != "" && (x[0] == ';' || x[0] == '\n') && (s != "" && x[0] == '\n' ==> s[|s| - 1] != '\n')
  }

  lemma {:induction false} SkipBefore(s: string, x: string)
    requires Follows(s, x)
    ensures SkipSpace(s + x) == if SkipSpace(s) == "" then SkipSpace(x) else SkipSpace(s) + x
    ensures SkipSpace(s) != "" ==> Follows(SkipSpace(s), x)
    decreases |s|
  {
    if s == "" {
      assert s + x == x;
    } else {
      assert (s + x)[1..] == s[1..] + x;
      if |s| > 1 {
        SkipBefore(s[1..], x);
      } else {
        assert s[1..] == "" && s[1..] + x == x;
      }
    }
  }

  lemma {:induction false} WordEnds(s: string, x: string)
    requires x != "" && (x[0] == ';' || x[0] == '\n')
    ensures Word(s + x) == Word(s)
    decreases |s|
  {
    if s == "" {
      assert s + x == x;
    } else if s[0] > ' ' && !Sugar(s) {
      assert (s + x)[1..] == s[1..] + x;
      WordEnds(s[1..], x);
    }
  }

  /** A token is the same whatever follows the line. */
  lemma TokenBefore(s: string, x: string)
    requires Follows(s, x) && OneToken(s).Some? && Closed(OneToken(s).value.0)
    ensures OneToken(s + x) == Some((OneToken(s).value.0, OneToken(s).value.1 + x))
    ensures OneToken(s).value.1 != "" ==> Follows(OneToken(s).value.1, x)
  {
    hide Paren, Word, SkipSpace, Length;
    SkipBefore(s, x);
    var t := SkipSpace(s);
    var n := Length(t);
    LengthBefore(t, x);
    assert (t + x)[..n] == t[..n] && (t + x)[n..] == t[n..] + x;
  }

  lemma LengthBefore(t: string, x: string)
    requires Follows(t, x) && t != "" && !(Ends(t) && t[0] != '\n')
    requires t[0] == '(' ==> Closed(t[..Length(t)])
    ensures Length(t + x) == Length(t)
  {
    hide Paren, Word;
    assert (t + x)[0] == t[0];
    if t[0] == '(' {
      ParenLength(t, x);
    } else if !Sugar(t) {
      assert (t + x)[1..] == t[1..] + x;
      WordEnds(t[1..], x);
    }
  }

  lemma ParenLength(t: string, x: string)
    requires t != "" && t[0] == '(' && Closed(t[..Paren(t, 0).0])
    ensures Paren(t + x, 0).0 == Paren(t, 0).0
  {
    hide Paren;
    var n := Paren(t, 0).0;
    ParenCut(t, 0);
    OpenLength(t);
    assert t + x == t[..n] + (t[n..] + x);
    ParenBefore(t[..n], t[n..] + x, 0);
  }

  lemma OpenLength(t: string)
    requires t != "" && t[0] == '('
    ensures Paren(t, 0).0 > 0
  {
  }

  lemma {:induction false} TokensBefore(s: string, x: string)
    requires Whole(s) && Follows(s, x)
    ensures Tokens(s + x) == Tokens(s) + Tokens(x)
    decreases |s|
  {
    hide OneToken, SkipSpace, Closed, Tokens;
    TokensOn(s);
    TokensOn(s + x);
    TokensOn(x);
    SkipBefore(s, x);
    if SkipSpace(s) == "" {
      TokensSkip(x);
      TokensSkip(s + x);
      TokensSkip(s);
      NoTokens();
    } else {
      TokenBefore(s, x);
      var rest := OneToken(s).value.1;
      if rest == "" {
        assert rest + x == x;
        NoTokens();
      } else {
        TokensBefore(rest, x);
      }
    }
  }

  /** Two commands on lines of their own, with blank lines between them or not, have the tokens of the
      same commands with a semicolon between them. */
  lemma LinesAreCommands(s: string, n: nat, next: string)
    requires Whole(s) && (s != "" ==> s[|s| - 1] != '\n') && (next != "" ==> next[0] != '\n')
    ensures Tokens(s + Newlines(n + 1) + next) == Tokens(s + ";" + next) == Tokens(s) + [";"] + Tokens(next)
  {
    hide Tokens, Whole;
    var lines := Newlines(n + 1) + next;
    assert s + Newlines(n + 1) + next == s + lines && s + ";" + next == s + (";" + next);
    TokensBefore(s, lines);
    TokensBefore(s, ";" + next);
    NewlinesSkip(n, next);
    TokensSkip(lines);
    OneSemicolon("\n", next);
    OneSemicolon(";", next);
  }

  function Newlines(n: nat): (s: string)
    ensures |s| == n && forall k :: 0 <= k < n ==> s[k] == '\n'
  {
    seq(n, _ => '\n')
  }

  lemma {:induction false} NewlinesSkip(n: nat, next: string)
    requires next != "" ==> next[0] != '\n'
    ensures SkipSpace(Newlines(n + 1) + next) == "\n" + next
    decreases n
  {
    var s := Newlines(n + 1) + next;
    if n == 0 {
      assert s == "\n" + next;
    } else {
      assert s[1..] == Newlines(n) + next;
      NewlinesSkip(n - 1, next);
    }
  }

  lemma OneSemicolon(c: string, next: string)
    requires (c == "\n" || c == ";") && (next != "" ==> next[0] != '\n')
    ensures Tokens(c + next) == [";"] + Tokens(next)
  {
    var s := c + next;
    assert SkipSpace(s) == s && s[1..] == next && s[..1] == c;
  }

  // The monitor's own loops.

  /** onetoken: the cursor moves over the line. */
  method ScanToken(line: string, start: nat) returns (tok: Option<string>, pos: nat)
    requires start <= |line|
    ensures start <= pos <= |line|
    ensures OneToken(line[start..]) == if tok == None then None else Some((tok.value, line[pos..]))
  {
    hide SkipSpace, Paren, Word, Length;
    pos := SkipBlanks(line, start);
    ghost var t := line[pos..];
    if pos == |line| || (line[pos] < ' ' && line[pos] != '\n') {
      return None, pos;
    }
    var from := pos;
    LengthIs(t);
    if line[pos] == '(' {
      pos := ScanParen(line, pos);
    } else if line[pos] in "=(){};\n" {
      pos := pos + 1;
    } else {
      assert t[1..] == line[from + 1..];
      pos := ScanWord(line, pos + 1);
    }
    assert t[..pos - from] == line[from..pos] && t[pos - from..] == line[pos..];
    tok := Some(if line[from] == '\n' then ";" else line[from..pos]);
  }

  lemma LengthIs(t: string)
    requires t != "" && (t[0] >= ' ' || t[0] == '\n')
    ensures Length(t) == if t[0] == '(' then Paren(t, 0).0 else if t[0] in "=(){};\n" then 1 else 1 + Word(t[1..])
  {
  }

  /** Skip spaces and runs of newlines. */
  method SkipBlanks(line: string, start: nat) returns (pos: nat)
    requires start <= |line|
    ensures start <= pos <= |line| && line[pos..] == SkipSpace(line[start..])
  {
    pos := start;
    while pos < |line| && (line[pos] == ' ' || (line[pos] == '\n' && pos + 1 < |line| && line[pos + 1] == '\n'))
      invariant start <= pos <= |line|
      invariant SkipSpace(line[start..]) == SkipSpace(line[pos..])
    {
      assert line[pos..][1..] == line[pos + 1..];
      pos := pos + 1;
    }
  }

  method ScanParen(line: string, start: nat) returns (pos: nat)
    requires start < |line| && line[start] == '('
    ensures start <= pos <= |line| && pos - start == Paren(line[start..], 0).0
  {
    var depth := 0;
    pos := start;
    while pos < |line| && line[pos] >= ' '
      invariant start <= pos <= |line| && depth >= 0 && (pos > start ==> depth > 0)
      invariant Paren(line[start..], 0).0 == pos - start + Paren(line[pos..], depth).0
    {
      assert line[pos..][1..] == line[pos + 1..];
      if line[pos] == '(' {
        depth := depth + 1;
      }
      pos := pos + 1;
      if line[pos - 1] == ')' {
        depth := depth - 1;
        if depth == 0 {
          break;
        }
      }
    }
  }

  method ScanWord(line: string, start: nat) returns (pos: nat)
    requires start <= |line|
    ensures start <= pos <= |line| && pos - start == Word(line[start..])
  {
    hide Word;
    pos := start;
    WordOn(line[pos..]);
    while pos < |line| && line[pos] > ' ' && line[pos] !in "=(){};\n"
      invariant start <= pos <= |line|
      invariant Word(line[start..]) == pos - start + Word(line[pos..])
    {
      WordOn(line[pos..]);
      assert line[pos..][1..] == line[pos + 1..];
      pos := pos + 1;
    }
    WordOn(line[pos..]);
  }

  lemma WordOn(s: string)
    ensures Word(s) == if s == "" || s[0] <= ' ' || Sugar(s) then 0 else 1 + Word(s[1..])
  {
  }

  /** tokenize: the tokens of the line are inserted in the command chain at `at`. */
  method Tokenize(chain: seq<string>, at: nat, line: string) returns (chain': seq<string>, at': nat)
    requires at <= |chain|
    ensures chain' == chain[..at] + Tokens(line) + chain[at..]
    ensures at' == at + |Tokens(line)|
  {
    hide OneToken;
    chain', at' := chain, at;
    var pos := 0;
    var tok;
    tok, pos := ScanToken(line, pos);
    assert line[0..] == line;
    ghost var done: seq<string> := [];
    ghost var from := 0;
    while tok.Some?
      invariant from <= |line| && pos <= |line| && at' == at + |done|
      invariant chain' == chain[..at] + done + chain[at..]
      invariant Tokens(line) == done + Tokens(line[from..])
      invariant OneToken(line[from..]) == if tok == None then None else Some((tok.value, line[pos..]))
      decreases |line| - from
    {
      TokensOn(line[from..]);
      assert done + ([tok.value] + Tokens(line[pos..])) == done + [tok.value] + Tokens(line[pos..]);
      Shorter(line[from..]);
      chain' := chain'[..at'] + [tok.value] + chain'[at'..];
      at' := at' + 1;
      done := done + [tok.value];
      from := pos;
      tok, pos := ScanToken(line, pos);
    }
    TokensOn(line[from..]);
    assert done + [] == done;
  }

  lemma Shorter(s: string)
    ensures OneToken(s).Some? ==> |OneToken(s).value.1| < |s|
  {
  }

  // Defining a function.

  /** Where the body of a function ends: at a ';' outside braces, or behind the brace that closes
      the first one. */
  function BodyEnd(ts: seq<string>, depth: int): (n: nat)
    requires forall k :: 0 <= k < |ts| ==> IsToken(ts[k])
    ensures n <= |ts|
  {
    if ts == [] then 0
    else
      FirstChar(ts[0]);
      var c := ts[0][0];
      if c == ';' && depth == 0 then 0
      else if c == '}' && depth == 1 then 1
      else 1 + BodyEnd(ts[1..], if c == '{' then depth + 1 else if c == '}' then depth - 1 else depth)
  }

  /** Find the end of a function body and how many bytes to allocate for it. */
  method FindEnd(ts: seq<string>) returns (sep: nat, depth: int, len: nat)
    requires forall k :: 0 <= k < |ts| ==> IsToken(ts[k])
    ensures sep == BodyEnd(ts, 0) && len == 1 + Size(ts[..sep])
  {
    hide IsToken, BodyEnd, Size;
    sep, depth, len := 0, 0, 1;
    BodyEndOn([], 0);
    SizeNone();
    assert ts[..0] == [] && ts[0..] == ts;
    while sep < |ts|
      invariant sep <= |ts| && BodyEnd(ts, 0) == sep + BodyEnd(ts[sep..], depth)
      invariant len == 1 + Size(ts[..sep])
    {
      assert ts[sep..][0] == ts[sep] && ts[sep..][1..] == ts[sep + 1..];
      FirstChar(ts[sep]);
      BodyEndOn(ts[sep..], depth);
      var c := ts[sep][0];
      if c == ';' && depth == 0 {
        break;
      }
      assert ts[..sep + 1] == ts[..sep] + [ts[sep]];
      SizeMore(ts[..sep], ts[sep]);
      len := len + |ts[sep]| + 1;
      sep := sep + 1;
      if c == '{' {
        depth := depth + 1;
      }
      if c == '}' {
        depth := depth - 1;
        if depth == 0 {
          break;
        }
      }
    }
  }

  /** Does the loop that joins the body stay within the chain of tokens?  It looks at the token
      behind each one that is not special, and the chain may end with the body. */
  predicate StaysInChain(ts: seq<string>)
    requires ts != [] && forall k :: 0 <= k < |ts| ==> IsToken(ts[k])
  {
    BodyEnd(ts, 0) < |ts| || Sugar(ts[|ts| - 1])
  }

  /** The shortest body with which it does not: a word, as the last command of "trailer". */
  lemma NoSeparator()
    ensures Tokens("f()x") == ["f", "()", "x"]
    ensures IsToken("x") && (forall k :: 0 <= k < |["x"]| ==> IsToken(["x"][k])) && !StaysInChain(["x"])
  {
    assert IsWord("x") && IsToken("x") && !Sugar("x") && BodyEnd(["x"], 0) == 1;
    TokensOfDefinition();
  }

  /** The function-definition branch of execute: `ts` are the tokens after the argument.  The body
      fits in the `len` bytes that are allocated.  Not ok: the null pointer at the end of the
      chain is followed. */
  method FunctionBody(ts: seq<string>) returns (ok: bool, body: string, sep: nat, depth: int, len: nat)
    requires ts != [] && forall k :: 0 <= k < |ts| ==> IsToken(ts[k])
    ensures ok <==> StaysInChain(ts)
    ensures ok ==> sep == BodyEnd(ts, 0) && body == Join(ts[..sep]) && |body| + 1 <= len
  {
    hide IsToken, Sugar, Join, Size, BodyEnd;
    sep, depth, len := FindEnd(ts);
    BodyEndsSugared(ts, 0);
    body := "";
    var fun := 0;
    assert "" + Join(ts[0..sep]) == Join(ts[..sep]);
    NothingJoined();
    while fun != sep
      invariant fun <= sep && body + Join(ts[fun..sep]) == Join(ts[..sep])
      invariant fun == sep > 0 ==> StaysInChain(ts)
      decreases sep - fun
    {
      ghost var before := body;
      body := body + ts[fun];
      if !Sugar(ts[fun]) && fun + 1 == |ts| {
        return false, body, sep, depth, len;
      }
      JoinStep(ts, fun, sep);
      if !Sugar(ts[fun]) && !Sugar(ts[fun + 1]) {
        body := body + " ";
        assert before + (ts[fun] + " " + Join(ts[fun + 1..sep])) == body + Join(ts[fun + 1..sep]);
      } else {
        assert before + (ts[fun] + Join(ts[fun + 1..sep])) == body + Join(ts[fun + 1..sep]);
      }
      fun := fun + 1;
    }
    assert ts[sep..sep] == [] && body + "" == body;
    JoinFits(ts[..sep]);
    ok := true;
  }

  lemma EmptyParen()
    ensures IsParen("()") && Closed("()")
  {
    assert "()"[1..] == ")" && Paren(")", 1) == (1, true);
  }

  lemma EmptyLine()
    ensures OneToken("") == None
  {
  }

  lemma TokensOfDefinition()
    ensures Tokens("f()x") == ["f", "()", "x"]
  {
    hide Paren, Word, SkipSpace, Length;
    assert IsWord("f") && IsWord("x") && Sugar("()x");
    EmptyParen();
    FoundAgain("f", "()x");
    FoundAgain("()", "x");
    FoundAgain("x", "");
    assert "f()x" == "f" + "()x" && "()x" == "()" + "x" && "x" == "x" + "";
    assert Tokens("") == [] by {
      assert OneToken("") == None by {
        EmptyLine();
      }
    }
  }

  lemma NothingJoined()
    ensures Join([]) == ""
  {
  }

  lemma JoinStep(ts: seq<string>, k: nat, sep: nat)
    requires k < sep <= |ts| && (k + 1 < sep || Sugar(ts[k]) || (sep < |ts| && Sugar(ts[sep])))
    ensures !Sugar(ts[k]) ==> k + 1 < |ts|
    ensures Join(ts[k..sep]) ==
            if !Sugar(ts[k]) && !Sugar(ts[k + 1]) then ts[k] + " " + Join(ts[k + 1..sep])
            else ts[k] + Join(ts[k + 1..sep])
  {
    hide Sugar;
    assert ts[k..sep][0] == ts[k] && ts[k..sep][1..] == ts[k + 1..sep];
    if k + 1 < sep {
      assert ts[k..sep][1] == ts[k + 1];
      assert ts[k] + "" + Join(ts[k + 1..sep]) == ts[k] + Join(ts[k + 1..sep]);
    } else {
      assert ts[k] + "" == ts[k];
    }
  }

  lemma BodyEndOn(ts: seq<string>, depth: int)
    requires forall k :: 0 <= k < |ts| ==> IsToken(ts[k])
    ensures ts != [] ==> ts[0] != ""
    ensures BodyEnd(ts, depth) ==
            if ts == [] then 0
            else
              var c := ts[0][0];
              if c == ';' && depth == 0 then 0
              else if c == '}' && depth == 1 then 1
              else 1 + BodyEnd(ts[1..], if c == '{' then depth + 1 else if c == '}' then depth - 1 else depth)
  {
    hide IsToken;
    if ts != [] {
      FirstChar(ts[0]);
    }
  }

  lemma SizeNone()
    ensures Size([]) == 0
  {
  }

  function Size(ts: seq<string>): nat {
    if ts == [] then 0 else |ts[0]| + 1 + Size(ts[1..])
  }

  lemma {:induction false} SizeMore(ts: seq<string>, t: string)
    ensures Size(ts + [t]) == Size(ts) + |t| + 1
    decreases |ts|
  {
    if ts != [] {
      assert (ts + [t])[1..] == ts[1..] + [t];
      SizeMore(ts[1..], t);
    }
  }

  lemma {:induction false} JoinFits(ts: seq<string>)
    ensures |Join(ts)| <= Size(ts)
    decreases |ts|
  {
    if ts != [] {
      JoinFits(ts[1..]);
    }
  }

  /** The body ends with a brace, or before a ';', or with the chain: in the first two cases no
      space is needed behind it. */
  lemma {:induction false} BodyEndsSugared(ts: seq<string>, depth: int)
    requires ts != [] && forall k :: 0 <= k < |ts| ==> IsToken(ts[k])
    ensures var n := BodyEnd(ts, depth); 0 < n < |ts| ==> Sugar(ts[n - 1]) || Sugar(ts[n])
    decreases |ts|
  {
    hide IsToken;
    FirstChar(ts[0]);
    if |ts| > 1 {
      var c := ts[0][0];
      var d := if c == '{' then depth + 1 else if c == '}' then depth - 1 else depth;
      FirstChar(ts[1]);
      BodyEndsSugared(ts[1..], d);
    }
  }
}
