/** A pure reference definition of what one call of `nextToken` does to the
    cursor, of the runs the two gather helpers cover, and of the token stream
    a caller obtains by calling `nextToken` until it yields EOF.  The methods
    `SkipWhitespace`, `NextToken`, `GatherCharacters` and `GatherDigits` of
    the class in lexer.dfy are proved against these functions; the lemmas
    here state what the lexer promises. */
module Scanner {
  import opened Tokens

  /** The first position at or after `pos` whose character is not whitespace. */
  function SkipFrom(source: string, pos: int): (p: int)
    requires 0 <= pos
    ensures pos <= p
    ensures !IsWhitespace(CharAt(source, p))
    ensures forall i :: pos <= i < p ==> i < |source| && IsWhitespace(source[i])
    ensures pos <= |source| ==> p <= |source|
    decreases |source| - pos
  {
    if IsWhitespace(CharAt(source, pos)) then SkipFrom(source, pos + 1) else pos
  }

  /** One call of the lexer started with the cursor at `pos`: the token it
      returns and the cursor it leaves behind. */
  function Scan(source: string, pos: int): (r: (Token, int))
    requires 0 <= pos
    ensures pos < r.1
    ensures r.0.kind != Eof ==> r.1 <= |source|
  {
    var p := SkipFrom(source, pos);
    var c := CharAt(source, p);
    if c == NUL then (Token(Eof, ""), p + 1)
    else if c == '=' && CharAt(source, p + 1) == '=' then (Token(Eq, "=="), p + 2)
    else if c == '!' && CharAt(source, p + 1) == '=' then (Token(NotEq, "!="), p + 2)
    else
      match SingleKind(c)
      case Some(k) => (Token(k, [c]), p + 1)
      case None => (Token(Illegal, [c]), p + 1)
  }

  /** Leading whitespace never changes what is scanned. */
  lemma ScanSkipsWhitespace(source: string, pos: int)
    requires 0 <= pos < |source| && IsWhitespace(source[pos])
    ensures Scan(source, pos) == Scan(source, pos + 1)
  {
  }

  /** `=` and `!` are decided by one character of lookahead. */
  lemma ScanTwoCharOperators(source: string, pos: int)
    requires 0 <= pos
    ensures var p := SkipFrom(source, pos);
            var (t, n) := Scan(source, pos);
            var second := CharAt(source, p + 1) == '=';
            (CharAt(source, p) == '=' ==>
               if second then t == Token(Eq, "==") && n == p + 2
               else t == Token(Assign, "=") && n == p + 1) &&
            (CharAt(source, p) == '!' ==>
               if second then t == Token(NotEq, "!=") && n == p + 2
               else t == Token(Bang, "!") && n == p + 1)
  {
  }

  /** Each operator and delimiter yields the kind whose tag is that character,
      with that character as text, and the cursor moves one past it. */
  lemma ScanSingleCharTokens(source: string, pos: int)
    requires 0 <= pos
    ensures var p := SkipFrom(source, pos);
            var c := CharAt(source, p);
            var (t, n) := Scan(source, pos);
            c in "+-*/<>,;(){}" ==> t.text == [c] && Tag(t.kind) == [c] && n == p + 1
  {
    var p := SkipFrom(source, pos);
    SingleKindMatchesTag(CharAt(source, p));
  }

  /** Every other character, letters and digits included, is an ILLEGAL token
      holding that one character, and scanning goes on after it. */
  lemma ScanIllegal(source: string, pos: int)
    requires 0 <= pos
    ensures var p := SkipFrom(source, pos);
            var c := CharAt(source, p);
            var (t, n) := Scan(source, pos);
            c != NUL && c !in "+-*/<>=!,;(){}" ==> t == Token(Illegal, [c]) && n == p + 1
    ensures var c := CharAt(source, SkipFrom(source, pos));
            IsAlnum(c) ==> Scan(source, pos).0.kind == Illegal
  {
  }

  /** The end of input, and only the end of input, gives EOF, with empty text;
      the cursor still moves one further. */
  lemma ScanEof(source: string, pos: int)
    requires ValidSource(source) && 0 <= pos
    ensures var p := SkipFrom(source, pos);
            var (t, n) := Scan(source, pos);
            (t.kind == Eof <==> p >= |source|) &&
            (t.kind == Eof ==> t.text == "" && n == p + 1)
  {
  }

  /** At or past the end every call is EOF, and the cursor keeps counting. */
  lemma EofIsSticky(source: string, pos: int)
    requires |source| <= pos
    ensures Scan(source, pos) == (Token(Eof, ""), pos + 1)
  {
  }

  /** Once a call has produced EOF the next one does too. */
  lemma EofThenEof(source: string, pos: int)
    requires ValidSource(source) && 0 <= pos
    requires Scan(source, pos).0.kind == Eof
    ensures var n := Scan(source, pos).1;
            |source| < n && Scan(source, n) == (Token(Eof, ""), n + 1)
  {
    ScanEof(source, pos);
    EofIsSticky(source, Scan(source, pos).1);
  }

  /** Every token but EOF is the verbatim, whitespace-free slice of the
      source between the first non-blank position and the new cursor. */
  lemma ScanTextIsSlice(source: string, pos: int)
    requires 0 <= pos
    ensures var p := SkipFrom(source, pos);
            var (t, n) := Scan(source, pos);
            t.kind != Eof ==>
              p < n <= |source| && t.text == source[p..n] &&
              forall i :: p <= i < n ==> !IsWhitespace(source[i])
  {
    var p := SkipFrom(source, pos);
    var (t, n) := Scan(source, pos);
    if t.kind != Eof {
      if n == p + 2 {
        assert source[p..n] == [source[p], source[p + 1]];
      } else {
        assert source[p..n] == [source[p]];
      }
    }
  }

  /** Fixed-text tokens carry exactly the text of their tag. */
  lemma ScanTextMatchesTag(source: string, pos: int)
    requires 0 <= pos
    ensures var t := Scan(source, pos).0;
            t.kind != Eof && t.kind != Illegal ==> t.text == Tag(t.kind)
  {
    SingleKindMatchesTag(CharAt(source, SkipFrom(source, pos)));
  }

  // ---------------------------------------------------------------------
  // Runs covered by gatherCharacters and gatherDigits

  datatype RunClass = Alnum | Digits

  predicate InRun(cls: RunClass, c: char)
  {
    match cls
    case Alnum => IsAlnum(c)
    case Digits => IsDigit(c)
  }

  /** The last position of the run that starts at `pos` and extends while the
      next character is in the class: the cursor a gather helper leaves. */
  function RunEnd(source: string, pos: int, cls: RunClass): (e: int)
    requires 0 <= pos < |source|
    ensures pos <= e < |source|
    ensures forall i :: pos < i <= e ==> InRun(cls, source[i])
    ensures !InRun(cls, CharAt(source, e + 1))
    decreases |source| - pos
  {
    if InRun(cls, CharAt(source, pos + 1)) then RunEnd(source, pos + 1, cls) else pos
  }

  /** A run is the longest one: every class character after its start lies in
      it, up to the first character outside the class. */
  lemma RunEndIsLongest(source: string, pos: int, cls: RunClass, e: int)
    requires 0 <= pos <= e < |source|
    requires forall i :: pos < i <= e ==> InRun(cls, source[i])
    ensures e <= RunEnd(source, pos, cls)
  {
  }

  /** A digit run never reaches past the alphanumeric run from the same start,
      since every digit is alphanumeric: `gatherDigits` covers a prefix of what
      `gatherCharacters` would cover from the same cursor. */
  lemma DigitRunWithinAlnumRun(source: string, pos: int)
    requires 0 <= pos < |source|
    ensures RunEnd(source, pos, Digits) <= RunEnd(source, pos, Alnum)
  {
    var e := RunEnd(source, pos, Digits);
    RunEndIsLongest(source, pos, Alnum, e);
  }

  // ---------------------------------------------------------------------
  // The token stream

  /** The tokens a caller obtains by calling the lexer from `pos` until EOF. */
  function Tokenize(source: string, pos: int): (ts: seq<Token>)
    requires 0 <= pos
    ensures |ts| >= 1 && ts[|ts| - 1] == Token(Eof, "")
    ensures forall i :: 0 <= i < |ts| - 1 ==> ts[i].kind != Eof
    decreases |source| - pos
  {
    var (t, n) := Scan(source, pos);
    if t.kind == Eof then [t] else [t] + Tokenize(source, n)
  }

  /** One step of the stream: after the tokens `done` already collected, the
      next call's token extends them towards `whole`, and the rest of `whole`
      is the stream from where that call left the cursor, unless it was EOF. */
  lemma TokenizeStep(source: string, pos: int, done: seq<Token>, whole: seq<Token>)
    requires 0 <= pos && done + Tokenize(source, pos) == whole
    ensures var (t, n) := Scan(source, pos);
            if t.kind == Eof then done + [t] == whole
            else (done + [t]) + Tokenize(source, n) == whole
  {
    var (t, n) := Scan(source, pos);
    if t.kind != Eof {
      assert Tokenize(source, pos) == [t] + Tokenize(source, n);
      assert done + ([t] + Tokenize(source, n)) == (done + [t]) + Tokenize(source, n);
    }
  }

  function Texts(ts: seq<Token>): string
  {
    if ts == [] then "" else ts[0].text + Texts(ts[1..])
  }

  /** `s` with every whitespace character removed. */
  function Strip(s: string): string
  {
    if s == [] then "" else (if IsWhitespace(s[0]) then "" else [s[0]]) + Strip(s[1..])
  }

  lemma StripAt(source: string, i: int)
    requires 0 <= i < |source|
    ensures Strip(source[i..]) ==
            (if IsWhitespace(source[i]) then "" else [source[i]]) + Strip(source[i + 1..])
  {
    assert source[i..][1..] == source[i + 1..];
  }

  lemma {:induction false} StripSkipped(source: string, pos: int, p: int)
    requires 0 <= pos <= p <= |source|
    requires forall i :: pos <= i < p ==> IsWhitespace(source[i])
    ensures Strip(source[pos..]) == Strip(source[p..])
    decreases p - pos
  {
    if pos < p {
      StripAt(source, pos);
      StripSkipped(source, pos + 1, p);
    }
  }

  lemma TextsCons(t: Token, rest: seq<Token>)
    ensures Texts([t] + rest) == t.text + Texts(rest)
  {
    assert ([t] + rest)[1..] == rest;
  }

  lemma {:induction false} StripSolid(source: string, p: int, n: int)
    requires 0 <= p <= n <= |source|
    requires forall i :: p <= i < n ==> !IsWhitespace(source[i])
    ensures Strip(source[p..]) == source[p..n] + Strip(source[n..])
    decreases n - p
  {
    if p < n {
      StripAt(source, p);
      StripSolid(source, p + 1, n);
      assert source[p..n] == [source[p]] + source[p + 1..n];
    }
  }

  /** What one call consumes, stripped of whitespace, is its token's text. */
  lemma StripOneToken(source: string, pos: int)
    requires ValidSource(source) && 0 <= pos <= |source|
    ensures var (t, n) := Scan(source, pos);
            if t.kind == Eof then Strip(source[pos..]) == ""
            else Strip(source[pos..]) == t.text + Strip(source[n..])
  {
    var p := SkipFrom(source, pos);
    var r := Scan(source, pos);
    StripSkipped(source, pos, p);
    ScanEof(source, pos);
    ScanTextIsSlice(source, pos);
    if r.0.kind == Eof {
      assert source[p..] == [];
    } else {
      StripSolid(source, p, r.1);
    }
  }

  /** The texts of all tokens, in order, are the source with its whitespace
      removed: no character is lost, duplicated or reordered. */
  lemma {:induction false} TokenizeRoundTrip(source: string, pos: int)
    requires ValidSource(source) && 0 <= pos <= |source|
    ensures Texts(Tokenize(source, pos)) == Strip(source[pos..])
    decreases |source| - pos
  {
    var (t, n) := Scan(source, pos);
    StripOneToken(source, pos);
    if t.kind == Eof {
      TextsCons(t, []);
    } else {
      TextsCons(t, Tokenize(source, n));
      TokenizeRoundTrip(source, n);
    }
  }

  /** Operator disambiguation: `==` is one token, `= ` is an assignment. */
  lemma ExampleOperators()
    ensures Tokenize("==", 0) == [Token(Eq, "=="), Token(Eof, "")]
    ensures Tokenize("= ", 0) == [Token(Assign, "="), Token(Eof, "")]
  {
  }

  /** An illegal character is reported and scanning goes on; letters are
      illegal characters because this version of `nextToken` has no
      identifier branch. */
  lemma ExampleIllegal()
    ensures Tokenize("@+", 0) == [Token(Illegal, "@"), Token(Plus, "+"), Token(Eof, "")]
    ensures Tokenize("!=x", 0) == [Token(NotEq, "!="), Token(Illegal, "x"), Token(Eof, "")]
  {
    assert SkipFrom("@+", 0) == 0;
    assert Scan("@+", 0) == (Token(Illegal, "@"), 1);
    assert SkipFrom("@+", 1) == 1;
    assert Scan("@+", 1) == (Token(Plus, "+"), 2);
    assert Scan("@+", 2) == (Token(Eof, ""), 3);
    assert SkipFrom("!=x", 0) == 0;
    assert Scan("!=x", 0) == (Token(NotEq, "!="), 2);
    assert SkipFrom("!=x", 2) == 2;
    assert Scan("!=x", 2) == (Token(Illegal, "x"), 3);
    assert Scan("!=x", 3) == (Token(Eof, ""), 4);
  }
}
