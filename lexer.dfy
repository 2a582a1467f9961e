/** The scanner itself: a class holding the source text, an integer cursor
    and the character under it.  The cursor primitives state the new state
    directly; `SkipWhitespace`, `NextToken`, `GatherCharacters` and
    `GatherDigits` are proved against `SkipFrom`, `Scan` and `RunEnd` of
    module Scanner. */
module Lexer {
  import opened Tokens
  import opened Scanner

  class Lexer {
    /** The text being scanned; never changed after construction. */
    const source: string
    /** Index of the current character; -1 before the first advance. */
    var curPos: int
    /** The character at `curPos`, or NUL past the end. */
    var curChar: char

    /** The cursor has been advanced at least once and the cached character
        agrees with it, so NUL in `curChar` means exactly "past the end". */
    ghost predicate Valid()
      reads this
      ensures Valid() ==> (curChar == NUL <==> curPos >= |source|)
    {
      ValidSource(source) && 0 <= curPos && curChar == CharAt(source, curPos)
    }

    /** Takes the source and advances onto its first character. */
    constructor (source: string)
      requires ValidSource(source)
      ensures Valid()
      ensures this.source == source
      ensures curPos == 0
      ensures curChar == if |source| == 0 then NUL else source[0]
    {
      this.source := source;
      curPos := -1;
      curChar := NUL;
      new;
      NextChar();
    }

    /** Moves the cursor one position forward and refreshes the current
        character, which becomes NUL once the cursor passes the end. */
    method NextChar()
      requires -1 <= curPos
      modifies this
      ensures curPos == old(curPos) + 1
      ensures curPos < |source| ==> curChar == source[curPos]
      ensures curPos >= |source| ==> curChar == NUL
    {
      curPos := curPos + 1;
      if curPos >= |source| {
        curChar := NUL;
      } else {
        curChar := source[curPos];
      }
    }

    /** The character one past the cursor, or NUL when that is past the end;
        nothing is consumed. */
    function Peek(): (c: char)
      reads this
      requires -1 <= curPos
      ensures c == CharAt(source, curPos + 1)
      ensures ValidSource(source) ==> (c == NUL <==> curPos + 1 >= |source|)
    {
      if curPos + 1 >= |source| then NUL else source[curPos + 1]
    }

    /** Advances past spaces, tabs, newlines and carriage returns. */
    method SkipWhitespace()
      requires Valid()
      modifies this
      ensures Valid()
      ensures curPos == SkipFrom(source, old(curPos))
      ensures old(curPos) <= curPos
      ensures !IsWhitespace(curChar)
      ensures forall i :: old(curPos) <= i < curPos ==> i < |source| && IsWhitespace(source[i])
    {
      while curChar == ' ' || curChar == '\t' || curChar == '\n' || curChar == '\r'
        invariant Valid()
        invariant old(curPos) <= curPos
        invariant SkipFrom(source, curPos) == SkipFrom(source, old(curPos))
        decreases |source| - curPos
      {
        NextChar();
      }
    }

    /** Skips whitespace, scans one token and moves the cursor one past it.
        Characters that form no token come out as ILLEGAL; the end of input
        comes out as EOF on every call. */
    method NextToken() returns (token: Token)
      requires Valid()
      modifies this
      ensures Valid()
      ensures (token, curPos) == Scan(source, old(curPos))
      ensures old(curPos) < curPos
    {
      SkipWhitespace();
      if curChar == '+' {
        token := Token(Plus, "+");
      } else if curChar == '-' {
        token := Token(Minus, "-");
      } else if curChar == '*' {
        token := Token(Asterisk, "*");
      } else if curChar == '/' {
        token := Token(Slash, "/");
      } else if curChar == '<' {
        token := Token(Lt, "<");
      } else if curChar == '>' {
        token := Token(Gt, ">");
      } else if curChar == '=' {
        if Peek() == '=' {
          NextChar();
          token := Token(Eq, "==");
        } else {
          token := Token(Assign, "=");
        }
      } else if curChar == '!' {
        if Peek() == '=' {
          NextChar();
          token := Token(NotEq, "!=");
        } else {
          token := Token(Bang, "!");
        }
      } else if curChar == ',' {
        token := Token(Comma, ",");
      } else if curChar == ';' {
        token := Token(Semicolon, ";");
      } else if curChar == '(' {
        token := Token(LParen, "(");
      } else if curChar == ')' {
        token := Token(RParen, ")");
      } else if curChar == '{' {
        token := Token(LBrace, "{");
      } else if curChar == '}' {
        token := Token(RBrace, "}");
      } else if curChar == NUL {
        token := Token(Eof, "");
      } else {
        token := Token(Illegal, [curChar]);
      }
      NextChar();
    }

    /** Extends the cursor over the alphanumeric characters that follow it and
        returns the text from the starting character to the last one covered. */
    method GatherCharacters() returns (s: string)
      requires Valid() && curPos < |source|
      modifies this
      ensures Valid()
      ensures curPos == RunEnd(source, old(curPos), Alnum)
      ensures old(curPos) <= curPos < |source|
      ensures s == source[old(curPos)..curPos + 1] && |s| >= 1
      ensures forall i :: old(curPos) < i <= curPos ==> IsAlnum(source[i])
      ensures !IsAlnum(CharAt(source, curPos + 1))
    {
      var startPosition := curPos;
      while IsAlnum(Peek())
        invariant Valid()
        invariant startPosition <= curPos < |source|
        invariant RunEnd(source, curPos, Alnum) == RunEnd(source, startPosition, Alnum)
        decreases |source| - curPos
      {
        NextChar();
      }
      s := source[startPosition..curPos + 1];
    }

    /** Extends the cursor over the digits that follow it and returns the text
        from the starting character to the last one covered. */
    method GatherDigits() returns (s: string)
      requires Valid() && curPos < |source|
      modifies this
      ensures Valid()
      ensures curPos == RunEnd(source, old(curPos), Digits)
      ensures old(curPos) <= curPos < |source|
      ensures s == source[old(curPos)..curPos + 1] && |s| >= 1
      ensures forall i :: old(curPos) < i <= curPos ==> IsDigit(source[i])
      ensures !IsDigit(CharAt(source, curPos + 1))
    {
      var startPosition := curPos;
      while IsDigit(Peek())
        invariant Valid()
        invariant startPosition <= curPos < |source|
        invariant RunEnd(source, curPos, Digits) == RunEnd(source, startPosition, Digits)
        decreases |source| - curPos
      {
        NextChar();
      }
      s := source[startPosition..curPos + 1];
    }
  }

  /** A client that drives the lexer the way a parser does, calling
      `NextToken` until it returns EOF: what it collects is `Tokenize`. */
  method ScanAll(source: string) returns (tokens: seq<Token>)
    requires ValidSource(source)
    ensures tokens == Tokenize(source, 0)
  {
    var lexer := new Lexer(source);
    tokens := [];
    var done := false;
    while !done
      invariant lexer.Valid() && lexer.source == source
      invariant !done ==> lexer.curPos <= |source|
      invariant !done ==> tokens + Tokenize(source, lexer.curPos) == Tokenize(source, 0)
      invariant done ==> tokens == Tokenize(source, 0)
      decreases if done then 0 else |source| + 2 - lexer.curPos
    {
      TokenizeStep(source, lexer.curPos, tokens, Tokenize(source, 0));
      var token := lexer.NextToken();
      tokens := tokens + [token];
      done := token.kind == Eof;
    }
  }
}
