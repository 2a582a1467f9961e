/** Token kinds, tokens and the ASCII character classes the lexer uses.
    The source tags kinds with string constants; here they are a closed
    datatype, and `Tag` gives back the string each constant held. */
module Tokens {

  datatype Option<T> = None | Some(value: T)

  /** The eighteen kinds of token this version of the lexer produces. */
  datatype TokenKind =
    | Plus | Minus | Asterisk | Slash | Lt | Gt
    | Assign | Bang | Eq | NotEq
    | Comma | Semicolon | LParen | RParen | LBrace | RBrace
    | Eof | Illegal

  /** A token: its kind and the literal text it was scanned from. */
  datatype Token = Token(kind: TokenKind, text: string)

  /** The string constant the source uses as the tag of each kind. */
  function Tag(k: TokenKind): (s: string)
    ensures k != Eof && k != Illegal ==> 1 <= |s| <= 2
    ensures k == Eof || k == Illegal ==> |s| > 2
  {
    match k
    case Plus => "+"
    case Minus => "-"
    case Asterisk => "*"
    case Slash => "/"
    case Lt => "<"
    case Gt => ">"
    case Assign => "="
    case Bang => "!"
    case Eq => "=="
    case NotEq => "!="
    case Comma => ","
    case Semicolon => ";"
    case LParen => "("
    case RParen => ")"
    case LBrace => "{"
    case RBrace => "}"
    case Eof => "EOF"
    case Illegal => "ILLEGAL"
  }

  /** No two kinds share a tag, so the datatype loses nothing the strings told apart. */
  lemma TagInjective(j: TokenKind, k: TokenKind)
    ensures Tag(j) == Tag(k) ==> j == k
  {
  }

  /** The end-of-input sentinel the cursor reports past the last character. */
  const NUL: char := '\0'

  /** The four characters the whitespace loop passes over; never the sentinel. */
  predicate IsWhitespace(c: char)
    ensures IsWhitespace(c) ==> c != NUL
  {
    c == ' ' || c == '\t' || c == '\n' || c == '\r'
  }

  /** `isdigit` restricted to ASCII. */
  predicate IsDigit(c: char)
    ensures IsDigit(c) ==> c != NUL && c as int < 128
  {
    '0' <= c <= '9'
  }

  /** `isalnum` restricted to ASCII: a letter or a digit. */
  predicate IsAlnum(c: char)
    ensures IsAlnum(c) ==> c != NUL && c as int < 128
    ensures IsDigit(c) ==> IsAlnum(c)
  {
    IsDigit(c) || 'a' <= c <= 'z' || 'A' <= c <= 'Z'
  }

  /** Inputs the model accepts: ASCII text without an embedded sentinel. */
  predicate ValidSource(s: string)
  {
    forall i :: 0 <= i < |s| ==> s[i] != NUL && s[i] as int < 128
  }

  /** The character at index `i`, or the sentinel when `i` is outside `s`. */
  function CharAt(s: string, i: int): (c: char)
    ensures ValidSource(s) ==> (c == NUL <==> !(0 <= i < |s|))
  {
    if 0 <= i < |s| then s[i] else NUL
  }

  /** The kind a character has when it forms a token on its own. */
  function SingleKind(c: char): (r: Option<TokenKind>)
    ensures r.Some? <==> c in {'+', '-', '*', '/', '<', '>', '=', '!', ',', ';', '(', ')', '{', '}'}
    ensures r.Some? ==> Tag(r.value) == [c] && r.value != Eof && r.value != Illegal
  {
    match c
    case '+' => Some(Plus)
    case '-' => Some(Minus)
    case '*' => Some(Asterisk)
    case '/' => Some(Slash)
    case '<' => Some(Lt)
    case '>' => Some(Gt)
    case '=' => Some(Assign)
    case '!' => Some(Bang)
    case ',' => Some(Comma)
    case ';' => Some(Semicolon)
    case '(' => Some(LParen)
    case ')' => Some(RParen)
    case '{' => Some(LBrace)
    case '}' => Some(RBrace)
    case _ => None
  }

  /** A character has a single-character kind exactly when its tag is that
      character, which ties the kind table to the source's tag constants. */
  lemma SingleKindMatchesTag(c: char)
    ensures SingleKind(c).Some? ==> Tag(SingleKind(c).value) == [c]
    ensures forall k :: Tag(k) == [c] ==> SingleKind(c) == Some(k)
  {
  }
}
