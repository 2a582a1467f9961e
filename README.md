# Lexer model

A Dafny model of the character scanner in `lib/lexer/lexer.cpp`. The scanner
holds the source text, an integer cursor `curPos` and the character under it,
`curChar`. NUL (`'\0'`) stands for "past the end". Each call of `nextToken`:

- skips whitespace (space, tab, newline, carriage return);
- makes one token from the current character. `=`/`==` and `!`/`!=` are
  decided by one character of lookahead;
- advances the cursor one position past that token.

Two run helpers, `gatherCharacters` and `gatherDigits`, extend the cursor
over an alphanumeric run or a digit run and return the text it covered.

The project has three modules:

- `Tokens` (tokens.dfy): token kinds as a datatype in place of the source's
  string tags, the tag table `Tag`, and the ASCII character classes.
- `Scanner` (scan.dfy): a pure reference definition. `Scan` is what one
  `nextToken` call returns and where it leaves the cursor. `RunEnd` is where a
  gather helper stops. `Tokenize` is the token stream a caller obtains by
  calling `nextToken` until EOF. The module also holds the lemmas stating what
  the lexer promises.
- `Lexer` (lexer.dfy): class `Lexer` with the same fields and methods as the
  C++ class. `source` is a `const`, so no method can change it.
  - The constructor, `NextChar` and `Peek` state the new cursor, the current
    character or the looked-ahead character directly over `source`.
  - `SkipWhitespace`, `NextToken`, `GatherCharacters` and `GatherDigits` tie
    their result and new cursor to `SkipFrom`, `Scan` and `RunEnd`.
  - `ScanAll` is a client written in the model, not part of the C++ file. It
    calls `NextToken` until EOF, the way a parser would. It is proved to
    collect exactly `Tokenize(source, 0)`, so `TokenizeRoundTrip` holds of
    the class.

Two points about what `nextToken` in this file does, which the model follows:

- `nextToken` has no identifier, keyword or integer branch, and it never
  calls the gather helpers. Letters and digits come out as one-character
  ILLEGAL tokens (`Scanner.ScanIllegal`, `Scanner.ExampleIllegal`).
- At the end of input every EOF call still advances `curPos` by one
  (`Scanner.EofIsSticky`).

## Model

| member | source | states |
|---|---|---|
| Tokens.Tag | lib/lexer/lexer.cpp:7-28 | the tag of every operator and delimiter kind is its one- or two-character lexeme; the EOF and ILLEGAL tags are longer words |
| Tokens.SingleKind | lib/lexer/lexer.cpp:68-145 | a character has a one-character kind exactly when it is one of `+ - * / < > = ! , ; ( ) { }`, and that kind's tag is the character |
| Tokens.IsWhitespace | lib/lexer/lexer.cpp:192 | whitespace (space, tab, newline, carriage return) is never the NUL sentinel, so the skip loop stops at the end of input |
| Tokens.IsDigit | lib/lexer/lexer.cpp:216 | a digit is an ASCII character and never the NUL sentinel |
| Tokens.IsAlnum | lib/lexer/lexer.cpp:203 | an alphanumeric character is ASCII and never NUL, and every digit is alphanumeric |
| Tokens.TagInjective | lib/lexer/lexer.cpp:7-28 | no two token kinds share a tag string, so the datatype distinguishes exactly what the tags did |
| Tokens.SingleKindMatchesTag | lib/lexer/lexer.cpp:7-24 | a character forms a one-character token of kind k exactly when k's tag is that character |
| Tokens.CharAt | lib/lexer/lexer.cpp:168-175 | on a valid source the character read is NUL exactly when the index is outside the text |
| Scanner.SkipFrom | lib/lexer/lexer.cpp:190-196 | the position reached by skipping is not before the start, every character passed over is whitespace inside the text, and the character reached is not whitespace |
| Scanner.Scan | lib/lexer/lexer.cpp:59-161 | every call moves the cursor forward, and a token other than EOF ends within the text |
| Scanner.ScanSkipsWhitespace | lib/lexer/lexer.cpp:65 | a whitespace character under the cursor does not change the token or the final cursor |
| Scanner.ScanTwoCharOperators | lib/lexer/lexer.cpp:93-119 | `=` or `!` followed by `=` gives EQ "==" or NOT_EQ "!=" with the cursor two past the operator, otherwise ASSIGN "=" or BANG "!" with the cursor one past |
| Scanner.ScanSingleCharTokens | lib/lexer/lexer.cpp:68-91 | each of `+ - * / < > , ; ( ) { }` gives the kind whose tag is that character, with that character as text, and the cursor one past it |
| Scanner.ScanIllegal | lib/lexer/lexer.cpp:152-157 | any other non-NUL character, letters and digits included, gives ILLEGAL holding that one character, with the cursor one past it |
| Scanner.ScanEof | lib/lexer/lexer.cpp:146-149 | on a valid source the token is EOF exactly when skipping reaches the end; EOF has empty text and still advances the cursor by one |
| Scanner.EofIsSticky | lib/lexer/lexer.cpp:168-171 | with the cursor at or past the end every call returns EOF with empty text and increments the cursor |
| Scanner.EofThenEof | lib/lexer/lexer.cpp:146-159 | after a call has returned EOF, the next call returns EOF again |
| Scanner.ScanTextIsSlice | lib/lexer/lexer.cpp:93-157 | a token other than EOF has as text the verbatim, whitespace-free slice of the source between the first non-blank position and the new cursor |
| Scanner.ScanTextMatchesTag | lib/lexer/lexer.cpp:68-145 | every token other than EOF and ILLEGAL carries exactly its tag as text |
| Scanner.RunEnd | lib/lexer/lexer.cpp:203-206 | a run stays inside the text, every character after its start is in the class, and the next character, if any, is not |
| Scanner.RunEndIsLongest | lib/lexer/lexer.cpp:199-209 | the run is the longest one: any stretch of class characters after the start lies inside it |
| Scanner.DigitRunWithinAlnumRun | lib/lexer/lexer.cpp:199-222 | from the same start, the digit run never reaches past the alphanumeric run |
| Scanner.Tokenize | lib/lexer/lexer.cpp:59-161 | calling the lexer until EOF yields a stream ending in exactly one EOF token with empty text |
| Scanner.StripOneToken | lib/lexer/lexer.cpp:59-161 | what one call consumes, with its whitespace removed, is exactly its token's text; at EOF only whitespace remained |
| Scanner.TokenizeRoundTrip | lib/lexer/lexer.cpp:59-161 | concatenating the texts of all tokens gives back the source with its whitespace removed |
| Scanner.ExampleOperators | lib/lexer/lexer.cpp:93-105 | `==` lexes to EQ then EOF; `= ` lexes to ASSIGN then EOF |
| Scanner.ExampleIllegal | lib/lexer/lexer.cpp:107-157 | `@+` lexes to ILLEGAL "@", PLUS, EOF; `!=x` lexes to NOT_EQ, ILLEGAL "x", EOF |
| Lexer.Lexer.Valid | lib/lexer/lexer.cpp:45-47 | in a valid lexer the cached character is NUL exactly when the cursor is at or past the end |
| Lexer.Lexer.constructor | lib/lexer/lexer.cpp:46-56 | after construction the cursor is 0 and the current character is the first one, or NUL for an empty source |
| Lexer.Lexer.NextChar | lib/lexer/lexer.cpp:164-176 | the cursor grows by exactly one, and the current character is the one at the cursor, or NUL past the end |
| Lexer.Lexer.Peek | lib/lexer/lexer.cpp:179-187 | returns the character one past the cursor, or NUL exactly when that is past the end; reads the fields and changes nothing |
| Lexer.Lexer.SkipWhitespace | lib/lexer/lexer.cpp:190-196 | the cursor moves to `SkipFrom` of its old value: it only grows, every character passed is whitespace, and the new current character is not |
| Lexer.Lexer.NextToken | lib/lexer/lexer.cpp:59-161 | the returned token and the new cursor are `Scan` of the old cursor, and the cursor strictly grows |
| Lexer.Lexer.GatherCharacters | lib/lexer/lexer.cpp:199-209 | the cursor stops on the last character of the alphanumeric run (`RunEnd`), the text returned is the source from the start to that character, of length at least 1, and the next character is not alphanumeric |
| Lexer.Lexer.GatherDigits | lib/lexer/lexer.cpp:212-222 | the cursor stops on the last character of the digit run (`RunEnd`), the text returned is the source from the start to that character, of length at least 1, and the next character is not a digit |
| Lexer.ScanAll | lib/lexer/lexer.cpp:53-161 | constructing a lexer and calling `NextToken` until EOF collects exactly `Tokenize(source, 0)` |

## Left out

- Include guards and the header-level `std::string` tag constants (lines 1-30 and 225). They carry no behaviour and are replaced by the `TokenKind` datatype. `Tag` keeps their values.
- The default and two-argument `Token` constructors (lines 38-39). A token is the datatype value `Token(kind, text)`.
- An embedded NUL in the source. The C++ code reads it as an EOF token and then keeps scanning. The constructor requires `ValidSource`, which rules it out.
- Non-ASCII characters, and the locale and signed-`char` behaviour of C `isalnum`/`isdigit`. The model uses ASCII range predicates, and `ValidSource` restricts the source to ASCII.
- The `int`/`size_t` mixed comparisons at lines 168 and 181, and overflow of `int curPos`. The cursor is a mathematical integer.
- Lexer.Lexer.GatherCharacters: requires `curPos < |source|`, so it leaves out two behaviours. With the cursor past the end, C++ `substr` throws out of range. With the cursor exactly at the end, `peek()` gives NUL, the loop does not run, and `substr(|source|, 1)` returns the empty string; the model excludes this case too. The property "the result has length at least 1" holds only for a cursor inside the text.
- Lexer.Lexer.GatherDigits: requires `curPos < |source|`, and leaves out the same two cases as `GatherCharacters`: the throw past the end, and the empty result at the end.
- Before the constructor's first advance, C++ leaves `curChar` uninitialised. The model sets it to NUL for that instant, and no caller can observe it.
- Lexer.Lexer.NextChar: requires `curPos >= -1`. The C++ cursor starts at -1 and only grows, so every call in the source meets it.
- A keyword table, and identifier and integer branches of `nextToken`. This version of the code does not contain them.
