/** The token sequence the concept translator walks, and its position helpers.
    The lexer itself is external: its output is given as a sequence of classified tokens. */
module EmphaticTokens {

  /** Token categories the lexer reports (whitespace and comments are already dropped). */
  datatype TokenKind = Identifier | Number | StringLit | Preprocessor | Symbol

  datatype Token = Token(kind: TokenKind, lexeme: string)

  /** The character the helpers return when there is no symbol at a position. */
  const NUL: char := '\0'

  predicate HasToken(toks: seq<Token>, pos: int) {
    0 <= pos < |toks|
  }

  predicate IsID(toks: seq<Token>, pos: int) {
    HasToken(toks, pos) && toks[pos].kind == Identifier
  }

  predicate IsNumber(toks: seq<Token>, pos: int) {
    HasToken(toks, pos) && toks[pos].kind == Number
  }

  predicate IsString(toks: seq<Token>, pos: int) {
    HasToken(toks, pos) && toks[pos].kind == StringLit
  }

  predicate IsPP(toks: seq<Token>, pos: int) {
    HasToken(toks, pos) && toks[pos].kind == Preprocessor
  }

  /** First character of a symbol token; NUL anywhere else (an empty lexeme
      also reads as NUL, as indexing a C++ string at its size does). */
  function AsChar(toks: seq<Token>, pos: int): (c: char)
    ensures c != NUL ==> HasToken(toks, pos) && toks[pos].kind == Symbol
    ensures c != NUL ==> |toks[pos].lexeme| > 0 && c == toks[pos].lexeme[0]
  {
    if HasToken(toks, pos) && toks[pos].kind == Symbol && |toks[pos].lexeme| > 0
    then toks[pos].lexeme[0]
    else NUL
  }

  function AsLexeme(toks: seq<Token>, pos: int): (s: string)
    ensures HasToken(toks, pos) ==> s == toks[pos].lexeme
    ensures !HasToken(toks, pos) ==> s == ""
  {
    if HasToken(toks, pos) then toks[pos].lexeme else ""
  }

  /** All helpers are total: every position, in range or not, has an answer,
      and out of range there is no token, no identifier and no symbol. */
  lemma HelpersTotal(toks: seq<Token>, pos: int)
    requires pos < 0 || pos >= |toks|
    ensures !HasToken(toks, pos) && !IsID(toks, pos) && !IsNumber(toks, pos)
    ensures !IsString(toks, pos) && !IsPP(toks, pos)
    ensures AsChar(toks, pos) == NUL && AsLexeme(toks, pos) == ""
  {
  }

  /** The lexemes of tokens [start, end) joined by single spaces. */
  function JoinLexemes(toks: seq<Token>, start: nat, end: nat): string
    requires start <= end <= |toks|
    decreases end - start
  {
    if end == start then ""
    else if end == start + 1 then toks[start].lexeme
    else JoinLexemes(toks, start, end - 1) + " " + toks[end - 1].lexeme
  }

  /** Joining two adjacent non-empty spans puts exactly one space between them. */
  lemma {:induction false} JoinSplit(toks: seq<Token>, start: nat, mid: nat, end: nat)
    requires start < mid < end <= |toks|
    ensures JoinLexemes(toks, start, end)
         == JoinLexemes(toks, start, mid) + " " + JoinLexemes(toks, mid, end)
    decreases end - mid
  {
    if end == mid + 1 {
    } else {
      JoinSplit(toks, start, mid, end - 1);
    }
  }

  /** The joined text holds every character of every lexeme plus one
      separating space between each two neighbouring tokens. */
  lemma {:induction false} JoinLength(toks: seq<Token>, start: nat, end: nat)
    requires start < end <= |toks|
    ensures |JoinLexemes(toks, start, end)| == LexemeChars(toks, start, end) + (end - start - 1)
    decreases end - start
  {
    if end > start + 1 {
      JoinLength(toks, start, end - 1);
    }
  }

  /** Total number of characters in the lexemes of [start, end). */
  function LexemeChars(toks: seq<Token>, start: nat, end: nat): nat
    requires start <= end <= |toks|
    decreases end - start
  {
    if end == start then 0 else LexemeChars(toks, start, end - 1) + |toks[end - 1].lexeme|
  }

  /** Rebuilds the source text of a token span, as the source's string-stream loop does. */
  method ConcatLexemes(toks: seq<Token>, start: nat, end: nat) returns (text: string)
    requires start <= end <= |toks|
    ensures text == JoinLexemes(toks, start, end)
  {
    text := "";
    var i := start;
    while i < end
      invariant start <= i <= end
      invariant text == JoinLexemes(toks, start, i)
    {
      if i > start {
        text := text + " ";
      }
      text := text + toks[i].lexeme;
      i := i + 1;
    }
  }
}
