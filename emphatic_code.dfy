/** The bracket-aware code scanner of the concept translator (ProcessCode). */
module EmphaticCode {
  import opened EmphaticTokens

  predicate IsOpener(c: char, matchAngle: bool) {
    c == '(' || c == '[' || c == '{' || (matchAngle && c == '<')
  }

  predicate IsCloser(c: char, matchAngle: bool) {
    c == ')' || c == ']' || c == '}' || (matchAngle && c == '>')
  }

  /** Where a code scan that starts at `pos` with `depth` brackets open stops:
      right after a `;` (unless multi-line), at an unmatched closer (left
      unconsumed), or at the end of input. Closers pop whatever is open. */
  function CodeEnd(toks: seq<Token>, pos: nat, depth: nat, matchAngle: bool, multiLine: bool): (end: nat)
    requires pos <= |toks|
    ensures pos <= end <= |toks|
    decreases |toks| - pos
  {
    if pos == |toks| then pos
    else
      var c := AsChar(toks, pos);
      if c == ';' && !multiLine then pos + 1
      else if IsOpener(c, matchAngle) then CodeEnd(toks, pos + 1, depth + 1, matchAngle, multiLine)
      else if IsCloser(c, matchAngle) then
        if depth > 0 then CodeEnd(toks, pos + 1, depth - 1, matchAngle, multiLine) else pos
      else CodeEnd(toks, pos + 1, depth, matchAngle, multiLine)
  }

  /** Net change in bracket depth caused by one character. */
  function Delta(c: char, matchAngle: bool): int {
    if IsOpener(c, matchAngle) then 1 else if IsCloser(c, matchAngle) then -1 else 0
  }

  /** Openers minus closers over the tokens [lo, hi). */
  function Balance(toks: seq<Token>, lo: nat, hi: nat, matchAngle: bool): int
    requires lo <= hi <= |toks|
    decreases hi - lo
  {
    if lo == hi then 0 else Delta(AsChar(toks, lo), matchAngle) + Balance(toks, lo + 1, hi, matchAngle)
  }

  /** A position where a scan with `depth` brackets open before `pos` stops
      without consuming the token: an unmatched closer. */
  predicate UnmatchedCloser(toks: seq<Token>, pos: nat, k: nat, depth: nat, matchAngle: bool)
    requires pos <= k <= |toks|
  {
    IsCloser(AsChar(toks, k), matchAngle) && depth + Balance(toks, pos, k, matchAngle) == 0
  }

  /** CodeEnd is the FIRST stopping point: before it no prefix closes more
      brackets than were open, no unmatched closer occurs, and (single-line)
      no `;` occurs except as the last consumed token; at it the scan meets
      the end of input, has just consumed a `;`, or faces an unmatched closer. */
  lemma {:induction false} CodeEndIsFirstStop(toks: seq<Token>, pos: nat, depth: nat, matchAngle: bool, multiLine: bool)
    requires pos <= |toks|
    ensures var e := CodeEnd(toks, pos, depth, matchAngle, multiLine);
      && (forall k :: pos <= k < e ==> depth + Balance(toks, pos, k, matchAngle) >= 0)
      && (forall k :: pos <= k < e ==> !UnmatchedCloser(toks, pos, k, depth, matchAngle))
      && (forall k :: pos <= k < e - 1 ==> !multiLine ==> AsChar(toks, k) != ';')
      && (e == |toks|
          || (!multiLine && pos < e && AsChar(toks, e - 1) == ';')
          || UnmatchedCloser(toks, pos, e, depth, matchAngle))
    decreases |toks| - pos
  {
    var e := CodeEnd(toks, pos, depth, matchAngle, multiLine);
    if pos == |toks| {
    } else {
      var c := AsChar(toks, pos);
      if c == ';' && !multiLine {
      } else if IsCloser(c, matchAngle) && depth == 0 && !IsOpener(c, matchAngle) {
      } else {
        var d' := depth + Delta(c, matchAngle);
        assert d' >= 0;
        assert e == CodeEnd(toks, pos + 1, d', matchAngle, multiLine);
        CodeEndIsFirstStop(toks, pos + 1, d', matchAngle, multiLine);
        forall k | pos + 1 <= k <= e
          ensures depth + Balance(toks, pos, k, matchAngle) == d' + Balance(toks, pos + 1, k, matchAngle)
        {
        }
        forall k | pos <= k < e
          ensures depth + Balance(toks, pos, k, matchAngle) >= 0
          ensures !UnmatchedCloser(toks, pos, k, depth, matchAngle)
        {
          if k > pos {
            assert !UnmatchedCloser(toks, pos + 1, k, d', matchAngle);
          }
        }
        if e < |toks| && !(!multiLine && pos < e && AsChar(toks, e - 1) == ';') {
          assert UnmatchedCloser(toks, pos + 1, e, d', matchAngle);
        }
      }
    }
  }

  /** Single-line scans stop right after the first `;` they reach, whatever
      the bracket depth, and that `;` is part of the consumed span. */
  lemma SemicolonEndsSingleLine(toks: seq<Token>, pos: nat, k: nat, matchAngle: bool)
    requires pos <= k < |toks| && AsChar(toks, k) == ';'
    requires forall j :: pos <= j < k ==> AsChar(toks, j) != ';'
    requires forall j :: pos <= j < k ==> !UnmatchedCloser(toks, pos, j, 0, matchAngle)
    ensures CodeEnd(toks, pos, 0, matchAngle, false) == k + 1
  {
    CodeEndIsFirstStop(toks, pos, 0, matchAngle, false);
  }

  /** Multi-line scans never stop at a `;`: they end at the end of input or
      in front of an unmatched closer. */
  lemma MultiLineIgnoresSemicolons(toks: seq<Token>, pos: nat, matchAngle: bool)
    requires pos <= |toks|
    ensures var e := CodeEnd(toks, pos, 0, matchAngle, true);
      e == |toks| || UnmatchedCloser(toks, pos, e, 0, matchAngle)
  {
    CodeEndIsFirstStop(toks, pos, 0, matchAngle, true);
  }

  /** Tokens [lo, hi) are nested properly: no prefix closes more brackets
      than it opens, and the whole span is balanced. */
  predicate BalancedSpan(toks: seq<Token>, lo: nat, hi: nat, matchAngle: bool)
    requires lo <= hi <= |toks|
  {
    && (forall j :: lo <= j <= hi ==> Balance(toks, lo, j, matchAngle) >= 0)
    && Balance(toks, lo, hi, matchAngle) == 0
  }

  /** A properly nested span that holds no `;` (single-line) is consumed
      entirely when a closer follows it: the scan stops exactly at that
      closer. */
  lemma BalancedSpanStopsAtCloser(toks: seq<Token>, pos: nat, k: nat, matchAngle: bool, multiLine: bool)
    requires pos <= k < |toks| && IsCloser(AsChar(toks, k), matchAngle)
    requires BalancedSpan(toks, pos, k, matchAngle)
    requires !multiLine ==> forall j :: pos <= j < k ==> AsChar(toks, j) != ';'
    ensures CodeEnd(toks, pos, 0, matchAngle, multiLine) == k
  {
    CodeEndIsFirstStop(toks, pos, 0, matchAngle, multiLine);
    assert UnmatchedCloser(toks, pos, k, 0, matchAngle);
    forall j | pos <= j < k
      ensures !UnmatchedCloser(toks, pos, j, 0, matchAngle)
    {
      BalanceSnoc(toks, pos, j, matchAngle);
    }
  }

  /** Extending a span by one token adds that token's delta. */
  lemma {:induction false} BalanceSnoc(toks: seq<Token>, lo: nat, hi: nat, matchAngle: bool)
    requires lo <= hi < |toks|
    ensures Balance(toks, lo, hi + 1, matchAngle) == Balance(toks, lo, hi, matchAngle) + Delta(AsChar(toks, hi), matchAngle)
    decreases hi - lo
  {
    if lo < hi {
      BalanceSnoc(toks, lo + 1, hi, matchAngle);
    }
  }

  /** Scans one unit of code from `pos` and returns its text and the new cursor.
      The open brackets are kept on a stack, as the source does. */
  method ProcessCode(toks: seq<Token>, pos: nat, matchAngle: bool, multiLine: bool)
    returns (text: string, newPos: nat)
    requires pos <= |toks|
    ensures newPos == CodeEnd(toks, pos, 0, matchAngle, multiLine)
    ensures text == JoinLexemes(toks, pos, newPos)
  {
    var start := pos;
    var openSymbols: seq<char> := [];
    var finished := false;
    newPos := pos;
    while !finished && newPos < |toks|
      invariant start <= newPos <= |toks|
      invariant forall i :: 0 <= i < |openSymbols| ==> IsOpener(openSymbols[i], matchAngle)
      invariant !finished ==> CodeEnd(toks, newPos, |openSymbols|, matchAngle, multiLine)
                              == CodeEnd(toks, start, 0, matchAngle, multiLine)
      invariant finished ==> newPos == CodeEnd(toks, start, 0, matchAngle, multiLine)
      decreases if finished then 0 else 1, |toks| - newPos
    {
      var curChar := AsChar(toks, newPos);
      newPos := newPos + 1;
      if curChar == ';' {
        if !multiLine { finished := true; }
      } else if IsOpener(curChar, matchAngle) {
        openSymbols := openSymbols + [curChar];
      } else if IsCloser(curChar, matchAngle) {
        if |openSymbols| > 0 {
          // Pops whatever opener is on top, without checking that it matches.
          openSymbols := openSymbols[..|openSymbols| - 1];
        } else {
          newPos := newPos - 1;
          finished := true;
        }
      }
    }
    text := ConcatLexemes(toks, start, newPos);
  }
}
