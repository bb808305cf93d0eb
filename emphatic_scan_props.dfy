/** Properties of the type and parameter scanners of the concept translator:
    when a type fails and where the failure is reported, what a type ends
    with, and the comma rule, the optional identifier and the order of the
    parameters of a parameter list. */
module EmphaticScanProps {
  import opened Wrappers
  import opened EmphaticErrors
  import opened EmphaticTokens
  import opened EmphaticCode
  import opened EmphaticScan

  /** A segment is an optional `typename`, an optional `template`, then an
      identifier, which is required; template arguments after `<` must be
      closed by `>` at the first unmatched closer. */
  lemma SegmentEndCases(toks: seq<Token>, pos: nat)
    requires pos <= |toks|
    ensures var p2 := SkipLexeme(toks, SkipLexeme(toks, pos, "typename"), "template");
      var r := SegmentEnd(toks, pos);
      && (!IsID(toks, p2) ==> r == Fail(p2, ExpectingType(AsLexeme(toks, p2))))
      && (IsID(toks, p2) && AsLexeme(toks, p2 + 1) != "<" ==> r == Ok(p2 + 1))
      && (IsID(toks, p2) && AsLexeme(toks, p2 + 1) == "<" ==>
            var e := CodeEnd(toks, p2 + 2, 0, true, false);
            && (r.Ok? <==> AsChar(toks, e) == '>')
            && (r.Ok? ==> r.value == e + 1)
            && (r.Err? ==> r == Fail(e, TemplateArgsNotClosed)))
  {
  }

  /** What a failed type name reports: a missing identifier, at the
      position of the token found there, or template arguments not closed
      by `>`, at the token found instead. */
  predicate TypeFailure(toks: seq<Token>, e: ParseError) {
    && (e.kind.ExpectingType? || e.kind == TemplateArgsNotClosed)
    && (e.kind.ExpectingType? ==> 0 <= e.pos && !IsID(toks, e.pos) && e.kind.found == AsLexeme(toks, e.pos))
    && (e.kind == TemplateArgsNotClosed ==> AsChar(toks, e.pos) != '>')
  }

  /** What a type name ends with: an identifier or the `>` of template
      arguments. */
  predicate EndsName(toks: seq<Token>, p: nat) {
    0 < p && (IsID(toks, p - 1) || AsChar(toks, p - 1) == '>')
  }

  lemma SegmentEndOutcome(toks: seq<Token>, pos: nat)
    requires pos <= |toks|
    ensures var r := SegmentEnd(toks, pos);
      (r.Err? ==> TypeFailure(toks, r.error)) && (r.Ok? ==> EndsName(toks, r.value))
  {
    SegmentEndCases(toks, pos);
  }

  /** A `::`-separated name fails only as one of its segments does, and on
      success ends with an identifier or a `>`. */
  lemma {:induction false} SegmentsEndOutcome(toks: seq<Token>, pos: nat)
    requires pos <= |toks|
    ensures var r := SegmentsEnd(toks, pos);
      (r.Err? ==> TypeFailure(toks, r.error)) && (r.Ok? ==> EndsName(toks, r.value))
    decreases |toks| - pos
  {
    SegmentEndOutcome(toks, pos);
    var s := SegmentEnd(toks, pos);
    if s.Ok? {
      SegmentsStep(toks, pos, s.value);
      if AsLexeme(toks, s.value) == "::" {
        SegmentsEndOutcome(toks, s.value + 1);
      }
    }
  }

  /** The type scanner fails only when an identifier is missing or template
      arguments are not closed, each reported where the source reports it. */
  lemma TypeSpecFailure(toks: seq<Token>, pos: nat)
    requires pos <= |toks|
    ensures var r := TypeSpec(toks, pos);
      r.Err? ==> TypeFailure(toks, r.error)
  {
    var p1 := SkipLexeme(toks, pos, "const");
    SegmentsEndOutcome(toks, p1);
    var s := SegmentsEnd(toks, p1);
    if s.Err? {
      assert TypeSpec(toks, pos) == Err(s.error);
    }
  }

  /** A type the scanner accepts ends with an identifier, a `>`, a `&` or
      a `*`. */
  lemma TypeSpecEnding(toks: seq<Token>, pos: nat)
    requires pos <= |toks|
    ensures var r := TypeSpec(toks, pos);
      r.Ok? ==> var k := r.value.1;
        IsID(toks, k - 1) || AsChar(toks, k - 1) == '>' || AsLexeme(toks, k - 1) in {"&", "*"}
  {
    var p1 := SkipLexeme(toks, pos, "const");
    SegmentsEndOutcome(toks, p1);
    var s := SegmentsEnd(toks, p1);
    if s.Ok? {
      SkipsKeepEnding(toks, s.value);
    }
  }

  /** The optional `&` and `*` after a name leave it ending with the name,
      the `&` or the `*`. */
  lemma SkipsKeepEnding(toks: seq<Token>, q: nat)
    requires q <= |toks| && EndsName(toks, q)
    ensures var k := SkipLexeme(toks, SkipLexeme(toks, q, "&"), "*");
      IsID(toks, k - 1) || AsChar(toks, k - 1) == '>' || AsLexeme(toks, k - 1) in {"&", "*"}
  {
  }

  /** A parameter is a type followed by an optional identifier: the
      identifier is taken when one follows the type, and is "" otherwise,
      with nothing more consumed. */
  lemma ParamBodyCases(toks: seq<Token>, pos: nat)
    requires pos <= |toks|
    ensures var r := ParamBody(toks, pos);
      var t := TypeSpec(toks, pos);
      && (t.Err? ==> r == Err(t.error))
      && (t.Ok? && IsID(toks, t.value.1) ==>
            r == Ok((ParamInfo(t.value.0, toks[t.value.1].lexeme), t.value.1 + 1)))
      && (t.Ok? && !IsID(toks, t.value.1) ==> r == Ok((ParamInfo(t.value.0, ""), t.value.1)))
  {
  }

  /** After the first parameter, anything other than `,` or `)` is reported
      as a missing comma, at that token. */
  lemma ParamsNeedComma(toks: seq<Token>, pos: nat, acc: seq<ParamInfo>)
    requires pos <= |toks| && |acc| > 0
    requires AsChar(toks, pos) != ')' && AsChar(toks, pos) != ','
    ensures ParamsLoop(toks, pos, acc) == Fail(pos, ParamsNeedCommas)
  {
  }

  /** Parameters are kept in source order: when the list goes on, the
      parameter read at `pos` is the next one after those already read. */
  lemma ParamsLoopOrder(toks: seq<Token>, pos: nat, acc: seq<ParamInfo>)
    requires pos <= |toks|
    ensures var r := ParamsLoop(toks, pos, acc);
      AsChar(toks, pos) != ')' && r.Ok? ==>
        var pe := ParamEnd(toks, pos, |acc| == 0);
        pe.Ok? && |acc| < |r.value.0| && r.value.0[|acc|] == pe.value.0
  {
    var r := ParamsLoop(toks, pos, acc);
    if AsChar(toks, pos) != ')' && r.Ok? {
      var pe := ParamEnd(toks, pos, |acc| == 0);
      assert acc + [pe.value.0] <= r.value.0;
      assert (acc + [pe.value.0])[|acc|] == pe.value.0;
    }
  }
}
