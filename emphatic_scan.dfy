/** The small recursive-descent scanners of the concept translator: types,
    parameter lists, identifier lists and template headers.

    Every scanner that loops is given twice: a specification function that
    returns the value and the cursor the scanner leaves behind (or the error
    it reports), and a method with the source's loop, proved equal to it. */
module EmphaticScan {
  import opened Wrappers
  import opened EmphaticErrors
  import opened EmphaticTokens
  import opened EmphaticCode

  /** One parameter of a concept function: its type text and its optional
      name ("" when the parameter is unnamed). */
  datatype ParamInfo = ParamInfo(typeName: string, identifier: string)

  /** The cursor after an optional token spelled `lexeme`. */
  function SkipLexeme(toks: seq<Token>, pos: nat, lexeme: string): (r: nat)
    requires pos <= |toks| && lexeme != ""
    ensures r == pos || r == pos + 1
    ensures r == pos + 1 <==> pos < |toks| && toks[pos].lexeme == lexeme
  {
    if AsLexeme(toks, pos) == lexeme then pos + 1 else pos
  }

  /** Template arguments start at `pos` (just past the `<`): they run to the
      first unmatched closer with angle brackets counted, which must be `>`. */
  function TemplateArgsEnd(toks: seq<Token>, pos: nat): (r: Parse<nat>)
    requires pos <= |toks|
    ensures r.Ok? ==> pos < r.value <= |toks| && AsChar(toks, r.value - 1) == '>'
    ensures r.Err? ==> r.error.kind == TemplateArgsNotClosed
  {
    var e := CodeEnd(toks, pos, 0, true, false);
    if AsChar(toks, e) == '>' then Ok(e + 1)
    else Fail(e, TemplateArgsNotClosed)
  }

  /** One segment of a type name: an optional `typename`, an optional
      `template`, an identifier and optional template arguments. */
  function SegmentEnd(toks: seq<Token>, pos: nat): (r: Parse<nat>)
    requires pos <= |toks|
    ensures r.Ok? ==> pos < r.value <= |toks|
  {
    var p1 := SkipLexeme(toks, pos, "typename");
    var p2 := SkipLexeme(toks, p1, "template");
    if !IsID(toks, p2) then
      Fail(p2, ExpectingType(AsLexeme(toks, p2)))
    else if AsLexeme(toks, p2 + 1) == "<" then TemplateArgsEnd(toks, p2 + 2)
    else Ok(p2 + 1)
  }

  /** The `::`-separated segments of a type name; returns the cursor after
      the last one. */
  function SegmentsEnd(toks: seq<Token>, pos: nat): (r: Parse<nat>)
    requires pos <= |toks|
    ensures r.Ok? ==> pos < r.value <= |toks|
    decreases |toks| - pos
  {
    var p :- SegmentEnd(toks, pos);
    if AsLexeme(toks, p) == "::" then SegmentsEnd(toks, p + 1) else Ok(p)
  }

  /** Unfolds `SegmentsEnd` once past a segment that was read successfully. */
  lemma SegmentsStep(toks: seq<Token>, pos: nat, segEnd: nat)
    requires pos <= |toks| && SegmentEnd(toks, pos) == Ok(segEnd)
    ensures segEnd <= |toks|
    ensures SegmentsEnd(toks, pos)
         == if AsLexeme(toks, segEnd) == "::" then SegmentsEnd(toks, segEnd + 1) else Ok(segEnd)
  {
  }

  /** A type: optional `const`, the segments, then an optional `&` and an
      optional `*`. The text is the consumed span. */
  function TypeSpec(toks: seq<Token>, pos: nat): (r: Parse<(string, nat)>)
    requires pos <= |toks|
    ensures r.Ok? ==> pos < r.value.1 <= |toks| && r.value.0 == JoinLexemes(toks, pos, r.value.1)
  {
    var p1 := SkipLexeme(toks, pos, "const");
    var p2 :- SegmentsEnd(toks, p1);
    var p3 := SkipLexeme(toks, p2, "&");
    var p4 := SkipLexeme(toks, p3, "*");
    Ok((JoinLexemes(toks, pos, p4), p4))
  }

  /** One pass of the `need_id` loop of the type scanner: reads one segment
      of the name. */
  method ProcessSegment(toks: seq<Token>, pos: nat) returns (r: Parse<nat>)
    requires pos <= |toks|
    ensures r == SegmentEnd(toks, pos)
  {
    var p := pos;
    p := SkipLexeme(toks, p, "typename");
    p := SkipLexeme(toks, p, "template");
    if !IsID(toks, p) {
      return Fail(p, ExpectingType(AsLexeme(toks, p)));
    }
    p := p + 1;
    if AsLexeme(toks, p) == "<" {
      var _, q := ProcessCode(toks, p + 1, true, false);
      if AsChar(toks, q) != '>' {
        return Fail(q, TemplateArgsNotClosed);
      }
      p := q + 1;
    }
    return Ok(p);
  }

  /** One pass of the `need_id` loop of the type scanner: a segment, then
      the `::` after it if there is one; `more` says another segment must
      follow. */
  method ProcessSegmentStep(toks: seq<Token>, pos: nat) returns (r: Parse<nat>, more: bool)
    requires pos <= |toks|
    ensures more ==> r.Ok?
    ensures r.Ok? ==> pos < r.value <= |toks|
    ensures SegmentsEnd(toks, pos) == if more then SegmentsEnd(toks, r.value) else r
  {
    var seg := ProcessSegment(toks, pos);
    if seg.Err? {
      return seg.PropagateFailure(), false;
    }
    SegmentsStep(toks, pos, seg.value);
    if AsLexeme(toks, seg.value) == "::" {
      return Ok(seg.value + 1), true;
    }
    return Ok(seg.value), false;
  }

  /** The `need_id` loop of the type scanner: reads segments while each is
      followed by `::`. */
  method ProcessSegments(toks: seq<Token>, pos: nat) returns (r: Parse<nat>)
    requires pos <= |toks|
    ensures r == SegmentsEnd(toks, pos)
  {
    var p := pos;
    var more := true;
    r := Ok(pos);
    while more
      invariant p <= |toks|
      invariant SegmentsEnd(toks, pos) == if more then SegmentsEnd(toks, p) else r
      decreases |toks| - p, more
    {
      r, more := ProcessSegmentStep(toks, p);
      if more {
        p := r.value;
      }
    }
  }

  /** Scans a type: an optional `const`, the segments, an optional `&` and an
      optional `*`; the text is the span consumed. */
  method ProcessType(toks: seq<Token>, pos: nat) returns (r: Parse<(string, nat)>)
    requires pos <= |toks|
    ensures r == TypeSpec(toks, pos)
  {
    var p := SkipLexeme(toks, pos, "const");
    var segs := ProcessSegments(toks, p);
    if segs.Err? {
      return segs.PropagateFailure();
    }
    p := SkipLexeme(toks, segs.value, "&");
    p := SkipLexeme(toks, p, "*");
    var text := ConcatLexemes(toks, pos, p);
    return Ok((text, p));
  }

  /** A parameter after its separating comma: a type and an optional name.
      Returns the parameter and the cursor after it. */
  function ParamBody(toks: seq<Token>, pos: nat): (r: Parse<(ParamInfo, nat)>)
    requires pos <= |toks|
    ensures r.Ok? ==> pos < r.value.1 <= |toks|
  {
    var tp :- TypeSpec(toks, pos);
    if IsID(toks, tp.1) then Ok((ParamInfo(tp.0, toks[tp.1].lexeme), tp.1 + 1))
    else Ok((ParamInfo(tp.0, ""), tp.1))
  }

  /** One parameter at `pos`: a `,` unless it is the first, then the
      parameter itself. */
  function ParamEnd(toks: seq<Token>, pos: nat, first: bool): (r: Parse<(ParamInfo, nat)>)
    requires pos <= |toks|
    ensures r.Ok? ==> pos < r.value.1 <= |toks|
  {
    if first then ParamBody(toks, pos)
    else if AsChar(toks, pos) == ',' then ParamBody(toks, pos + 1)
    else Fail(pos, ParamsNeedCommas)
  }

  /** The parameter list from `pos` to the `)` that closes it; `acc` holds
      the parameters already read. */
  function ParamsLoop(toks: seq<Token>, pos: nat, acc: seq<ParamInfo>): (r: Parse<(seq<ParamInfo>, nat)>)
    requires pos <= |toks|
    ensures r.Ok? ==> pos <= r.value.1 < |toks| && AsChar(toks, r.value.1) == ')'
    ensures r.Ok? ==> acc <= r.value.0
    decreases |toks| - pos
  {
    if AsChar(toks, pos) == ')' then Ok((acc, pos))
    else
      var pe :- ParamEnd(toks, pos, |acc| == 0);
      ParamsLoop(toks, pe.1, acc + [pe.0])
  }

  /** Scans one parameter's type and optional name. */
  method ProcessParamBody(toks: seq<Token>, pos: nat) returns (r: Parse<(ParamInfo, nat)>)
    requires pos <= |toks|
    ensures r == ParamBody(toks, pos)
  {
    var tr := ProcessType(toks, pos);
    if tr.Err? {
      return tr.PropagateFailure();
    }
    var p := tr.value.1;
    var identifier := "";
    if IsID(toks, p) {
      identifier := toks[p].lexeme;
      p := p + 1;
    }
    return Ok((ParamInfo(tr.value.0, identifier), p));
  }

  /** One pass of the parameter loop: the separating comma, the type and the
      optional name. */
  method ProcessParam(toks: seq<Token>, pos: nat, first: bool) returns (r: Parse<(ParamInfo, nat)>)
    requires pos <= |toks|
    ensures r == ParamEnd(toks, pos, first)
  {
    var p := pos;
    if !first {
      if AsChar(toks, p) != ',' {
        return Fail(p, ParamsNeedCommas);
      }
      p := p + 1;
    }
    r := ProcessParamBody(toks, p);
  }

  /** Reads the parameters of a function up to, and not including, its `)`. */
  method ProcessParams(toks: seq<Token>, pos: nat) returns (r: Parse<(seq<ParamInfo>, nat)>)
    requires pos <= |toks|
    ensures r == ParamsLoop(toks, pos, [])
  {
    var params: seq<ParamInfo> := [];
    var p := pos;
    while AsChar(toks, p) != ')'
      invariant p <= |toks|
      invariant ParamsLoop(toks, p, params) == ParamsLoop(toks, pos, [])
      decreases |toks| - p
    {
      var pr := ProcessParam(toks, p, |params| == 0);
      if pr.Err? {
        return pr.PropagateFailure();
      }
      params := params + [pr.value.0];
      p := pr.value.1;
    }
    return Ok((params, p));
  }

  /** The end of the run of identifiers starting at `pos`. */
  function IDListEnd(toks: seq<Token>, pos: nat): (end: nat)
    requires pos <= |toks|
    ensures pos <= end <= |toks| && !IsID(toks, end)
    ensures forall k :: pos <= k < end ==> IsID(toks, k)
    decreases |toks| - pos
  {
    if IsID(toks, pos) then IDListEnd(toks, pos + 1) else pos
  }

  /** The lexemes of tokens [lo, hi), as a set. */
  function LexemeSet(toks: seq<Token>, lo: nat, hi: nat): set<string>
    requires lo <= hi <= |toks|
  {
    set k | lo <= k < hi :: toks[k].lexeme
  }

  /** The identifier run is the longest one: the scan stops at the first
      position that is not an identifier. */
  lemma IDListEndIsFirstNonID(toks: seq<Token>, pos: nat, k: nat)
    requires pos <= k <= |toks| && !IsID(toks, k)
    requires forall j :: pos <= j < k ==> IsID(toks, j)
    ensures IDListEnd(toks, pos) == k
  {
  }

  /** Collects the set of identifiers in the run starting at `pos`. */
  method ProcessIDList(toks: seq<Token>, pos: nat) returns (ids: set<string>, newPos: nat)
    requires pos <= |toks|
    ensures newPos == IDListEnd(toks, pos)
    ensures ids == LexemeSet(toks, pos, newPos)
  {
    ids := {};
    newPos := pos;
    while IsID(toks, newPos)
      invariant pos <= newPos <= |toks|
      invariant IDListEnd(toks, newPos) == IDListEnd(toks, pos)
      invariant ids == LexemeSet(toks, pos, newPos)
      decreases |toks| - newPos
    {
      assert LexemeSet(toks, pos, newPos + 1) == LexemeSet(toks, pos, newPos) + {toks[newPos].lexeme};
      ids := ids + {AsLexeme(toks, newPos)};
      newPos := newPos + 1;
    }
  }

  /** An optional `template < >` header: absent, it yields "" and does not
      move; present, both angle brackets are required. */
  function ProcessTemplate(toks: seq<Token>, pos: nat): (r: Parse<(string, nat)>)
    requires pos <= |toks|
    ensures AsLexeme(toks, pos) != "template" ==> r == Ok(("", pos))
    ensures AsLexeme(toks, pos) == "template" ==>
      (r.Ok? <==> AsChar(toks, pos + 1) == '<' && AsChar(toks, pos + 2) == '>')
    ensures AsLexeme(toks, pos) == "template" && r.Ok? ==>
      r.value.1 == pos + 3 <= |toks| && r.value.0 == JoinLexemes(toks, pos, pos + 3)
    ensures r.Err? ==> r.error.pos == pos + 1 || r.error.pos == pos + 2
  {
    if AsLexeme(toks, pos) != "template" then Ok(("", pos))
    else if AsChar(toks, pos + 1) != '<' then Fail(pos + 1, TemplateNeedsOpen)
    else if AsChar(toks, pos + 2) != '>' then Fail(pos + 2, TemplateNeedsClose)
    else Ok((JoinLexemes(toks, pos, pos + 3), pos + 3))
  }
}
