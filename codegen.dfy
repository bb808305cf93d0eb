/** The earlier draft of the concept translator: a reader that accepts only
    `concept` statements and checks a concept's header. The lexer is
    external; its output is given as tokens tagged with the numeric kind the
    lexer assigned, together with the four kinds the reader asks about. */
module CodeGenDraft {

  datatype GenToken = GenToken(kind: int, lexeme: string)

  /** The kind numbers the lexer handed out for identifiers, numbers,
      strings and single symbols. */
  datatype KindIds = KindIds(id: int, number: int, str: int, other: int)

  /** The lexer gives every token rule its own kind number. */
  predicate DistinctKinds(k: KindIds) {
    k.id != k.number && k.id != k.str && k.id != k.other
    && k.number != k.str && k.number != k.other && k.str != k.other
  }

  /** How a run of the reader ends: it returns a position, the process exits
      with a message, or it loops forever. */
  datatype Outcome = Returned(pos: nat) | Aborted(message: string) | Diverges

  const NUL: char := '\0'

  predicate HasToken(toks: seq<GenToken>, pos: int) {
    0 <= pos < |toks|
  }

  predicate IsID(toks: seq<GenToken>, ids: KindIds, pos: int) {
    HasToken(toks, pos) && toks[pos].kind == ids.id
  }

  predicate IsNumber(toks: seq<GenToken>, ids: KindIds, pos: int) {
    HasToken(toks, pos) && toks[pos].kind == ids.number
  }

  predicate IsString(toks: seq<GenToken>, ids: KindIds, pos: int) {
    HasToken(toks, pos) && toks[pos].kind == ids.str
  }

  /** The first character of a symbol token, NUL anywhere else (an empty
      lexeme also reads as NUL, as indexing a C++ string at its size does). */
  function AsChar(toks: seq<GenToken>, ids: KindIds, pos: int): (c: char)
    ensures c != NUL ==> HasToken(toks, pos) && toks[pos].kind == ids.other
    ensures c != NUL ==> |toks[pos].lexeme| > 0 && c == toks[pos].lexeme[0]
  {
    if HasToken(toks, pos) && toks[pos].kind == ids.other && |toks[pos].lexeme| > 0
    then toks[pos].lexeme[0]
    else NUL
  }

  /** Out of range there is no token of any kind and no symbol. */
  lemma HelpersTotal(toks: seq<GenToken>, ids: KindIds, pos: int)
    requires pos < 0 || pos >= |toks|
    ensures !HasToken(toks, pos) && !IsID(toks, ids, pos)
    ensures !IsNumber(toks, ids, pos) && !IsString(toks, ids, pos)
    ensures AsChar(toks, ids, pos) == NUL
  {
  }

  /** A symbol is never an identifier when the lexer's kinds are distinct. */
  lemma SymbolIsNotID(toks: seq<GenToken>, ids: KindIds, pos: int)
    requires DistinctKinds(ids) && AsChar(toks, ids, pos) != NUL
    ensures !IsID(toks, ids, pos) && !IsNumber(toks, ids, pos) && !IsString(toks, ids, pos)
  {
  }

  /** Reporting an error ends the process; the position argument plays no part. */
  function Error(msg: string, pos: int): (o: Outcome)
    ensures o.Aborted? && o.message == msg
  {
    Aborted(msg)
  }

  lemma ErrorIgnoresPosition(msg: string, p: int, q: int)
    ensures Error(msg, p) == Error(msg, q) && !Error(msg, p).Returned?
  {
  }

  const MsgNeedsStatementID := "Statements in outer scope must begi with an identifier or keyword."
  const MsgNeedsName := "Concept declaration must be followed by name identifier."
  const MsgNeedsColon := "Concept names must be followed by a colon (':')."
  const MsgNeedsBase := "Concept declaration must include name of base class."
  const MsgNeedsBrace := "Concepts must be defined in braces ('{' and '}')."

  function UnknownKeyword(keyword: string): string {
    "Unknown keyword '" + keyword + "'."
  }

  /** What reading a concept from just past `concept` does: the outcome and
      the name and base name it leaves in the concept node. */
  datatype ConceptRun = ConceptRun(outcome: Outcome, name: string, baseName: string)

  /** The concept reader. The header is `name : base {`; the definition loop
      that follows has an empty body, so it returns at once when the next
      token is another `{` and never ends otherwise. */
  function ConceptSpec(toks: seq<GenToken>, ids: KindIds, pos: nat, name0: string, base0: string): (r: ConceptRun)
    ensures r.outcome.Returned? ==> r.outcome.pos == pos + 4 < |toks|
  {
    if !IsID(toks, ids, pos) then ConceptRun(Error(MsgNeedsName, pos), name0, base0)
    else
      var name := toks[pos].lexeme;
      if AsChar(toks, ids, pos + 1) != ':' then ConceptRun(Error(MsgNeedsColon, pos + 1), name, base0)
      else if !IsID(toks, ids, pos + 2) then ConceptRun(Error(MsgNeedsBase, pos + 2), name, base0)
      else
        var base := toks[pos + 2].lexeme;
        if AsChar(toks, ids, pos + 3) != '{' then ConceptRun(Error(MsgNeedsBrace, pos + 3), name, base)
        else if AsChar(toks, ids, pos + 4) != '{' then ConceptRun(Diverges, name, base)
        else ConceptRun(Returned(pos + 4), name, base)
  }

  /** The header checks come in order and the first missing piece aborts;
      the name and the base name are set as soon as they are read. */
  lemma ConceptHeader(toks: seq<GenToken>, ids: KindIds, pos: nat, name0: string, base0: string)
    ensures var r := ConceptSpec(toks, ids, pos, name0, base0);
      && (!IsID(toks, ids, pos) ==> r == ConceptRun(Aborted(MsgNeedsName), name0, base0))
      && (IsID(toks, ids, pos) ==> r.name == toks[pos].lexeme)
      && (IsID(toks, ids, pos) && AsChar(toks, ids, pos + 1) != ':' ==> r.outcome == Aborted(MsgNeedsColon))
      && (IsID(toks, ids, pos) && AsChar(toks, ids, pos + 1) == ':' && !IsID(toks, ids, pos + 2) ==>
            r.outcome == Aborted(MsgNeedsBase) && r.baseName == base0)
      && (IsID(toks, ids, pos) && AsChar(toks, ids, pos + 1) == ':' && IsID(toks, ids, pos + 2) ==>
            r.baseName == toks[pos + 2].lexeme)
      && (&& IsID(toks, ids, pos) && AsChar(toks, ids, pos + 1) == ':' && IsID(toks, ids, pos + 2)
          && AsChar(toks, ids, pos + 3) != '{'
          ==> r.outcome == Aborted(MsgNeedsBrace))
  {
  }

  /** The definition loop never moves the cursor: the reader returns only
      with the cursor on a second `{` right after the header, and it runs
      forever exactly when the header is complete but that `{` is missing. */
  lemma ConceptLoopNeverAdvances(toks: seq<GenToken>, ids: KindIds, pos: nat, name0: string, base0: string)
    ensures var r := ConceptSpec(toks, ids, pos, name0, base0);
      var header := IsID(toks, ids, pos) && AsChar(toks, ids, pos + 1) == ':'
                    && IsID(toks, ids, pos + 2) && AsChar(toks, ids, pos + 3) == '{';
      && (r.outcome.Returned? <==> header && AsChar(toks, ids, pos + 4) == '{')
      && (r.outcome.Returned? ==> AsChar(toks, ids, r.outcome.pos) == '{')
      && (r.outcome.Diverges? <==> header && AsChar(toks, ids, pos + 4) != '{')
  {
  }

  /** What the outer-scope reader does from a position: its outcome and the
      name and base name of each concept node it appends, in order. */
  datatype TopRun = TopRun(outcome: Outcome, concepts: seq<(string, string)>)

  function TopSpec(toks: seq<GenToken>, ids: KindIds, pos: nat): (r: TopRun)
    decreases |toks| - pos
  {
    if pos >= |toks| then TopRun(Returned(pos), [])
    else if toks[pos].kind != ids.id then TopRun(Error(MsgNeedsStatementID, pos), [])
    else if toks[pos].lexeme == "concept" then
      var c := ConceptSpec(toks, ids, pos + 1, "", "");
      if c.outcome.Returned? then
        var rest := TopSpec(toks, ids, c.outcome.pos);
        TopRun(rest.outcome, [(c.name, c.baseName)] + rest.concepts)
      else TopRun(c.outcome, [(c.name, c.baseName)])
    else TopRun(Aborted(UnknownKeyword(toks[pos].lexeme)), [])
  }

  /** Only `concept` is accepted: any other keyword, or a statement that
      does not start with an identifier, aborts before anything is added. */
  lemma TopOnlyConcepts(toks: seq<GenToken>, ids: KindIds, pos: nat)
    requires pos < |toks|
    ensures var r := TopSpec(toks, ids, pos);
      && (!IsID(toks, ids, pos) ==> r == TopRun(Aborted(MsgNeedsStatementID), []))
      && (IsID(toks, ids, pos) && toks[pos].lexeme != "concept" ==>
            r == TopRun(Aborted(UnknownKeyword(toks[pos].lexeme)), []))
      && (IsID(toks, ids, pos) && toks[pos].lexeme == "concept" ==>
            var c := ConceptSpec(toks, ids, pos + 1, "", "");
            |r.concepts| >= 1 && r.concepts[0] == (c.name, c.baseName))
  {
  }

  /** Since a concept leaves the cursor on a `{`, which is no identifier,
      the outer-scope reader returns only when there is nothing left to
      read: on any remaining input it aborts or loops forever. */
  lemma TopReturnsOnlyAtEnd(toks: seq<GenToken>, ids: KindIds, pos: nat)
    requires DistinctKinds(ids)
    ensures var r := TopSpec(toks, ids, pos);
      (r.outcome.Returned? <==> pos >= |toks|) && |r.concepts| <= 1
  {
    if pos < |toks| && toks[pos].kind == ids.id && toks[pos].lexeme == "concept" {
      var c := ConceptSpec(toks, ids, pos + 1, "", "");
      if c.outcome.Returned? {
        var p := c.outcome.pos;
        ConceptLoopNeverAdvances(toks, ids, pos + 1, "", "");
        SymbolIsNotID(toks, ids, p);
        assert TopSpec(toks, ids, p) == TopRun(Aborted(MsgNeedsStatementID), []);
      }
    }
  }

  /** A node of the syntax tree. This draft only ever builds the root and
      concept nodes; a concept's name and base name live on the node. */
  class AstNode {
    var children: seq<AstNode>
    var name: string
    var baseName: string

    constructor()
      ensures children == [] && name == "" && baseName == ""
    {
      children := [];
      name := "";
      baseName := "";
    }

    /** Appends a child; earlier children stay where they were. */
    method AddChild(node: AstNode)
      modifies this
      ensures children == old(children) + [node]
      ensures name == old(name) && baseName == old(baseName)
    {
      children := children + [node];
    }
  }

  /** Each node carries the name and base name listed at its position. */
  predicate NamedAs(nodes: seq<AstNode>, names: seq<(string, string)>)
    reads set n | n in nodes
  {
    |nodes| == |names|
    && forall i :: 0 <= i < |nodes| ==> nodes[i].name == names[i].0 && nodes[i].baseName == names[i].1
  }

  class CodeGen {
    const tokens: seq<GenToken>
    const ids: KindIds
    const astRoot: AstNode

    constructor(tokens: seq<GenToken>, ids: KindIds)
      ensures this.tokens == tokens && this.ids == ids
      ensures fresh(astRoot) && astRoot.children == []
    {
      this.tokens := tokens;
      this.ids := ids;
      astRoot := new AstNode();
    }

    /** Reads a concept header into `concept`, field by field. */
    method ProcessConcept(pos: nat, concept: AstNode) returns (o: Outcome)
      modifies concept
      ensures var s := ConceptSpec(tokens, ids, pos, old(concept.name), old(concept.baseName));
        o == s.outcome && concept.name == s.name && concept.baseName == s.baseName
      ensures concept.children == old(concept.children)
    {
      var p := pos;
      if !IsID(tokens, ids, p) {
        return Error(MsgNeedsName, p);
      }
      concept.name := tokens[p].lexeme;
      p := p + 1;

      var nextCh := AsChar(tokens, ids, p);
      if nextCh != ':' {
        return Error(MsgNeedsColon, p);
      }
      p := p + 1;

      if !IsID(tokens, ids, p) {
        return Error(MsgNeedsBase, p);
      }
      concept.baseName := tokens[p].lexeme;
      p := p + 1;

      nextCh := AsChar(tokens, ids, p);
      if nextCh != '{' {
        return Error(MsgNeedsBrace, p);
      }
      p := p + 1;

      // The definition loop has an empty body: its test alone decides
      // whether it ever stops.
      if AsChar(tokens, ids, p) != '{' {
        return Diverges;
      }
      return Returned(p);
    }

    /** One `concept` statement: a fresh node is appended to the root and
        then filled in by the concept reader; the nodes appended before it
        keep their names. */
    method AddConcept(p: nat, ghost k: nat, ghost added: seq<(string, string)>)
        returns (o: Outcome, name: string, baseName: string)
      requires k <= |astRoot.children| && NamedAs(astRoot.children[k..], added)
      modifies astRoot
      ensures var c := ConceptSpec(tokens, ids, p + 1, "", "");
        o == c.outcome && name == c.name && baseName == c.baseName
      ensures |astRoot.children| == |old(astRoot.children)| + 1
      ensures astRoot.children[..|old(astRoot.children)|] == old(astRoot.children)
      ensures fresh(astRoot.children[|old(astRoot.children)|])
      ensures NamedAs(astRoot.children[k..], added + [(name, baseName)])
    {
      var node := new AstNode();
      astRoot.AddChild(node);
      o := ProcessConcept(p + 1, node);
      name, baseName := node.name, node.baseName;
    }

    /** One outer-scope statement at `p`: only `concept` is read, anything
        else aborts. */
    method ProcessStatement(p: nat, ghost k: nat, ghost added: seq<(string, string)>)
        returns (o: Outcome, ghost names: seq<(string, string)>)
      requires p < |tokens| && k <= |astRoot.children| && NamedAs(astRoot.children[k..], added)
      modifies astRoot
      ensures |astRoot.children| == |old(astRoot.children)| + |names|
      ensures astRoot.children[..|old(astRoot.children)|] == old(astRoot.children)
      ensures forall i | |old(astRoot.children)| <= i < |astRoot.children| :: fresh(astRoot.children[i])
      ensures NamedAs(astRoot.children[k..], added + names)
      ensures var s := TopSpec(tokens, ids, p);
        if o.Returned? then
          p < o.pos && s.outcome == TopSpec(tokens, ids, o.pos).outcome
          && s.concepts == names + TopSpec(tokens, ids, o.pos).concepts
        else s == TopRun(o, names)
    {
      if tokens[p].kind != ids.id {
        return Error(MsgNeedsStatementID, p), [];
      }
      if tokens[p].lexeme == "concept" {
        var name, baseName;
        o, name, baseName := AddConcept(p, k, added);
        names := [(name, baseName)];
      } else {
        return Aborted(UnknownKeyword(tokens[p].lexeme)), [];
      }
    }

    /** Reads outer-scope statements from `pos`, appending a fresh concept
        node to the root for each `concept` before reading it. */
    method ProcessTop(pos: nat) returns (o: Outcome)
      modifies astRoot
      ensures var s := TopSpec(tokens, ids, pos);
        && o == s.outcome
        && |old(astRoot.children)| <= |astRoot.children|
        && astRoot.children[..|old(astRoot.children)|] == old(astRoot.children)
        && NamedAs(astRoot.children[|old(astRoot.children)|..], s.concepts)
      ensures forall i | |old(astRoot.children)| <= i < |astRoot.children| :: fresh(astRoot.children[i])
    {
      var p := pos;
      ghost var k := |astRoot.children|;
      ghost var added: seq<(string, string)> := [];
      o := Returned(p);
      while o.Returned? && p < |tokens|
        invariant k <= |astRoot.children|
        invariant astRoot.children[..k] == old(astRoot.children)
        invariant NamedAs(astRoot.children[k..], added)
        invariant forall i | k <= i < |astRoot.children| :: fresh(astRoot.children[i])
        invariant o.Returned? ==> o.pos == p
        invariant o.Returned? ==> TopSpec(tokens, ids, pos).outcome == TopSpec(tokens, ids, p).outcome
        invariant o.Returned? ==> TopSpec(tokens, ids, pos).concepts == added + TopSpec(tokens, ids, p).concepts
        invariant !o.Returned? ==> TopSpec(tokens, ids, pos) == TopRun(o, added)
        decreases o.Returned?, |tokens| - p
      {
        ghost var before := astRoot.children;
        ghost var names;
        o, names := ProcessStatement(p, k, added);
        added := added + names;
        forall i | k <= i < |astRoot.children|
          ensures fresh(astRoot.children[i])
        {
          if i < |before| {
            assert astRoot.children[i] == before[i];
          }
        }
        if o.Returned? {
          p := o.pos;
        }
      }
    }
  }
}
