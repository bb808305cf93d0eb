/** The statement level of the concept translator: concept members, concept
    definitions and the outer-scope dispatcher, with the translator object
    that owns the syntax tree.

    As in the scanners, each step is a specification function returning the
    value it builds and the cursor it leaves behind (or the diagnostic the
    source aborts with), and a method with the source's control flow proved
    equal to it. */
module EmphaticParse {
  import opened Wrappers
  import opened EmphaticErrors
  import opened EmphaticTokens
  import opened EmphaticCode
  import opened EmphaticScan

  /** A member of a concept: typedef, function or variable. */
  datatype ElementInfo = ElementInfo(
    name: string,
    typeName: string,
    params: seq<ParamInfo>,
    attributes: set<string>,
    defaultCode: string,
    specialValue: string)

  const EmptyElement := ElementInfo("", "", [], {}, "", "")

  /** A member together with the list of the concept it is filed under. */
  datatype Member = Typedef(info: ElementInfo) | Function(info: ElementInfo) | Variable(info: ElementInfo)

  datatype ConceptInfo = ConceptInfo(
    name: string,
    baseName: string,
    typedefs: seq<ElementInfo>,
    functions: seq<ElementInfo>,
    variables: seq<ElementInfo>)

  /** A node of the outer scope. */
  datatype Node =
    | PP(code: string)
    | ClassNode(keyword: string, name: string, body: string)
    | Namespace(name: string, children: seq<Node>)
    | Using(name: string, typeCode: string)
    | Concept(info: ConceptInfo)

  /** Files a member at the end of its list; the other lists are untouched. */
  function AddMember(c: ConceptInfo, m: Member): (c': ConceptInfo)
    ensures c'.name == c.name && c'.baseName == c.baseName
    ensures c'.typedefs == if m.Typedef? then c.typedefs + [m.info] else c.typedefs
    ensures c'.functions == if m.Function? then c.functions + [m.info] else c.functions
    ensures c'.variables == if m.Variable? then c.variables + [m.info] else c.variables
  {
    match m
    case Typedef(e) => c.(typedefs := c.typedefs + [e])
    case Function(e) => c.(functions := c.functions + [e])
    case Variable(e) => c.(variables := c.variables + [e])
  }

  /** An optional name: the identifier at `pos` if there is one. */
  function OptionalName(toks: seq<Token>, pos: nat): (r: (string, nat))
    requires pos <= |toks|
    ensures IsID(toks, pos) ==> r == (toks[pos].lexeme, pos + 1)
    ensures !IsID(toks, pos) ==> r == ("", pos)
  {
    if IsID(toks, pos) then (toks[pos].lexeme, pos + 1) else ("", pos)
  }

  /** The tail of a function member after its attributes, at `pos`: either
      `= required ;` / `= default ;`, or a brace-delimited body. */
  function FunctionTail(toks: seq<Token>, pos: nat, element: ElementInfo): (r: Parse<(ElementInfo, nat)>)
    requires pos <= |toks|
    ensures r.Ok? ==> pos < r.value.1 <= |toks|
  {
    var funChar := AsChar(toks, pos);
    if funChar == '=' then
      if !IsID(toks, pos + 1) then Fail(pos + 1, AssignNeedsId)
      else
        var assign := toks[pos + 1].lexeme;
        if assign != "required" && assign != "default" then Fail(pos + 2, AssignNotSpecial)
        else if AsChar(toks, pos + 2) != ';' then Fail(pos + 2, AssignNeedsSemicolon(assign))
        else Ok((element.(specialValue := assign), pos + 3))
    else if funChar == '{' then
      var e := CodeEnd(toks, pos + 1, 0, false, true);
      if AsChar(toks, e) != '}' then Fail(e, BodyNeedsClose(AsLexeme(toks, e)))
      else Ok((element.(defaultCode := JoinLexemes(toks, pos + 1, e)), e + 1))
    else Fail(pos, BodyNeedsOpen)
  }

  /** A function member from just past its `(`: parameters, `)`, attribute
      identifiers, then the tail. The `)` is always there: the parameter
      list only ends in front of one. */
  function FunctionSpec(toks: seq<Token>, pos: nat, element: ElementInfo): (r: Parse<(ElementInfo, nat)>)
    requires pos <= |toks|
    ensures r.Ok? ==> pos < r.value.1 <= |toks|
  {
    var pr :- ParamsLoop(toks, pos, []);
    var q := pr.1 + 1;
    var a := IDListEnd(toks, q);
    FunctionTail(toks, a, element.(params := pr.0, attributes := LexemeSet(toks, q, a)))
  }

  /** `using name = code`, from just past `using`: the name is a type, the
      code a single-line scan (which keeps its `;`). */
  function UsingSpec(toks: seq<Token>, pos: nat): (r: Parse<(string, string, nat)>)
    requires pos <= |toks|
    ensures r.Ok? ==> pos < r.value.2 <= |toks|
  {
    if !IsID(toks, pos) then Fail(pos, UsingNeedsName)
    else
      var nm :- TypeSpec(toks, pos);
      if AsChar(toks, nm.1) != '=' then Fail(nm.1, UsingNeedsEquals)
      else
        var e := CodeEnd(toks, nm.1 + 1, 0, false, false);
        Ok((nm.0, JoinLexemes(toks, nm.1 + 1, e), e))
  }

  /** One concept member at `pos`: a `using`, or a type and a name followed
      by a function (`(`), an immediate `;`, or single-line default code. */
  function MemberSpec(toks: seq<Token>, pos: nat): (r: Parse<(Member, nat)>)
    requires pos <= |toks|
    ensures r.Ok? ==> pos < r.value.1 <= |toks|
  {
    if !IsID(toks, pos) then Fail(pos, MemberNeedsId)
    else if toks[pos].lexeme == "using" then
      var u :- UsingSpec(toks, pos + 1);
      Ok((Typedef(EmptyElement.(name := u.0, typeName := u.1)), u.2))
    else
      var tp :- TypeSpec(toks, pos);
      DeclarationSpec(toks, tp.1, tp.0)
  }

  /** A function or variable member after its type, at `pos`: a name, then
      a function (`(`), an immediate `;`, or single-line default code. */
  function DeclarationSpec(toks: seq<Token>, pos: nat, typeName: string): (r: Parse<(Member, nat)>)
    requires pos <= |toks|
    ensures r.Ok? ==> pos < r.value.1 <= |toks|
  {
    if !IsID(toks, pos) then Fail(pos, MemberNeedsName)
    else
      var element := EmptyElement.(name := toks[pos].lexeme, typeName := typeName);
      if AsChar(toks, pos + 1) == '(' then
        var f :- FunctionSpec(toks, pos + 2, element);
        Ok((Function(f.0), f.1))
      else if AsChar(toks, pos + 1) == ';' then Ok((Variable(element), pos + 2))
      else
        var e := CodeEnd(toks, pos + 1, 0, false, false);
        Ok((Variable(element.(defaultCode := JoinLexemes(toks, pos + 1, e))), e))
  }

  /** The members of a concept body from `pos` up to, not including, the
      `}` that ends it; each is appended to its list in source order. */
  function MembersLoop(toks: seq<Token>, pos: nat, c: ConceptInfo): (r: Parse<(ConceptInfo, nat)>)
    requires pos <= |toks|
    ensures r.Ok? ==> pos <= r.value.1 < |toks| && AsChar(toks, r.value.1) == '}'
    decreases |toks| - pos
  {
    if AsChar(toks, pos) == '}' then Ok((c, pos))
    else
      var m :- MemberSpec(toks, pos);
      MembersLoop(toks, m.1, AddMember(c, m.0))
  }

  /** The head of a concept definition from just past `concept`:
      `name : base {`. Yields the still empty concept. */
  function ConceptHead(toks: seq<Token>, pos: nat): (r: Parse<ConceptInfo>)
    requires pos <= |toks|
    ensures r.Ok? ==> pos + 4 <= |toks|
  {
    if !IsID(toks, pos) then Fail(pos, ConceptNeedsName)
    else if AsChar(toks, pos + 1) != ':' then Fail(pos + 1, ConceptNeedsColon)
    else if !IsID(toks, pos + 2) then Fail(pos + 2, ConceptNeedsBase)
    else if AsChar(toks, pos + 3) != '{' then Fail(pos + 3, ConceptNeedsOpen)
    else Ok(ConceptInfo(toks[pos].lexeme, toks[pos + 2].lexeme, [], [], []))
  }

  /** A concept definition from just past `concept`:
      `name : base { members } ;`. */
  function ConceptSpec(toks: seq<Token>, pos: nat): (r: Parse<(ConceptInfo, nat)>)
    requires pos <= |toks|
    ensures r.Ok? ==> pos < r.value.1 <= |toks|
  {
    var c :- ConceptHead(toks, pos);
    ConceptTail(toks, MembersLoop(toks, pos + 4, c))
  }

  /** The end of a concept once its member loop has run: the `;` that must
      follow the closing `}`. */
  function ConceptTail(toks: seq<Token>, body: Parse<(ConceptInfo, nat)>): (r: Parse<(ConceptInfo, nat)>)
    ensures r.Ok? ==> && body.Ok? && AsChar(toks, body.value.1 + 1) == ';'
                      && r.value == (body.value.0, body.value.1 + 2)
  {
    var b :- body;
    if AsChar(toks, b.1 + 1) != ';' then Fail(b.1 + 1, ConceptNeedsSemicolon)
    else Ok((b.0, b.1 + 2))
  }

  /** `struct`/`class`, from just past the keyword: an optional name, then
      `{ body } ;`; the body is a multi-line scan. */
  function ClassSpec(toks: seq<Token>, pos: nat, keyword: string): (r: Parse<(Node, nat)>)
    requires pos <= |toks|
    ensures r.Ok? ==> pos < r.value.1 <= |toks|
  {
    var (name, p) := OptionalName(toks, pos);
    if AsChar(toks, p) != '{' then Fail(p, BlockNeedsOpen(keyword))
    else
      var e := CodeEnd(toks, p + 1, 0, false, true);
      if AsChar(toks, e) != '}' then Fail(e, BlockNeedsClose(keyword))
      else if AsChar(toks, e + 1) != ';' then Fail(e + 1, ClassNeedsSemicolon(keyword))
      else Ok((ClassNode(keyword, name, JoinLexemes(toks, p + 1, e)), e + 2))
  }

  /** The statements of a scope from `pos`, appended to `scope`, up to the
      end of input or a `}` (which is left for the caller). */
  function TopLoop(toks: seq<Token>, pos: nat, scope: seq<Node>): (r: Parse<(seq<Node>, nat)>)
    requires pos <= |toks|
    ensures r.Ok? ==> pos <= r.value.1 <= |toks|
    decreases |toks| - pos, 1
  {
    if pos == |toks| || AsChar(toks, pos) == '}' then Ok((scope, pos))
    else
      var s :- Statement(toks, pos);
      TopLoop(toks, s.1, scope + [s.0])
  }

  /** One outer-scope statement at `pos`. */
  function Statement(toks: seq<Token>, pos: nat): (r: Parse<(Node, nat)>)
    requires pos < |toks|
    ensures r.Ok? ==> pos < r.value.1 <= |toks|
    decreases |toks| - pos, 0
  {
    if IsPP(toks, pos) then Ok((PP(toks[pos].lexeme + "\n"), pos + 1))
    else if !IsID(toks, pos) then Fail(pos, StatementNeedsId(AsLexeme(toks, pos)))
    else
      var keyword := toks[pos].lexeme;
      if keyword == "concept" then
        var c :- ConceptSpec(toks, pos + 1);
        Ok((Concept(c.0), c.1))
      else if keyword == "struct" || keyword == "class" then ClassSpec(toks, pos + 1, keyword)
      else if keyword == "namespace" then
        var (name, p) := OptionalName(toks, pos + 1);
        if AsChar(toks, p) != '{' then Fail(p, BlockNeedsOpen(keyword))
        else
          var inner :- TopLoop(toks, p + 1, []);
          if AsChar(toks, inner.1) != '}' then Fail(inner.1, BlockNeedsClose(keyword))
          else Ok((Namespace(name, inner.0), inner.1 + 1))
      else if keyword == "using" then
        var u :- UsingSpec(toks, pos + 1);
        Ok((Using(u.0, u.1), u.2))
      else Fail(pos, UnknownKeyword(keyword))
  }

  /** Reads a function tail, as the end of the function branch of the
      member loop does. */
  method ProcessFunctionTail(toks: seq<Token>, pos: nat, element: ElementInfo) returns (r: Parse<(ElementInfo, nat)>)
    requires pos <= |toks|
    ensures r == FunctionTail(toks, pos, element)
  {
    var p := pos;
    var funChar := AsChar(toks, p);
    p := p + 1;
    if funChar == '=' {
      if !IsID(toks, p) {
        return Fail(p, AssignNeedsId);
      }
      var assign := toks[p].lexeme;
      p := p + 1;
      if assign != "required" && assign != "default" {
        return Fail(p, AssignNotSpecial);
      }
      if AsChar(toks, p) != ';' {
        return Fail(p, AssignNeedsSemicolon(assign));
      }
      return Ok((element.(specialValue := assign), p + 1));
    } else if funChar == '{' {
      var code, e := ProcessCode(toks, p, false, true);
      if AsChar(toks, e) != '}' {
        return Fail(e, BodyNeedsClose(AsLexeme(toks, e)));
      }
      return Ok((element.(defaultCode := code), e + 1));
    } else {
      return Fail(p - 1, BodyNeedsOpen);
    }
  }

  /** Reads a function member from just past its `(`. */
  method ProcessFunction(toks: seq<Token>, pos: nat, element: ElementInfo) returns (r: Parse<(ElementInfo, nat)>)
    requires pos <= |toks|
    ensures r == FunctionSpec(toks, pos, element)
  {
    var params := ProcessParams(toks, pos);
    if params.Err? {
      return params.PropagateFailure();
    }
    var p := params.value.1 + 1;  // the `)`, which the parameter loop stopped at
    var attributes, q := ProcessIDList(toks, p);
    r := ProcessFunctionTail(toks, q, element.(params := params.value.0, attributes := attributes));
  }

  /** Reads `name = code` after `using`. */
  method ProcessUsing(toks: seq<Token>, pos: nat) returns (r: Parse<(string, string, nat)>)
    requires pos <= |toks|
    ensures r == UsingSpec(toks, pos)
  {
    if !IsID(toks, pos) {
      return Fail(pos, UsingNeedsName);
    }
    var name := ProcessType(toks, pos);
    if name.Err? {
      return name.PropagateFailure();
    }
    var p := name.value.1;
    if AsChar(toks, p) != '=' {
      return Fail(p, UsingNeedsEquals);
    }
    var code, e := ProcessCode(toks, p + 1, false, false);
    return Ok((name.value.0, code, e));
  }

  /** One pass of the member loop of the concept reader. */
  method ProcessMember(toks: seq<Token>, pos: nat) returns (r: Parse<(Member, nat)>)
    requires pos <= |toks|
    ensures r == MemberSpec(toks, pos)
  {
    if !IsID(toks, pos) {
      return Fail(pos, MemberNeedsId);
    }
    if toks[pos].lexeme == "using" {
      var u := ProcessUsing(toks, pos + 1);
      if u.Err? {
        return u.PropagateFailure();
      }
      return Ok((Typedef(EmptyElement.(name := u.value.0, typeName := u.value.1)), u.value.2));
    }
    var tr := ProcessType(toks, pos);
    if tr.Err? {
      return tr.PropagateFailure();
    }
    r := ProcessDeclaration(toks, tr.value.1, tr.value.0);
  }

  /** The rest of a function or variable member, after its type. */
  method ProcessDeclaration(toks: seq<Token>, pos: nat, typeName: string) returns (r: Parse<(Member, nat)>)
    requires pos <= |toks|
    ensures r == DeclarationSpec(toks, pos, typeName)
  {
    var p := pos;
    if !IsID(toks, p) {
      return Fail(p, MemberNeedsName);
    }
    var element := EmptyElement.(name := toks[p].lexeme, typeName := typeName);
    p := p + 1;
    if AsChar(toks, p) == '(' {
      var f := ProcessFunction(toks, p + 1, element);
      if f.Err? {
        return f.PropagateFailure();
      }
      return Ok((Function(f.value.0), f.value.1));
    }
    if AsChar(toks, p) == ';' {
      return Ok((Variable(element), p + 1));
    }
    var code, e := ProcessCode(toks, p, false, false);
    return Ok((Variable(element.(defaultCode := code)), e));
  }

  /** The member loop of the concept reader: members until a `}`. */
  method ProcessMembers(toks: seq<Token>, pos: nat, c: ConceptInfo) returns (r: Parse<(ConceptInfo, nat)>)
    requires pos <= |toks|
    ensures r == MembersLoop(toks, pos, c)
  {
    var concept := c;
    var p := pos;
    while AsChar(toks, p) != '}'
      invariant p <= |toks|
      invariant MembersLoop(toks, p, concept) == MembersLoop(toks, pos, c)
      decreases |toks| - p
    {
      var m := ProcessMember(toks, p);
      if m.Err? {
        return m.PropagateFailure();
      }
      concept := AddMember(concept, m.value.0);
      p := m.value.1;
    }
    return Ok((concept, p));
  }

  /** Reads the head of a concept definition from just past `concept`. */
  method ProcessConceptHead(toks: seq<Token>, pos: nat) returns (r: Parse<ConceptInfo>)
    requires pos <= |toks|
    ensures r == ConceptHead(toks, pos)
  {
    var p := pos;
    if !IsID(toks, p) {
      return Fail(p, ConceptNeedsName);
    }
    var name := toks[p].lexeme;
    p := p + 1;
    if AsChar(toks, p) != ':' {
      return Fail(p, ConceptNeedsColon);
    }
    p := p + 1;
    if !IsID(toks, p) {
      return Fail(p, ConceptNeedsBase);
    }
    var baseName := toks[p].lexeme;
    p := p + 1;
    if AsChar(toks, p) != '{' {
      return Fail(p, ConceptNeedsOpen);
    }
    return Ok(ConceptInfo(name, baseName, [], [], []));
  }

  /** Reads a concept definition from just past `concept`: the head, the
      member loop, then the closing `} ;`. */
  method ProcessConcept(toks: seq<Token>, pos: nat) returns (r: Parse<(ConceptInfo, nat)>)
    requires pos <= |toks|
    ensures r == ConceptSpec(toks, pos)
  {
    var head := ProcessConceptHead(toks, pos);
    if head.Err? {
      return head.PropagateFailure();
    }
    var body := ProcessMembers(toks, pos + 4, head.value);
    if body.Err? {
      return body.PropagateFailure();
    }
    var p := body.value.1 + 1;  // just past the closing brace
    if AsChar(toks, p) != ';' {
      return Fail(p, ConceptNeedsSemicolon);
    }
    return Ok((body.value.0, p + 1));
  }

  /** Reads a `struct` or `class` from just past its keyword. */
  method ProcessClass(toks: seq<Token>, pos: nat, keyword: string) returns (r: Parse<(Node, nat)>)
    requires pos <= |toks|
    ensures r == ClassSpec(toks, pos, keyword)
  {
    var p := pos;
    var name := "";
    if IsID(toks, p) {
      name := toks[p].lexeme;
      p := p + 1;
    }
    if AsChar(toks, p) != '{' {
      return Fail(p, BlockNeedsOpen(keyword));
    }
    var body, e := ProcessCode(toks, p + 1, false, true);
    if AsChar(toks, e) != '}' {
      return Fail(e, BlockNeedsClose(keyword));
    }
    if AsChar(toks, e + 1) != ';' {
      return Fail(e + 1, ClassNeedsSemicolon(keyword));
    }
    return Ok((ClassNode(keyword, name, body), e + 2));
  }

  /** The statement loop of a scope: appends to `scope` until the end of
      input or a `}`. */
  method ProcessTop(toks: seq<Token>, pos: nat, scope: seq<Node>) returns (r: Parse<(seq<Node>, nat)>)
    requires pos <= |toks|
    ensures r == TopLoop(toks, pos, scope)
    decreases |toks| - pos, 1
  {
    var nodes := scope;
    var p := pos;
    while p < |toks| && AsChar(toks, p) != '}'
      invariant pos <= p <= |toks|
      invariant TopLoop(toks, p, nodes) == TopLoop(toks, pos, scope)
      decreases |toks| - p
    {
      var s := ProcessStatement(toks, p);
      if s.Err? {
        return s.PropagateFailure();
      }
      nodes := nodes + [s.value.0];
      p := s.value.1;
    }
    return Ok((nodes, p));
  }

  /** One pass of the statement loop: dispatches on the leading token. */
  method ProcessStatement(toks: seq<Token>, pos: nat) returns (r: Parse<(Node, nat)>)
    requires pos < |toks|
    ensures r == Statement(toks, pos)
    decreases |toks| - pos, 0
  {
    if IsPP(toks, pos) {
      return Ok((PP(toks[pos].lexeme + "\n"), pos + 1));
    }
    if !IsID(toks, pos) {
      return Fail(pos, StatementNeedsId(AsLexeme(toks, pos)));
    }
    var keyword := toks[pos].lexeme;
    var p := pos + 1;
    if keyword == "concept" {
      var c := ProcessConcept(toks, p);
      if c.Err? {
        return c.PropagateFailure();
      }
      return Ok((Concept(c.value.0), c.value.1));
    } else if keyword == "struct" || keyword == "class" {
      r := ProcessClass(toks, p, keyword);
    } else if keyword == "namespace" {
      var name := "";
      if IsID(toks, p) {
        name := toks[p].lexeme;
        p := p + 1;
      }
      if AsChar(toks, p) != '{' {
        return Fail(p, BlockNeedsOpen(keyword));
      }
      var inner := ProcessTop(toks, p + 1, []);
      if inner.Err? {
        return inner.PropagateFailure();
      }
      p := inner.value.1;
      if AsChar(toks, p) != '}' {
        return Fail(p, BlockNeedsClose(keyword));
      }
      return Ok((Namespace(name, inner.value.0), p + 1));
    } else if keyword == "using" {
      var u := ProcessUsing(toks, p);
      if u.Err? {
        return u.PropagateFailure();
      }
      return Ok((Using(u.value.0, u.value.1), u.value.2));
    } else {
      return Fail(p - 1, UnknownKeyword(keyword));
    }
  }

  /** The translator: the tokens of one input file and the syntax tree
      built from them. */
  class Emphatic {
    const tokens: seq<Token>
    var astRoot: seq<Node>

    constructor(tokens: seq<Token>)
      ensures this.tokens == tokens && astRoot == []
    {
      this.tokens := tokens;
      astRoot := [];
    }

    /** Reads the outer scope from the first token, appending its statements
        to the tree; the result is the cursor where reading stopped (the end
        of input or a stray `}`), or the diagnostic. */
    method Process() returns (r: Parse<nat>)
      modifies this
      ensures var t := TopLoop(tokens, 0, old(astRoot));
        && (r.Ok? <==> t.Ok?)
        && (t.Ok? ==> astRoot == t.value.0 && r.value == t.value.1)
        && (t.Err? ==> astRoot == old(astRoot) && r.error == t.error)
    {
      var t := ProcessTop(tokens, 0, astRoot);
      if t.Err? {
        return t.PropagateFailure();
      }
      astRoot := t.value.0;
      return Ok(t.value.1);
    }
  }
}
