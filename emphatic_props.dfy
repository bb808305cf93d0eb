/** Properties of the statement-level reader of the concept translator:
    the three function tails, the member and concept shapes, the dispatch
    of outer-scope statements, and where the statement loop stops. */
module EmphaticProps {
  import opened Wrappers
  import opened EmphaticErrors
  import opened EmphaticTokens
  import opened EmphaticCode
  import opened EmphaticScan
  import opened EmphaticParse

  /** A function tail is `= required ;`, `= default ;` or a braced body;
      each way of getting it wrong is reported where the source reports it. */
  lemma FunctionTailCases(toks: seq<Token>, pos: nat, element: ElementInfo)
    requires pos <= |toks|
    ensures var r := FunctionTail(toks, pos, element);
      && (AsChar(toks, pos) == '=' ==>
            && (r.Ok? <==> IsID(toks, pos + 1) && toks[pos + 1].lexeme in {"required", "default"}
                           && AsChar(toks, pos + 2) == ';')
            && (r.Ok? ==> r.value == (element.(specialValue := toks[pos + 1].lexeme), pos + 3))
            && (!IsID(toks, pos + 1) ==> r == Fail(pos + 1, AssignNeedsId)))
      && (AsChar(toks, pos) == '{' ==>
            var e := CodeEnd(toks, pos + 1, 0, false, true);
            && (r.Ok? <==> AsChar(toks, e) == '}')
            && (r.Ok? ==> r.value == (element.(defaultCode := JoinLexemes(toks, pos + 1, e)), e + 1))
            && (r.Err? ==> r == Fail(e, BodyNeedsClose(AsLexeme(toks, e)))))
      && (AsChar(toks, pos) != '=' && AsChar(toks, pos) != '{' ==> r == Fail(pos, BodyNeedsOpen))
  {
  }

  /** A body whose brackets balance and that is followed by `}` is taken
      whole: its text is the default code and the `}` is consumed. */
  lemma BalancedBodyIsConsumed(toks: seq<Token>, pos: nat, k: nat, element: ElementInfo)
    requires pos < k < |toks| && AsChar(toks, pos) == '{' && AsChar(toks, k) == '}'
    requires BalancedSpan(toks, pos + 1, k, false)
    ensures FunctionTail(toks, pos, element)
         == Ok((element.(defaultCode := JoinLexemes(toks, pos + 1, k)), k + 1))
  {
    BalancedSpanStopsAtCloser(toks, pos + 1, k, false, true);
  }

  /** `using name = code`: the name is the text of the type after `using`,
      the code the single-line scan after the `=`, `;` included. */
  lemma UsingShape(toks: seq<Token>, pos: nat)
    requires pos <= |toks|
    ensures var r := UsingSpec(toks, pos);
      && (!IsID(toks, pos) ==> r == Fail(pos, UsingNeedsName))
      && (r.Ok? ==> TypeSpec(toks, pos).Ok?)
      && (r.Ok? && TypeSpec(toks, pos).Ok? ==>
            var k := TypeSpec(toks, pos).value.1;
            && AsChar(toks, k) == '='
            && r.value.0 == JoinLexemes(toks, pos, k)
            && r.value.2 == CodeEnd(toks, k + 1, 0, false, false)
            && r.value.1 == JoinLexemes(toks, k + 1, r.value.2))
  {
  }

  /** A member is a typedef exactly when it starts with `using`. */
  lemma MemberKind(toks: seq<Token>, pos: nat)
    requires pos <= |toks|
    ensures var r := MemberSpec(toks, pos);
      && (!IsID(toks, pos) ==> r == Fail(pos, MemberNeedsId))
      && (r.Ok? ==> (r.value.0.Typedef? <==> toks[pos].lexeme == "using"))
  {
  }

  /** The declaration after a member's type: a name, then `(` for a
      function, `;` for a variable, or a default value up to the end of the
      statement. */
  lemma DeclarationNamed(toks: seq<Token>, k: nat, typeName: string)
    requires k <= |toks|
    ensures var r := DeclarationSpec(toks, k, typeName);
      && (!IsID(toks, k) ==> r == Fail(k, MemberNeedsName))
      && (r.Ok? ==>
            && IsID(toks, k)
            && r.value.0.info.name == toks[k].lexeme
            && r.value.0.info.typeName == typeName
            && (r.value.0.Function? <==> AsChar(toks, k + 1) == '('))
      && (IsID(toks, k) && AsChar(toks, k + 1) == ';' ==>
            r == Ok((Variable(EmptyElement.(name := toks[k].lexeme, typeName := typeName)), k + 2)))
      && (IsID(toks, k) && AsChar(toks, k + 1) != '(' && AsChar(toks, k + 1) != ';' ==>
            var e := CodeEnd(toks, k + 1, 0, false, false);
            r == Ok((Variable(EmptyElement.(name := toks[k].lexeme, typeName := typeName,
                                            defaultCode := JoinLexemes(toks, k + 1, e))), e)))
  {
    if IsID(toks, k) {
      var element := EmptyElement.(name := toks[k].lexeme, typeName := typeName);
      if AsChar(toks, k + 1) == '(' {
        FunctionKeepsDeclaration(toks, k + 2, element);
      }
    }
  }

  /** A function or variable member is a type and a name; it is a function
      exactly when `(` follows the name. */
  lemma DeclarationShape(toks: seq<Token>, pos: nat, typeName: string, k: nat)
    requires pos <= |toks| && IsID(toks, pos) && toks[pos].lexeme != "using"
    requires TypeSpec(toks, pos) == Ok((typeName, k))
    ensures var r := MemberSpec(toks, pos);
      && (!IsID(toks, k) ==> r == Fail(k, MemberNeedsName))
      && (r.Ok? ==>
            && IsID(toks, k)
            && r.value.0.info.name == toks[k].lexeme
            && r.value.0.info.typeName == typeName
            && (r.value.0.Function? <==> AsChar(toks, k + 1) == '('))
  {
    assert MemberSpec(toks, pos) == DeclarationSpec(toks, k, typeName);
    DeclarationNamed(toks, k, typeName);
  }

  /** A function keeps the type and name it was declared with; the tail only
      sets its default code or its special value. */
  lemma FunctionKeepsDeclaration(toks: seq<Token>, pos: nat, element: ElementInfo)
    requires pos <= |toks|
    ensures var r := FunctionSpec(toks, pos, element);
      r.Ok? ==> r.value.0.name == element.name && r.value.0.typeName == element.typeName
  {
    var pr := ParamsLoop(toks, pos, []);
    if pr.Ok? {
      var q := pr.value.1 + 1;
      var a := IDListEnd(toks, q);
      var withParams := element.(params := pr.value.0, attributes := LexemeSet(toks, q, a));
      FunctionTailCases(toks, a, withParams);
    }
  }

  /** The member loop keeps the concept's name and base. */
  lemma {:induction false} MembersLoopKeepsName(toks: seq<Token>, pos: nat, c: ConceptInfo)
    requires pos <= |toks|
    ensures var r := MembersLoop(toks, pos, c);
      r.Ok? ==> r.value.0.name == c.name && r.value.0.baseName == c.baseName
    decreases |toks| - pos
  {
    if AsChar(toks, pos) != '}' {
      var m := MemberSpec(toks, pos);
      if m.Ok? {
        MembersLoopKeepsName(toks, m.value.1, AddMember(c, m.value.0));
      }
    }
  }

  /** The member loop only appends to the three lists of the concept, so
      members are kept in source order. */
  lemma {:induction false} MembersLoopAppends(toks: seq<Token>, pos: nat, c: ConceptInfo)
    requires pos <= |toks|
    ensures var r := MembersLoop(toks, pos, c);
      r.Ok? ==>
        && c.typedefs <= r.value.0.typedefs
        && c.functions <= r.value.0.functions
        && c.variables <= r.value.0.variables
    decreases |toks| - pos
  {
    if AsChar(toks, pos) != '}' {
      var m := MemberSpec(toks, pos);
      if m.Ok? {
        MembersLoopAppends(toks, m.value.1, AddMember(c, m.value.0));
      }
    }
  }

  /** Members are appended in source order: when the body goes on, the
      member read at `pos` is appended first, and everything the rest of the
      loop adds comes after it. */
  lemma MembersLoopOrder(toks: seq<Token>, pos: nat, c: ConceptInfo)
    requires pos <= |toks|
    ensures var r := MembersLoop(toks, pos, c);
      AsChar(toks, pos) != '}' && r.Ok? ==>
        var m := MemberSpec(toks, pos);
        && m.Ok?
        && var c1 := AddMember(c, m.value.0);
        && c1.typedefs <= r.value.0.typedefs
        && c1.functions <= r.value.0.functions
        && c1.variables <= r.value.0.variables
  {
    var m := MemberSpec(toks, pos);
    if AsChar(toks, pos) != '}' && m.Ok? {
      MembersLoopAppends(toks, m.value.1, AddMember(c, m.value.0));
    }
  }

  /** A concept body that reaches the end of the input is an error: the
      body needs its `}`. */
  lemma UnclosedConceptFails(toks: seq<Token>, pos: nat, c: ConceptInfo)
    requires pos <= |toks|
    requires forall k :: pos <= k < |toks| ==> AsChar(toks, k) != '}'
    ensures MembersLoop(toks, pos, c).Err?
  {
  }

  /** The head of a concept is `name : base {`; the concept starts with
      that name and base and no members. */
  lemma ConceptHeadShape(toks: seq<Token>, pos: nat)
    requires pos <= |toks|
    ensures var h := ConceptHead(toks, pos);
      && (h.Ok? <==> IsID(toks, pos) && AsChar(toks, pos + 1) == ':' && IsID(toks, pos + 2) && AsChar(toks, pos + 3) == '{')
      && (h.Ok? ==> h.value == ConceptInfo(toks[pos].lexeme, toks[pos + 2].lexeme, [], [], []))
      && (!IsID(toks, pos) ==> h == Fail(pos, ConceptNeedsName))
  {
  }

  /** A concept takes the name and base of its head: the member loop does
      not change them. */
  lemma ConceptShape(toks: seq<Token>, pos: nat)
    requires pos <= |toks|
    ensures var r := ConceptSpec(toks, pos);
      r.Ok? ==>
        && ConceptHead(toks, pos).Ok?
        && r.value.0.name == ConceptHead(toks, pos).value.name
        && r.value.0.baseName == ConceptHead(toks, pos).value.baseName
  {
    var head := ConceptHead(toks, pos);
    if head.Ok? {
      var body := MembersLoop(toks, pos + 4, head.value);
      if body.Ok? {
        MembersLoopKeepsName(toks, pos + 4, head.value);
        var r := ConceptSpec(toks, pos);
        assert r.Ok? ==> r.value.0 == body.value.0;
      }
    }
  }

  /** A concept ends with `;` right after the `}` at which its member loop
      stopped (the loop stops only on a `}`). */
  lemma ConceptClosing(toks: seq<Token>, pos: nat)
    requires pos <= |toks|
    ensures var r := ConceptSpec(toks, pos);
      r.Ok? ==>
        && ConceptHead(toks, pos).Ok?
        && pos + 6 <= r.value.1
        && MembersLoop(toks, pos + 4, ConceptHead(toks, pos).value) == Ok((r.value.0, r.value.1 - 2))
        && AsChar(toks, r.value.1 - 1) == ';'
  {
    var head := ConceptHead(toks, pos);
    if head.Ok? {
      var body := MembersLoop(toks, pos + 4, head.value);
      var r := ConceptSpec(toks, pos);
      assert r == ConceptTail(toks, body);
      ConceptTailClosing(toks, body);
      assert r.Ok? ==> body == Ok((r.value.0, r.value.1 - 2));
    }
  }

  /** What a successful closing says about the member loop's result. */
  lemma ConceptTailClosing(toks: seq<Token>, body: Parse<(ConceptInfo, nat)>)
    ensures var r := ConceptTail(toks, body);
      r.Ok? ==> 2 <= r.value.1 && body == Ok((r.value.0, r.value.1 - 2)) && AsChar(toks, r.value.1 - 1) == ';'
  {
  }

  /** `struct` and `class` need `{ body } ;`; a balanced body followed by
      `} ;` is taken whole. */
  lemma ClassShape(toks: seq<Token>, pos: nat, keyword: string)
    requires pos <= |toks|
    ensures var r := ClassSpec(toks, pos, keyword);
      r.Ok? ==>
        && r.value.0.ClassNode? && r.value.0.keyword == keyword
        && AsChar(toks, r.value.1 - 2) == '}' && AsChar(toks, r.value.1 - 1) == ';'
  {
  }

  /** The body of a `struct` or `class` whose brackets balance is kept whole. */
  lemma BalancedClassBody(toks: seq<Token>, pos: nat, k: nat, keyword: string)
    requires pos < k && k + 1 < |toks| && !IsID(toks, pos)
    requires AsChar(toks, pos) == '{' && AsChar(toks, k) == '}' && AsChar(toks, k + 1) == ';'
    requires BalancedSpan(toks, pos + 1, k, false)
    ensures ClassSpec(toks, pos, keyword) == Ok((ClassNode(keyword, "", JoinLexemes(toks, pos + 1, k)), k + 2))
  {
    BalancedSpanStopsAtCloser(toks, pos + 1, k, false, true);
  }

  /** Outer-scope dispatch: a preprocessor line passes through, anything
      else must be one of the five keywords, and a namespace consumes its
      closing brace without needing a `;`. */
  lemma StatementDispatch(toks: seq<Token>, pos: nat)
    requires pos < |toks|
    ensures var r := Statement(toks, pos);
      && (IsPP(toks, pos) ==> r == Ok((PP(toks[pos].lexeme + "\n"), pos + 1)))
      && (!IsPP(toks, pos) && !IsID(toks, pos) ==> r == Fail(pos, StatementNeedsId(toks[pos].lexeme)))
      && (!IsPP(toks, pos) && r.Ok? ==>
            IsID(toks, pos) && toks[pos].lexeme in {"concept", "struct", "class", "namespace", "using"})
      && (IsID(toks, pos) && toks[pos].lexeme !in {"concept", "struct", "class", "namespace", "using"} ==>
            r == Fail(pos, UnknownKeyword(toks[pos].lexeme)))
      && (IsID(toks, pos) && toks[pos].lexeme == "namespace" && r.Ok? ==>
            r.value.0.Namespace? && AsChar(toks, r.value.1 - 1) == '}')
  {
  }

  /** The statement loop only appends to its scope, and stops at the end of
      the input or in front of a `}`, which it leaves unconsumed. */
  lemma {:induction false} TopLoopStops(toks: seq<Token>, pos: nat, scope: seq<Node>)
    requires pos <= |toks|
    ensures var r := TopLoop(toks, pos, scope);
      && (pos < |toks| && AsChar(toks, pos) == '}' ==> r == Ok((scope, pos)))
      && (r.Ok? ==> scope <= r.value.0 && (r.value.1 == |toks| || AsChar(toks, r.value.1) == '}'))
    decreases |toks| - pos
  {
    if pos < |toks| && AsChar(toks, pos) != '}' {
      var s := Statement(toks, pos);
      if s.Ok? {
        TopLoopStops(toks, s.value.1, scope + [s.value.0]);
      }
    }
  }
}
