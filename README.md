# Empirical: concept translator, code-generation draft, web table, meta helpers, managers

This project models, in Dafny, six headers of the Empirical C++ library
and proves properties of the model.

- **Emphatic** (`apps/Emphatic/Emphatic.h`) is a translator for "concepts":
  dynamic interfaces written in a small C++-like language. It turns a token
  stream into a syntax tree of preprocessor lines, classes, namespaces,
  `using` declarations and concepts. A concept has typedefs, functions and
  variables. Each scanner with a loop (`ProcessCode`, `ProcessType`,
  `ProcessParams`, `ProcessIDList`, the member loop of `ProcessConcept`,
  `ProcessTop`) is modelled twice:
  - as a specification function that returns the value built and the
    cursor it leaves, or the diagnostic the translator would abort with;
  - as a method that follows the source's loops and branches and is proved
    equal to that function.

  `ProcessTemplate` has no loop and is a single function whose contract
  gives all three of its cases. Lemmas state what the grammar guarantees
  about the specification functions. Modules:
  `EmphaticTokens`, `EmphaticErrors`, `EmphaticCode`, `EmphaticScan`,
  `EmphaticScanProps`, `EmphaticParse` and `EmphaticProps`.
- **CodeGen** (`apps/codegen/CodeGen.h`) is the earlier draft of the same
  reader, in module `CodeGenDraft`. It accepts only `concept` statements,
  checks a concept's header, and then enters a loop with an empty body. Its
  object builds a tree of nodes in place, so it is a class whose methods
  modify the nodes. Each run is proved against a function that gives its
  outcome: a returned position, an abort with a message, or divergence.
- **Web table** (`web/Table.h`, modules `WebTable` and `WebTableProps`)
  covers the table widget's grid:
  - the cells, with their spans and their header and mask flags;
  - the optional column, column-group and row-group records;
  - the cell that receives appended widgets;
  - the table handle's cursor and focus state.

  `TableInfo` and `Table` are classes whose methods update their fields.
  Each method's new state is given by a function on a `Grid` value. Lemmas
  cover:
  - the shape a resize produces;
  - that a new table passes the validator;
  - which cells a span change masks;
  - that the validator then reports them.
- **meta** (`meta/meta.h`, module `Meta`) holds the compile-time
  type-pack helpers, read as functions over a sequence: positional
  access, membership, counting, first index, uniqueness, `tIntMath`,
  `CombineHash` over 64-bit words, and `TruncateCall`.
- **ConfigManager** (`tools/ConfigManager.h`) is a registry of named
  objects with a current object that configuration commands act on.
- **DataManager** (`source/data/DataManager.h`) is a registry of named
  data nodes, with operations that forward to one node or to all of them.

Conventions:

- A fatal diagnostic (`Error`, which prints and calls `exit(1)`) is an
  `Err` value carrying the token position that the source prints and the
  kind of failure. `EmphaticErrors.Message` gives the printed text of
  each kind.
- An `emp_assert` precondition, and an index that the source would read
  out of range (undefined behaviour), become `requires` clauses.
- Integers are unbounded except in `CombineHash`, where `std::size_t`
  arithmetic is written out modulo 2^64.

## Model

| member | source | states |
|---|---|---|
| EmphaticTokens.AsChar | apps/Emphatic/Emphatic.h:62-64 | a non-NUL result comes only from a symbol token in range with a non-empty lexeme, and is that lexeme's first character |
| EmphaticTokens.AsLexeme | apps/Emphatic/Emphatic.h:65-67 | in range the token's lexeme, out of range the empty string |
| EmphaticTokens.HelpersTotal | apps/Emphatic/Emphatic.h:57-67 | outside the token range there is no token, identifier, number, string or preprocessor line, `AsChar` is NUL and `AsLexeme` is empty |
| EmphaticTokens.JoinSplit | apps/Emphatic/Emphatic.h:69-78 | joining tokens [start, end) equals joining [start, mid) and [mid, end) with exactly one space between them |
| EmphaticTokens.JoinLength | apps/Emphatic/Emphatic.h:69-78 | the joined text is as long as the lexemes together plus one separator between each pair of neighbouring tokens |
| EmphaticTokens.ConcatLexemes | apps/Emphatic/Emphatic.h:69-78 | the loop builds the lexemes of [start, end) separated by single spaces, with no leading space |
| EmphaticCode.CodeEnd | apps/Emphatic/Emphatic.h:127-163 | the scan stops inside the input and never moves backwards |
| EmphaticCode.CodeEndIsFirstStop | apps/Emphatic/Emphatic.h:131-161 | the stopping point is the first one: before it no unmatched closer and, in single-line mode, no `;` except the last consumed token; at it the input is exhausted, a `;` was just consumed, or an unmatched closer is left unconsumed |
| EmphaticCode.SemicolonEndsSingleLine | apps/Emphatic/Emphatic.h:134-135 | in single-line mode the scan ends just past the first `;` when no unmatched closer comes first, even inside open brackets |
| EmphaticCode.MultiLineIgnoresSemicolons | apps/Emphatic/Emphatic.h:134-135 | in multi-line mode the scan ends only at the end of input or at an unmatched closer |
| EmphaticCode.BalancedSpanStopsAtCloser | apps/Emphatic/Emphatic.h:148-158 | after a bracket-balanced span, the scan stops exactly at the closer that follows it, leaving that closer unconsumed |
| EmphaticCode.BalanceSnoc | apps/Emphatic/Emphatic.h:137-155 | the open-bracket count over a span grows by one token's effect when the span is extended by that token |
| EmphaticCode.ProcessCode | apps/Emphatic/Emphatic.h:127-163 | the loop with its stack of open brackets stops where `CodeEnd` says, and returns the joined text of the consumed tokens |
| EmphaticScan.SkipLexeme | apps/Emphatic/Emphatic.h:170 | the cursor moves past one token exactly when that token is the given keyword |
| EmphaticScan.TemplateArgsEnd | apps/Emphatic/Emphatic.h:183-186 | template arguments end just past a `>`; the only failure is a missing `>` |
| EmphaticScan.SegmentEnd | apps/Emphatic/Emphatic.h:175-186 | a segment of a type name consumes at least one token |
| EmphaticScan.SegmentsEnd | apps/Emphatic/Emphatic.h:173-192 | the `::`-separated name consumes at least one token |
| EmphaticScan.SegmentsStep | apps/Emphatic/Emphatic.h:188-191 | after a segment, a `::` means another segment is required, and anything else ends the name |
| EmphaticScan.TypeSpec | apps/Emphatic/Emphatic.h:167-200 | a type consumes at least one token, and its text is exactly the consumed tokens joined by spaces |
| EmphaticScan.ProcessSegment | apps/Emphatic/Emphatic.h:175-186 | one pass of the `need_id` loop returns what `SegmentEnd` defines; `SegmentEndCases` gives that function's success and its two errors |
| EmphaticScan.ProcessSegmentStep | apps/Emphatic/Emphatic.h:175-191 | one pass either fails with the name's diagnostic, ends the name, or consumes `::` and leaves the rest of the name equal to the whole |
| EmphaticScan.ProcessSegments | apps/Emphatic/Emphatic.h:173-192 | the `need_id` loop returns exactly the end of the name or its diagnostic |
| EmphaticScan.ProcessType | apps/Emphatic/Emphatic.h:167-200 | the type scanner returns what `TypeSpec` defines, whose failures `TypeSpecFailure` and whose ending `TypeSpecEnding` state |
| EmphaticScan.ParamBody | apps/Emphatic/Emphatic.h:213-218 | a parameter (type and optional name) consumes at least one token |
| EmphaticScan.ParamEnd | apps/Emphatic/Emphatic.h:207-218 | a parameter, with its separating comma, consumes at least one token |
| EmphaticScan.ParamsLoop | apps/Emphatic/Emphatic.h:203-222 | a successful parameter list stops on a `)` inside the input, and only extends the parameters already read |
| EmphaticScan.ProcessParamBody | apps/Emphatic/Emphatic.h:213-218 | the type and the optional identifier are read as `ParamBody` defines, whose cases `ParamBodyCases` states |
| EmphaticScan.ProcessParam | apps/Emphatic/Emphatic.h:207-218 | one pass of the parameter loop returns what `ParamEnd` defines: a comma before every parameter but the first, then `ParamBody` |
| EmphaticScan.ProcessParams | apps/Emphatic/Emphatic.h:203-222 | the parameter loop returns exactly `ParamsLoop` from an empty list, whose comma rule and order `ParamsNeedComma` and `ParamsLoopOrder` state |
| EmphaticScan.IDListEnd | apps/Emphatic/Emphatic.h:225-232 | the run of identifiers ends at the first non-identifier, and every token before it is an identifier |
| EmphaticScan.IDListEndIsFirstNonID | apps/Emphatic/Emphatic.h:225-232 | any position preceded only by identifiers and holding a non-identifier is the end of the run |
| EmphaticScan.ProcessIDList | apps/Emphatic/Emphatic.h:225-232 | the loop stops at the end of the run and collects the set of its lexemes |
| EmphaticScan.ProcessTemplate | apps/Emphatic/Emphatic.h:235-243 | without `template` nothing is consumed and the text is empty; with it, success exactly when `<` `>` follow, consuming three tokens whose joined text is returned; errors sit at the `<` or the `>` |
| EmphaticScanProps.SegmentEndCases | apps/Emphatic/Emphatic.h:175-186 | after the optional `typename` and `template`, a missing identifier fails there with "Expecting type" and the lexeme found; an identifier without `<` ends the segment just past it; after `<` the segment succeeds exactly when the first unmatched closer is `>`, ending past it, and otherwise fails at that closer |
| EmphaticScanProps.SegmentEndOutcome | apps/Emphatic/Emphatic.h:175-186 | a segment fails only with a missing identifier or unclosed template arguments, each at its position, and on success ends with an identifier or a `>` |
| EmphaticScanProps.SegmentsEndOutcome | apps/Emphatic/Emphatic.h:173-192 | a `::`-separated name fails only as one of its segments fails, and on success ends with an identifier or a `>` |
| EmphaticScanProps.TypeSpecFailure | apps/Emphatic/Emphatic.h:167-200 | the type scanner fails only when an identifier is missing (reported at that token, with its lexeme) or template arguments are not closed by `>` (reported at the token found instead) |
| EmphaticScanProps.TypeSpecEnding | apps/Emphatic/Emphatic.h:167-200 | the last token of an accepted type is an identifier, a `>`, a `&` or a `*` |
| EmphaticScanProps.SkipsKeepEnding | apps/Emphatic/Emphatic.h:195-196 | after the optional `&` and `*`, the type ends with the name's last token, the `&` or the `*` |
| EmphaticScanProps.ParamBodyCases | apps/Emphatic/Emphatic.h:213-218 | a type error is passed on unchanged; an identifier after the type is the parameter's name and is consumed; otherwise the name is "" and the cursor stays after the type |
| EmphaticScanProps.ParamsNeedComma | apps/Emphatic/Emphatic.h:206-210 | once a parameter has been read, any token other than `)` or `,` fails with "Parameters must be separated by commas" at that token |
| EmphaticScanProps.ParamsLoopOrder | apps/Emphatic/Emphatic.h:205-221 | when the list goes on, the parameter read at the cursor is the next entry after those already read, so parameters keep their source order |
| EmphaticParse.AddMember | apps/Emphatic/Emphatic.h:338-388 | a typedef, function or variable is appended to its own list only; the name, the base and the other lists are unchanged |
| EmphaticParse.OptionalName | apps/Emphatic/Emphatic.h:273-283 | an identifier is taken as the name and consumed, and otherwise the name is empty and nothing is consumed |
| EmphaticParse.FunctionTail | apps/Emphatic/Emphatic.h:355-377 | a function's tail consumes at least one token |
| EmphaticParse.FunctionSpec | apps/Emphatic/Emphatic.h:350-377 | a function after its `(` consumes at least one token |
| EmphaticParse.UsingSpec | apps/Emphatic/Emphatic.h:331-339 | a `using` member consumes at least one token |
| EmphaticParse.MemberSpec | apps/Emphatic/Emphatic.h:327-390 | a concept member consumes at least one token, so the member loop makes progress |
| EmphaticParse.DeclarationSpec | apps/Emphatic/Emphatic.h:345-390 | a declaration after its type consumes at least one token |
| EmphaticParse.MembersLoop | apps/Emphatic/Emphatic.h:325-392 | a successful member loop stops on a `}` inside the input |
| EmphaticParse.ConceptHead | apps/Emphatic/Emphatic.h:309-322 | a successful head `name : base {` leaves four tokens in range |
| EmphaticParse.ConceptSpec | apps/Emphatic/Emphatic.h:305-398 | a concept definition consumes at least one token and stays in the input |
| EmphaticParse.ConceptTail | apps/Emphatic/Emphatic.h:394-395 | the closing succeeds only after a successful member loop, when `;` follows the `}`, and consumes both |
| EmphaticParse.ClassSpec | apps/Emphatic/Emphatic.h:270-278 | a `struct` or `class` consumes at least one token |
| EmphaticParse.TopLoop | apps/Emphatic/Emphatic.h:253-302 | the outer-scope loop never moves the cursor backwards or past the input |
| EmphaticParse.Statement | apps/Emphatic/Emphatic.h:256-300 | every statement consumes at least one token, so the outer loop makes progress |
| EmphaticParse.ProcessFunctionTail | apps/Emphatic/Emphatic.h:355-377 | the function tail's branches (`= required;`, `= default;`, a body in braces, the error otherwise) return what `FunctionTail` defines |
| EmphaticParse.ProcessFunction | apps/Emphatic/Emphatic.h:350-377 | parameters, `)`, attributes and tail are read as `FunctionSpec` defines |
| EmphaticParse.ProcessUsing | apps/Emphatic/Emphatic.h:331-339 | a `using` member is read as `UsingSpec` defines |
| EmphaticParse.ProcessMember | apps/Emphatic/Emphatic.h:327-390 | one pass of the member loop returns what `MemberSpec` defines |
| EmphaticParse.ProcessDeclaration | apps/Emphatic/Emphatic.h:345-390 | the name, then the function or variable branch, return what `DeclarationSpec` defines |
| EmphaticParse.ProcessMembers | apps/Emphatic/Emphatic.h:325-392 | the member loop returns exactly `MembersLoop` |
| EmphaticParse.ProcessConceptHead | apps/Emphatic/Emphatic.h:309-322 | the four header checks, each with its own diagnostic and position, return `ConceptHead` |
| EmphaticParse.ProcessConcept | apps/Emphatic/Emphatic.h:305-398 | a concept is read exactly as `ConceptSpec` defines |
| EmphaticParse.ProcessClass | apps/Emphatic/Emphatic.h:270-278 | a class or struct is read as `ClassSpec` defines |
| EmphaticParse.ProcessTop | apps/Emphatic/Emphatic.h:253-302 | the outer-scope loop returns exactly `TopLoop` |
| EmphaticParse.ProcessStatement | apps/Emphatic/Emphatic.h:256-300 | one pass of the outer loop returns exactly `Statement` |
| EmphaticParse.Emphatic.constructor | apps/Emphatic/Emphatic.h:107-111 | the translator holds the given tokens and an empty tree |
| EmphaticParse.Emphatic.Process | apps/Emphatic/Emphatic.h:400-403 | processing from the first token succeeds exactly when `TopLoop` does; the tree then becomes its result, and otherwise the diagnostic is returned |
| EmphaticProps.FunctionTailCases | apps/Emphatic/Emphatic.h:357-377 | after `=`, success exactly for `required` or `default` followed by `;`; after `{`, success exactly when the multi-line body scan stops at `}`, taking the body as default code; any other character fails at its own position |
| EmphaticProps.BalancedBodyIsConsumed | apps/Emphatic/Emphatic.h:366-373 | a bracket-balanced body between `{` and `}` becomes the default code, and the tail ends just past the `}` |
| EmphaticProps.UsingShape | apps/Emphatic/Emphatic.h:331-339 | `using` needs an identifier, a type and `=`; the name is the type's text, and the value is the statement after `=` |
| EmphaticProps.MemberKind | apps/Emphatic/Emphatic.h:327-331 | a member must start with an identifier, and it is a typedef exactly when that identifier is `using` |
| EmphaticProps.DeclarationNamed | apps/Emphatic/Emphatic.h:345-390 | after the type a name is required (reported at its position); the member keeps that name and type, and it is a function exactly when `(` follows the name; `name ;` is a variable without default code ending past the `;`, and otherwise the variable's default code is the raw single-line statement after the name, `;` included |
| EmphaticProps.DeclarationShape | apps/Emphatic/Emphatic.h:340-390 | a non-`using` member is a type then a name, and is a function exactly when `(` follows the name |
| EmphaticProps.FunctionKeepsDeclaration | apps/Emphatic/Emphatic.h:350-377 | reading the function part never changes the name or type found before it |
| EmphaticProps.MembersLoopKeepsName | apps/Emphatic/Emphatic.h:325-392 | the member loop never changes the concept's name or base name |
| EmphaticProps.MembersLoopAppends | apps/Emphatic/Emphatic.h:338-388 | the member loop only appends: the typedef, function and variable lists before it are prefixes of those after it |
| EmphaticProps.MembersLoopOrder | apps/Emphatic/Emphatic.h:325-392 | when the body goes on, the member at the cursor parses, and the concept with that member appended is a prefix, list by list, of the loop's result, so members keep their source order |
| EmphaticProps.UnclosedConceptFails | apps/Emphatic/Emphatic.h:325-327 | a concept body with no `}` before the end of input always fails |
| EmphaticProps.ConceptHeadShape | apps/Emphatic/Emphatic.h:309-322 | the head succeeds exactly for identifier, `:`, identifier, `{`, giving an empty concept with that name and base; a missing name is reported first |
| EmphaticProps.ConceptShape | apps/Emphatic/Emphatic.h:305-317 | a parsed concept has the name and base name of its head |
| EmphaticProps.ConceptClosing | apps/Emphatic/Emphatic.h:325-397 | a parsed concept is its head, a member loop stopping at the `}`, then `;`, ending at least six tokens past the start |
| EmphaticProps.ConceptTailClosing | apps/Emphatic/Emphatic.h:394-395 | a successful closing gives back the member loop's result, two tokens later, with `;` as its last token |
| EmphaticProps.ClassShape | apps/Emphatic/Emphatic.h:270-278 | a parsed class or struct keeps its keyword and ends with `}` `;` |
| EmphaticProps.BalancedClassBody | apps/Emphatic/Emphatic.h:274-277 | an unnamed class whose balanced body is followed by `}` `;` yields that body as its code, and ends just past the `;` |
| EmphaticProps.StatementDispatch | apps/Emphatic/Emphatic.h:256-300 | preprocessor lines are echoed with a newline; other statements need an identifier; only `concept`, `struct`, `class`, `namespace` and `using` are accepted, and any other keyword is reported; a namespace ends on `}` |
| EmphaticProps.TopLoopStops | apps/Emphatic/Emphatic.h:253-254 | the outer loop stops at once on `}`; on success it only appends to the scope, and stops at the end of input or at a `}` |
| CodeGenDraft.AsChar | apps/codegen/CodeGen.h:94-97 | a non-NUL result comes only from a symbol token in range, and is its lexeme's first character |
| CodeGenDraft.HelpersTotal | apps/codegen/CodeGen.h:90-97 | out of range there is no token, identifier, number or string, and `AsChar` is NUL |
| CodeGenDraft.SymbolIsNotID | apps/codegen/CodeGen.h:90-97 | when the lexer's kinds are distinct, a symbol is never an identifier, number or string |
| CodeGenDraft.Error | apps/codegen/CodeGen.h:99-102 | an error always aborts with its message |
| CodeGenDraft.ErrorIgnoresPosition | apps/codegen/CodeGen.h:99-102 | the position argument has no effect on the outcome, which is never a return |
| CodeGenDraft.ConceptSpec | apps/codegen/CodeGen.h:145-178 | a returning concept read ends four tokens past its start, inside the input |
| CodeGenDraft.ConceptHeader | apps/codegen/CodeGen.h:147-169 | each missing piece of `name : base {` aborts with its own message; the name and base name are stored before the next check |
| CodeGenDraft.ConceptLoopNeverAdvances | apps/codegen/CodeGen.h:170-177 | after a valid header, the empty loop returns at once exactly when the next token is `{`, leaving the cursor on it, and otherwise never ends |
| CodeGenDraft.TopOnlyConcepts | apps/codegen/CodeGen.h:126-139 | a statement that is not an identifier, or a keyword other than `concept`, aborts with nothing added; a concept adds its node first |
| CodeGenDraft.TopReturnsOnlyAtEnd | apps/codegen/CodeGen.h:125-142 | the outer reader returns only when there is no input left, and adds at most one concept |
| CodeGenDraft.AstNode.constructor | apps/codegen/CodeGen.h:54-58 | a new node has no children and empty names |
| CodeGenDraft.AstNode.AddChild | apps/codegen/CodeGen.h:57 | the child is appended, and the node's names are unchanged |
| CodeGenDraft.CodeGen.constructor | apps/codegen/CodeGen.h:105-122 | the reader holds the given tokens and kinds, and a fresh root with no children |
| CodeGenDraft.CodeGen.ProcessConcept | apps/codegen/CodeGen.h:145-178 | the outcome and the stored names are those of `ConceptSpec`, and the concept's children are untouched |
| CodeGenDraft.CodeGen.AddConcept | apps/codegen/CodeGen.h:131-135 | a fresh node is appended to the root before the concept is read, and then carries the concept's names |
| CodeGenDraft.CodeGen.ProcessStatement | apps/codegen/CodeGen.h:127-139 | one pass of the outer loop appends fresh nodes that match `TopSpec` and moves the cursor forward when it returns |
| CodeGenDraft.CodeGen.ProcessTop | apps/codegen/CodeGen.h:125-142 | the outer loop's outcome is `TopSpec`'s; the old children are kept, and the appended ones are fresh nodes named as `TopSpec` lists |
| WebTable.Resized | web/Table.h:217-240 | a vector resize to `n` keeps the first elements and fills the rest |
| WebTable.ResetIndex | web/Table.h:674-683 | a stored position out of range goes back to 0, and one in range is kept |
| WebTable.RowSpanKeepsShape | web/Table.h:799-817 | a row-span change keeps every row's length and sets the focused cell's row span, leaving its column span alone |
| WebTable.TableInfo.constructor | web/Table.h:206-207 | a new grid has zero rows and columns, no records and the append cell at (0, 0) |
| WebTable.TableInfo.AddChildAt | web/Table.h:285-307 | the widget is appended to the children of cell (r, c) and nothing else changes |
| WebTable.TableInfo.AddChild | web/Table.h:310-316 | an out-of-range append position is reset to 0 first, and the widget then goes into that cell |
| WebTable.TableInfo.GetTextWidget | web/Table.h:258-275 | the last child of the append cell is reused when it is an appendable text; otherwise a new empty text is appended and returned |
| WebTable.TableInfo.ClearCell | web/Table.h:407-420 | the cell returns to its defaults: spans of one, no header, unmasked and no children |
| WebTable.TableInfo.ClearRowCells | web/Table.h:421-423 | the first `colCount` cells of the row are cleared |
| WebTable.TableInfo.ClearRow | web/Table.h:424-429 | clearing a row clears its cells |
| WebTable.TableInfo.ClearTableCells | web/Table.h:430 | every cell of the first `rowCount` rows is cleared |
| WebTable.TableInfo.ClearTableRows | web/Table.h:431 | every row is cleared |
| WebTable.TableInfo.ClearTable | web/Table.h:432 | the table is resized to zero by zero |
| WebTable.TableInfo.MaskRowCells | web/Table.h:806-816 | the cells [lo, hi) of one row get the mask flag, one at a time |
| WebTable.TableInfo.MaskRectangle | web/Table.h:806-816 | the cells of a rectangle get the mask flag |
| WebTable.TableInfo.SetCellRowSpan | web/Table.h:799-817 | the cell's row span is set; rows newly covered are masked and rows no longer covered are unmasked |
| WebTable.TableInfo.SetCellColSpan | web/Table.h:844-862 | the cell's column span is set; columns newly covered are masked and columns no longer covered are unmasked |
| WebTable.TableInfo.SetRowGroupSpan | web/Table.h:820-830 | the row-group records are created on first use; then the group's span is set and the groups it gains or loses are masked or unmasked |
| WebTable.TableInfo.SetColGroupSpan | web/Table.h:865-875 | the same for column groups |
| WebTable.TableInfo.GrowRowAt | web/Table.h:219-220 | one row is resized, and each cell from `lo` on receives an empty text widget |
| WebTable.TableInfo.ResizeColumns | web/Table.h:217-227 | the column step of a resize: remaining rows are widened or narrowed, and the column records are resized only when in use |
| WebTable.TableInfo.ResizeRowCount | web/Table.h:230-240 | the row step of a resize: new rows are filled with table-made cells, and the row-group records are resized only when in use |
| WebTable.TableInfo.Resize | web/Table.h:215-242 | a resize is the column step followed by the row step |
| WebTable.MaskGroupRange | web/Table.h:828-829 | the groups `base + i`, for i in [lo, hi), get the mask flag |
| WebTable.Table.constructor | web/Table.h:611-618 | a new `r` by `c` table, focused on the whole table at (0, 0) |
| WebTable.Table.PrepareAppend | web/Table.h:636-639 | the append cell becomes the cursor's cell |
| WebTable.Table.Rows | web/Table.h:674-678 | only the row count changes, and a cursor row out of range goes to 0 |
| WebTable.Table.Cols | web/Table.h:679-683 | only the column count changes, and a cursor column out of range goes to 0 |
| WebTable.Table.Resize | web/Table.h:684-689 | both counts change, and each cursor coordinate out of range goes to 0 |
| WebTable.Table.SetCellActive | web/Table.h:720-727 | the handle focuses cell (r, c) |
| WebTable.Table.SetRowActive | web/Table.h:728-733 | the handle focuses row r, with the column at 0 |
| WebTable.Table.SetColActive | web/Table.h:734-739 | the handle focuses column c, with the row at 0 |
| WebTable.Table.SetRowGroupActive | web/Table.h:740-745 | the handle focuses row group r |
| WebTable.Table.SetColGroupActive | web/Table.h:746-751 | the handle focuses column group c |
| WebTable.Table.SetTableActive | web/Table.h:752-755 | the handle focuses the whole table and keeps its cursor |
| WebTable.Table.SetHeader | web/Table.h:757-762 | only the focused cell's header flag changes |
| WebTable.Table.Clear | web/Table.h:651-659 | the focus decides what is cleared: the whole table is resized to nothing, a row has its cells cleared, or a cell is cleared |
| WebTable.Table.ClearCells | web/Table.h:663-670 | the focus decides which cells are cleared, and the shape is kept |
| WebTable.Table.SetRowSpan | web/Table.h:795-837 | on a cell, the row span with its masking; on a row group, the group span with its masking |
| WebTable.Table.SetColSpan | web/Table.h:839-882 | on a cell, the column span with its masking; on a column group, the group span with its masking |
| WebTable.Table.SetSpan | web/Table.h:884-889 | on a row group, the row-group span; on a column group, the column-group span |
| WebTable.Table.SetSpans | web/Table.h:891-897 | on a cell, the row span and then the column span, each with its masking |
| WebTableProps.GrowRowCells | web/Table.h:219-220 | a grown row has the new size, keeps its old cells, pads with default cells, and gives each cell from `lo` on one more empty text |
| WebTableProps.ResizeColsShape | web/Table.h:217-227 | after the column step, every remaining row has `newCols` cells: old cells where they existed, table-made cells elsewhere |
| WebTableProps.ResizeShape | web/Table.h:215-242 | a resize of a well-shaped grid gives a well-shaped grid with the new counts; cells in the overlap are untouched, every other cell holds one empty text, unused records stay unused, and the append cell stays |
| WebTableProps.NewTableOK | web/Table.h:611-618 | a new table passes the validator, and every cell holds one empty text |
| WebTableProps.GrowKeepsOK | web/Table.h:215-242 | growing a table that passes the validator keeps it passing |
| WebTableProps.ClearTableEmpties | web/Table.h:432 | clearing the table leaves a zero by zero grid with no rows and no records |
| WebTableProps.ClearCellsMakesOK | web/Table.h:430-505 | clearing every cell resets all of them, so a table of at least one row and one column then passes the validator |
| WebTableProps.RowSpanMasksExactly | web/Table.h:799-817 | after a row-span change, exactly the newly covered cells are masked and the newly uncovered ones unmasked; every other cell is unchanged |
| WebTableProps.ColSpanMasksExactly | web/Table.h:844-862 | the column-wise counterpart |
| WebTableProps.GroupSpanMasksExactly | web/Table.h:824-830 | the group counterpart |
| WebTableProps.RowSpanFailsValidator | web/Table.h:799-810 | widening a cell's row span over another row makes a table that passed the validator fail it, because the validator reports masked cells |
| WebTableProps.ColSpanFailsValidator | web/Table.h:844-855 | the same for column spans |
| WebTableProps.NewTableIsOK | web/Table.h:611-618 | a table built with `r` rows and `c` columns passes the handle's validator, with those counts |
| Meta.PackIdIsIndex | meta/meta.h:33-42 | peeling `ID` types off a pack gives the pack's `ID`-th entry |
| Meta.PositionalTypes | meta/meta.h:28-45 | `first_type`, `second_type` and `third_type` are pack indices 0, 1 and 2, and `last_type` is the final entry |
| Meta.HasTypeIsMember | meta/meta.h:51-53 | `has_type` holds exactly when the type is in the pack |
| Meta.CountTypeIsMultiplicity | meta/meta.h:56-58 | `count_type` is the type's multiplicity in the pack, and it is positive exactly when `has_type` holds |
| Meta.TypeIndexIsFirst | meta/meta.h:61-72 | `get_type_index` is -1 exactly when the type is absent, and otherwise the first position holding it |
| Meta.UniqueFirstIsNotInTail | meta/meta.h:78-84 | `has_unique_first_type` holds exactly when the first type does not occur again |
| Meta.UniqueTypesAreDistinct | meta/meta.h:79-90 | `has_unique_types` holds exactly when all entries are pairwise distinct |
| Meta.SumProductSplit | meta/meta.h:232-240 | `Sum` and `Product` split over concatenation, so the right-nested fold's grouping does not matter |
| Meta.ProductZero | meta/meta.h:232-240 | the product is zero exactly when some entry is zero |
| Meta.CombineHashIsRightFold | meta/meta.h:184-191 | combining a longer key list combines its tail first, then mixes in the leading keys one at a time from right to left |
| Meta.MixShiftBounds | meta/meta.h:190 | modulo 2^64, the left shift by 19 keeps only the low 45 bits of the rest's hash, and the right shift by 13 leaves a value below 2^51 |
| Meta.TruncateIgnoresExtra | meta/meta.h:157-171 | extra trailing arguments never reach the function, and with exactly its arity the call is a plain call |
| ConfigManager.ConfigManager.constructor | tools/ConfigManager.h:42-53 | a new manager has no objects and no current object, and keeps its keywords and callback |
| ConfigManager.ConfigManager.NewObject | tools/ConfigManager.h:56-67 | a fresh object is stored under the name and made current; an existing name is reported and replaced |
| ConfigManager.ConfigManager.UseObject | tools/ConfigManager.h:69-79 | a known name makes its object current; an unknown name is reported and changes nothing |
| ConfigManager.ConfigManager.CommandCallback | tools/ConfigManager.h:81-92 | without a current object the command fails; otherwise the callback decides, on the current object |
| ConfigManager.CommandNeedsObject | tools/ConfigManager.h:42-92 | on a new manager a command fails until an object is built; after that the callback decides |
| DataManager.DataManager.constructor | source/data/DataManager.h:33 | a new manager has no nodes |
| DataManager.DataManager.GetSize | source/data/DataManager.h:57 | the size is the number of registered names |
| DataManager.DataManager.HasNode | source/data/DataManager.h:61-63 | true exactly for a registered name |
| DataManager.DataManager.New | source/data/DataManager.h:66-70 | an unused name receives a fresh empty node, and the size grows by one |
| DataManager.DataManager.Delete | source/data/DataManager.h:74-77 | a registered name is removed, and the size shrinks by one |
| DataManager.DataManager.Get | source/data/DataManager.h:81-91 | the node returned is one of the registered nodes |
| DataManager.DataManager.AddData | source/data/DataManager.h:106-109 | the values go to the named node, and no other node's values change |
| DataManager.DataManager.ResetAll | source/data/DataManager.h:115-117 | every registered node is reset exactly once, and the registry is unchanged |
| DataManager.DataNode.constructor | source/data/DataManager.h:68 | a new node holds no values and has seen no reset |
| DataManager.DataNode.Add | source/data/DataManager.h:108 | the values are appended |
| DataManager.DataNode.Reset | source/data/DataManager.h:116 | the values are dropped, and the reset count grows by one |

## Left out

- The lexers (`EmphaticLexer`, `emp::Lexer`), file reading, and all printing are not modelled. This covers `PrintEcho`, `PrintOutput`, `PrintTokens`, `PrintLexerState`, `Debug` and `SetDebug`. The constructors take the token sequence directly.
- Error output and `exit(1)` are not modelled. A diagnostic is a returned value. The tree built before the abort is not kept, because the process ends.
- The `AST.h` node classes and their printing are not part of this model. Emphatic's tree is a sequence of `Node` values, and a namespace holds its children.
- EmphaticParse.Emphatic.Process: the source passes an uninitialised `pos` to `ProcessTop`. The model starts at token 0.
- EmphaticScan.ProcessSegment: for the "Expecting type" message, the source indexes `tokens[pos]` even at the end of input. The model uses `AsLexeme`, which is empty there.
- `ProcessElement` is an empty stub in the source, so it is not modelled.
- `RequireNumber`, `RequireString` and `RequireLexeme` have no caller in the core.
- EmphaticCode.CodeEnd: the specification function tracks only the depth of the stack of open brackets, while the method `ProcessCode` keeps the stack itself. The depth is enough because the source pops any opener on a closer without checking that the two match.
- EmphaticParse.ProcessFunction: the `RequireChar(')')` after the parameter list cannot fail, since the list stops only on `)`. It is kept as written.
- The web table's DOM side is not modelled: HTML generation, `ReplaceHTML`, activation, registration, CSS, attributes, listeners and the `Get*` facets. A child widget is an opaque handle or a text.
- WebTable.Table: the forwarding `ClearTable`, `ClearRows`, `ClearRow` and `ClearCell` of the handle are not repeated. Each calls the `TableInfo` method of the same name, which is modelled.
- WebTable.TableInfo.GetTextWidget: `AppendOK` of the last text child is a parameter, `appendable`.
- WebTable.Table.SetRowSpan, WebTable.Table.SetColSpan, WebTable.Table.SetSpans, WebTable.TableInfo.ClearRowCells, WebTable.TableInfo.ClearTableCells, WebTable.Table.Clear and WebTable.Table.ClearCells require the indices they touch to be in range. The source leaves those cases undefined.
- WebTable.TableInfo.OK and WebTable.Table.OK: the validator's messages are not modelled, only its verdict. Reads the source would make past the end of a short row are not modelled either; the verdict is false in those cases anyway.
- CodeGenDraft: `AST_Node` and `AST_Concept` are one class, `AstNode`, since only concept nodes are built. The empty concept loop that never ends is modelled as the outcome `Diverges`.
- meta.h: `run_and_ignore`, `EMP_EXPAND_PPACK`, the `test_type` family, `AdaptFunction`, `AdaptTemplate`, `AdaptTemplate_Arg1`, the `function_traits` helpers and `is_ptr_type` are not modelled. They are type-level metaprogramming with no run-time content to state.
- Meta.SumProductSplit: `tIntMath` works on `int`. The model's integers are unbounded. An overflow in these `constexpr` functions is a compile error, not a value.
- ConfigManager: the registration with `Config` (the three callbacks) and the message texts are not modelled. The reports are the boolean results `replaced`, `missing` and `ok`.
- ConfigManager.ConfigManager.NewObject: the `delete` of a replaced object is not modelled. The old object simply leaves the map.
- DataManager.DataNode: the node's modifiers (current value, range, archive) are not modelled. It is reduced to its values and a reset count.
- DataManager.DataManager.ResetAll: the nodes are reset in an unspecified order, not the map's key order. The result is the same because each name owns its own node.
- DataManager.DataManager.Delete: like the source, it does not destroy the node. The destructor and the `begin`/`end`/`GetNodes` accessors are not modelled.
