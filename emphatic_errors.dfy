/** The fatal diagnostics of the concept translator. The source prints the
    token position and a message and exits; here every diagnostic is a value
    naming what went wrong, and `Message` gives the text the source prints. */
module EmphaticErrors {
  import opened Wrappers

  datatype ErrorKind =
    | ExpectingType(found: string)
    | TemplateArgsNotClosed
    | ParamsNeedCommas
    | TemplateNeedsOpen
    | TemplateNeedsClose
    | StatementNeedsId(found: string)
    | BlockNeedsOpen(keyword: string)
    | BlockNeedsClose(keyword: string)
    | ClassNeedsSemicolon(keyword: string)
    | UsingNeedsName
    | UsingNeedsEquals
    | UnknownKeyword(keyword: string)
    | ConceptNeedsName
    | ConceptNeedsColon
    | ConceptNeedsBase
    | ConceptNeedsOpen
    | MemberNeedsId
    | MemberNeedsName
    | AssignNeedsId
    | AssignNotSpecial
    | AssignNeedsSemicolon(assign: string)
    | BodyNeedsClose(found: string)
    | BodyNeedsOpen
    | ConceptNeedsSemicolon

  /** A diagnostic: the token position the source reports, and what failed. */
  datatype ParseError = ParseError(pos: int, kind: ErrorKind)

  type Parse<T> = Result<T, ParseError>

  /** The failure reported at token `pos`. */
  function Fail<T>(pos: int, kind: ErrorKind): Parse<T> {
    Err(ParseError(pos, kind))
  }

  /** The text the source prints for each diagnostic. */
  function Message(kind: ErrorKind): string {
    match kind
    case ExpectingType(found) => "Expecting type, but found '" + found + "'."
    case TemplateArgsNotClosed => "Templates must end in a close angle bracket."
    case ParamsNeedCommas => "Parameters must be separated by commas."
    case TemplateNeedsOpen => "Templates must begin with a '<'"
    case TemplateNeedsClose => "Templates must end with a '>'"
    case StatementNeedsId(found) =>
      "Statements in outer scope must begin with an identifier or keyword.  (Found: " + found + ")."
    case BlockNeedsOpen(keyword) => "A " + keyword + " must be defined in braces ('{' and '}')."
    case BlockNeedsClose(keyword) => "The end of a " + keyword + " must have a close brace ('}')."
    case ClassNeedsSemicolon(keyword) => "A " + keyword + " must end with a semi-colon (';')."
    case UsingNeedsName => "A 'using' command must first specify the new type name."
    case UsingNeedsEquals => "A using statement must provide an equals ('=') to assign the type."
    case UnknownKeyword(keyword) => "Unknown keyword '" + keyword + "'.  Aborting."
    case ConceptNeedsName => "Concept declaration must be followed by name identifier."
    case ConceptNeedsColon => "Concept names must be followed by a colon (':')."
    case ConceptNeedsBase => "Concept declaration must include name of base class."
    case ConceptNeedsOpen => "Concepts must be defined in braces ('{' and '}')."
    case MemberNeedsId => "Concept members can be either functions, variables, or using-statements."
    case MemberNeedsName =>
      "Functions and variables in concept definition must provide identifier after type name."
    case AssignNeedsId => "Function must be assigned to 'required' or 'default'"
    case AssignNotSpecial => "Functions can only be set to 'required' or 'default'"
    case AssignNeedsSemicolon(assign) => assign + "functions must end in a semi-colon."
    case BodyNeedsClose(found) => "Function body must end with close brace ('}') not '" + found + "'."
    case BodyNeedsOpen => "Function body must begin with open brace or assignment ('{' or '=')"
    case ConceptNeedsSemicolon => "Concept definitions must end in a semi-colon."
  }
}
