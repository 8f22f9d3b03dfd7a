/**
 * The syntax tree of the mapper DSL (src/foundation/mapper.rs), as the pest
 * parser leaves it, and the one check the parser itself makes on it.
 */
module MapperSyntax {
  import opened Wrappers

  /** A key of a `match` case: a variable name or `_`. */
  datatype MatchCaseKey = KeyIdent(ident: string) | KeyAny

  /** A key of a `map` case: a text, a numeric range or `_`. */
  datatype MapCaseKey =
    | TextKey(text: string)
    | RangeFrom(from: real)
    | RangeTo(to: real)
    | RangeFull(lo: real, hi: real)
    | RangeEq(num: real)
    | AnyKey

  datatype BuiltInFunction = Concat | Uppercase | Lowercase | Capitalize | Trim | Print | ToNumber

  /** What a regular expression is matched against: a variable or a record field. */
  datatype RegexSource = SourceIdent(name: string) | SourceField(field: string)

  datatype Expression =
    | Identifier(name: string)
    | StringLiteral(literal: string)
    | NumberLiteral(number: real)
    | FieldAccess(field: string)
    | VarAccess(varName: string, member: string)
    | RegexExpr(source: RegexSource, pattern: string)
    | FunctionCall(fn: BuiltInFunction, args: seq<Expression>)
    | MatchBlock(cases: seq<MatchCase>)
    | MapBlock(key: string, mapCases: seq<MapCase>)
    | NullValue

  datatype MatchCase = MatchCase(keys: seq<MatchCaseKey>, expression: Expression)

  datatype MapCase = MapCase(mapKeys: seq<MapCaseKey>, result: Expression)

  datatype AssignmentTarget = TargetIdent(name: string) | TargetField(field: string)

  datatype Statement =
    | Assignment(target: AssignmentTarget, expr: Expression)
    | ExprStatement(e: Expression)
    | Comment

  /** The variable an assignment target introduces, if any. */
  function TargetNames(t: AssignmentTarget): set<string> {
    match t
    case TargetIdent(n) => {n}
    case TargetField(_) => {}
  }

  function StatementTargets(st: Statement): set<string> {
    if st.Assignment? then TargetNames(st.target) else {}
  }

  /** The variables a run of statements assigns. */
  function Assigned(stmts: seq<Statement>): set<string> {
    if stmts == [] then {} else StatementTargets(stmts[0]) + Assigned(stmts[1..])
  }

  /** The record fields a run of statements may write. */
  function FieldTargets(stmts: seq<Statement>): set<string> {
    if stmts == [] then {}
    else
      (if stmts[0].Assignment? && stmts[0].target.TargetField? then {stmts[0].target.field} else {})
      + FieldTargets(stmts[1..])
  }

  /** `parse_match_case`: a parenthesised key list of more than one key may not contain `_`. */
  function CheckMatchKeyList(keys: seq<MatchCaseKey>): (r: Result<seq<MatchCaseKey>, string>)
    ensures r.Ok? <==> |keys| <= 1 || KeyAny !in keys
    ensures r.Ok? ==> r.value == keys
  {
    if |keys| > 1 && exists k | k in keys :: k.KeyAny? then Err("Unexpected match case key: _")
    else Ok(keys)
  }
}
