/**
 * Running a mapper script (`MapperScript::eval`, `eval_with_context` and
 * `Statement::eval` in src/foundation/mapper.rs): statements run in order
 * against a variable store and a record, and the first failing field
 * assignment stops the run.
 */
module MapperExec {
  import opened Wrappers
  import opened MapperSyntax
  import opened MapperEval

  /** `MapperContext`: the variables of one run. */
  class MapperContext {
    var variables: map<string, EvalResult>

    constructor ()
      ensures variables == map[]
    {
      variables := map[];
    }

    /** `set_var` */
    method SetVar(name: string, value: EvalResult)
      modifies this
      ensures variables == old(variables)[name := value]
    {
      variables := variables[name := value];
    }
  }

  /** The record a script reads and writes, seen as its field texts. */
  class ValueAccessor {
    var fields: map<string, string>

    constructor (fields: map<string, string>)
      ensures this.fields == fields
    {
      this.fields := fields;
    }

    /** `set`: the field now holds `value`. */
    method Set(field: string, value: string)
      modifies this
      ensures fields == old(fields)[field := value]
    {
      fields := fields[field := value];
    }
  }

  /** The store, the record and the error, if any, after some statements. */
  datatype RunState = RunState(vars: map<string, EvalResult>, record: map<string, string>, error: Option<string>)

  /** `Statement::eval`: a variable takes any value; a field takes text, a number or a named value, ignores nothing and `_`, and a failure stops the run. */
  function ExecStatement(st: Statement, vars: map<string, EvalResult>, record: map<string, string>, b: Builtins): (s: RunState)
    ensures s.error.Some? <==> st.Assignment? && st.target.TargetField? && Eval(st.expr, vars, record, b).Failure?
    ensures s.error.Some? ==> s.vars == vars && s.record == record
  {
    match st
    case Assignment(TargetIdent(name), e) => RunState(vars[name := Eval(e, vars, record, b)], record, None)
    case Assignment(TargetField(name), e) =>
      (match Eval(e, vars, record, b)
       case Value(content) => RunState(vars, record[name := content], None)
       case Number(num) => RunState(vars, record[name := FormatNumber(num, b)], None)
       case Named(pairs) => RunState(vars, record[name := FormatNamed(pairs)], None)
       case Undefined => RunState(vars, record, None)
       case AnyValue => RunState(vars, record, None)
       case Failure(err) => RunState(vars, record, Some("Failed to set field " + name + " value: " + err)))
    case ExprStatement(_) => RunState(vars, record, None)
    case Comment => RunState(vars, record, None)
  }

  /**
   * `eval_with_context`: statements in order, stopping at the first error
   * with the state reached so far; only a field assignment can stop a run.
   */
  function ExecScript(stmts: seq<Statement>, vars: map<string, EvalResult>, record: map<string, string>, b: Builtins)
    : (r: RunState)
    ensures r.error.Some? ==> exists i | 0 <= i < |stmts| :: stmts[i].Assignment? && stmts[i].target.TargetField?
  {
    if stmts == [] then RunState(vars, record, None)
    else
      var s := ExecStatement(stmts[0], vars, record, b);
      if s.error.Some? then s
      else
        var r := ExecScript(stmts[1..], s.vars, s.record, b);
        assert r.error.Some? ==> stmts[1..] != [] && exists i | 1 <= i < |stmts| :: stmts[i].Assignment? && stmts[i].target.TargetField? by {
          if r.error.Some? {
            var i :| 0 <= i < |stmts[1..]| && stmts[1..][i].Assignment? && stmts[1..][i].target.TargetField?;
            assert stmts[i + 1] == stmts[1..][i];
          }
        }
        r
  }

  /** `Statement::eval` */
  method EvalStatement(st: Statement, ctx: MapperContext, setter: ValueAccessor, b: Builtins) returns (r: Result<(), string>)
    modifies ctx, setter
    ensures var s := ExecStatement(st, old(ctx.variables), old(setter.fields), b);
      ctx.variables == s.vars && setter.fields == s.record
      && (r.Ok? <==> s.error.None?) && (r.Err? ==> r.error == s.error.value)
  {
    match st {
      case Assignment(target, expr) =>
        var val := Eval(expr, ctx.variables, setter.fields, b);
        match target {
          case TargetIdent(name) =>
            ctx.SetVar(name, val);
          case TargetField(name) =>
            match val {
              case Value(content) => setter.Set(name, content);
              case Number(num) => setter.Set(name, FormatNumber(num, b));
              case Named(pairs) =>
                var result := "";
                var i := 0;
                while i < |pairs|
                  invariant 0 <= i <= |pairs|
                  invariant result == FormatNamedPrefix(pairs, i)
                {
                  result := result + pairs[i].0 + ": " + pairs[i].1;
                  if i < |pairs| - 1 {
                    result := result + ", ";
                  }
                  i := i + 1;
                }
                setter.Set(name, result);
              case Undefined =>
              case AnyValue =>
              case Failure(err) =>
                return Err("Failed to set field " + name + " value: " + err);
            }
        }
      case ExprStatement(expr) =>
      case Comment =>
    }
    return Ok(());
  }

  /** `eval_with_context` */
  method EvalWithContext(stmts: seq<Statement>, ctx: MapperContext, setter: ValueAccessor, b: Builtins)
    returns (r: Result<(), string>)
    modifies ctx, setter
    ensures var s := ExecScript(stmts, old(ctx.variables), old(setter.fields), b);
      ctx.variables == s.vars && setter.fields == s.record
      && (r.Ok? <==> s.error.None?) && (r.Err? ==> r.error == s.error.value)
  {
    var i := 0;
    while i < |stmts|
      invariant 0 <= i <= |stmts|
      invariant ExecScript(stmts, old(ctx.variables), old(setter.fields), b)
             == ExecScript(stmts[i..], ctx.variables, setter.fields, b)
    {
      assert stmts[i..][1..] == stmts[i + 1..];
      r := EvalStatement(stmts[i], ctx, setter, b);
      if r.Err? {
        return;
      }
      i := i + 1;
    }
    return Ok(());
  }

  /** `MapperScript::eval`: a run starts with no variables. */
  method EvalScript(stmts: seq<Statement>, setter: ValueAccessor, b: Builtins) returns (r: Result<(), string>)
    modifies setter
    ensures var s := ExecScript(stmts, map[], old(setter.fields), b);
      setter.fields == s.record && (r.Ok? <==> s.error.None?) && (r.Err? ==> r.error == s.error.value)
  {
    var ctx := new MapperContext();
    r := EvalWithContext(stmts, ctx, setter, b);
  }

  // ---------------------------------------------------------------------
  // Properties of a run
  // ---------------------------------------------------------------------

  /** The variables a run of statements assigns. */
  lemma {:induction false} ExecScriptVariables(stmts: seq<Statement>, vars: map<string, EvalResult>,
                                               record: map<string, string>, b: Builtins)
    ensures var s := ExecScript(stmts, vars, record, b);
      s.error.None? ==> s.vars.Keys == vars.Keys + Assigned(stmts)
  {
    if stmts != [] {
      var s0 := ExecStatement(stmts[0], vars, record, b);
      ExecStatementFrame(stmts[0], vars, record, b);
      if s0.error.None? {
        ExecScriptVariables(stmts[1..], s0.vars, s0.record, b);
      }
    }
  }

  /** One statement sets only its own variable and writes only its own field. */
  lemma ExecStatementFrame(st: Statement, vars: map<string, EvalResult>, record: map<string, string>, b: Builtins)
    ensures var s := ExecStatement(st, vars, record, b);
      var field := if st.Assignment? && st.target.TargetField? then {st.target.field} else {};
      && s.vars.Keys == vars.Keys + StatementTargets(st)
      && s.record.Keys <= record.Keys + field
      && forall f | f in record && f !in field :: f in s.record && s.record[f] == record[f]
  {
    if st.Assignment? && st.target.TargetField? {
      var name := st.target.field;
      match Eval(st.expr, vars, record, b)
      case Value(content) => WriteFrame(record, name, content);
      case Number(num) => WriteFrame(record, name, FormatNumber(num, b));
      case Named(pairs) => WriteFrame(record, name, FormatNamed(pairs));
      case Undefined =>
      case AnyValue =>
      case Failure(_) =>
    }
  }

  lemma WriteFrame(record: map<string, string>, name: string, text: string)
    ensures record[name := text].Keys <= record.Keys + {name}
    ensures forall f | f in record && f != name :: f in record[name := text] && record[name := text][f] == record[f]
  {
  }

  /** A run only writes the fields the script assigns; every other field keeps its text, error or not. */
  lemma {:induction false} ExecScriptFields(stmts: seq<Statement>, vars: map<string, EvalResult>,
                                            record: map<string, string>, b: Builtins)
    ensures var s := ExecScript(stmts, vars, record, b);
      s.record.Keys <= record.Keys + FieldTargets(stmts)
      && forall f | f in record && f !in FieldTargets(stmts) :: f in s.record && s.record[f] == record[f]
  {
    if stmts != [] {
      var s0 := ExecStatement(stmts[0], vars, record, b);
      ExecStatementFrame(stmts[0], vars, record, b);
      if s0.error.None? {
        ExecScriptFields(stmts[1..], s0.vars, s0.record, b);
      }
    }
  }

  /** A field assignment writes the same text `concat` makes of the value. */
  lemma FieldWriteRendersValue(field: string, e: Expression, vars: map<string, EvalResult>,
                               record: map<string, string>, b: Builtins)
    requires var v := Eval(e, vars, record, b); v.Value? || v.Number? || v.Named?
    ensures var s := ExecStatement(Assignment(TargetField(field), e), vars, record, b);
      s.error.None? && s.record == record[field := Render(Eval(e, vars, record, b), b)]
  {
    RenderValues(Eval(e, vars, record, b), b);
  }

  /** A field assignment of nothing or of `_` changes neither the record nor the variables, and the run goes on. */
  lemma FieldWriteIgnoresUndefined(field: string, e: Expression, vars: map<string, EvalResult>,
                                   record: map<string, string>, b: Builtins)
    requires var v := Eval(e, vars, record, b); v.Undefined? || v.AnyValue?
    ensures ExecStatement(Assignment(TargetField(field), e), vars, record, b) == RunState(vars, record, None)
  {
  }
  /**
   * A variable assignment stores the expression's value: a later statement
   * that reads the variable sees that value, whatever it is, and a field
   * assigned from it receives its rendering.
   */
  lemma VariableAssignmentStores(x: string, e: Expression, f: string,
                                  vars: map<string, EvalResult>, record: map<string, string>, b: Builtins)
    requires var v := Eval(e, vars, record, b); v.Value? || v.Number? || v.Named?
    ensures var s := ExecStatement(Assignment(TargetIdent(x), e), vars, record, b);
      s.error.None? && s.record == record && x in s.vars && s.vars[x] == Eval(e, vars, record, b)
      && Eval(Identifier(x), s.vars, s.record, b) == Eval(e, vars, record, b)
    ensures ExecScript([Assignment(TargetIdent(x), e), Assignment(TargetField(f), Identifier(x))], vars, record, b)
         == RunState(vars[x := Eval(e, vars, record, b)], record[f := Render(Eval(e, vars, record, b), b)], None)
  {
    var v := Eval(e, vars, record, b);
    var stmts := [Assignment(TargetIdent(x), e), Assignment(TargetField(f), Identifier(x))];
    var s := ExecStatement(stmts[0], vars, record, b);
    assert s == RunState(vars[x := v], record, None);
    assert Eval(Identifier(x), s.vars, s.record, b) == v;
    FieldWriteRendersValue(f, Identifier(x), s.vars, s.record, b);
    var t := ExecStatement(stmts[1], s.vars, s.record, b);
    assert stmts[1..][1..] == [];
    assert ExecScript(stmts[1..], s.vars, s.record, b) == ExecScript(stmts[1..][1..], t.vars, t.record, b);
  }
}
