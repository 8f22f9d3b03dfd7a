/**
 * The static check a mapper script passes before it is accepted
 * (`MapperScript::validate` / `validate_expr` in src/foundation/mapper.rs).
 *
 * `Check*` are the checker as a function, scanning in the source's order and
 * reporting the first problem it meets; `ValidateExpr` and `Validate` are the
 * loops of the source, proved equal to it. `Refs`, `WellFormed` and
 * `ScriptValid` say declaratively what a script the checker accepts looks
 * like, and `CheckStatementsSpec` proves the two views agree.
 */
module MapperValidate {
  import opened Wrappers
  import opened MapperSyntax

  datatype ValidationError =
    | UnknownIdentifier(name: string)
    | MatchCaseMultipleAny
    | DuplicateMatchCase(caseKey: string)
    | MapCaseMultipleAny
    | DuplicateMapCase(text: string)
    | InvalidRange(rangeFrom: real, rangeTo: real)

  // ---------------------------------------------------------------------
  // The checker, in scanning order
  // ---------------------------------------------------------------------

  /** The text one key adds to a match case's duplicate-detection key. */
  function KeyText(k: MatchCaseKey): string {
    match k
    case KeyIdent(n) => n + ", "
    case KeyAny => "_, "
  }

  function CheckExpr(e: Expression, known: set<string>): Result<(), ValidationError>
    decreases e
  {
    match e
    case Identifier(name) => if name in known then Ok(()) else Err(UnknownIdentifier(name))
    case VarAccess(name, _) => if name in known then Ok(()) else Err(UnknownIdentifier(name))
    case NullValue => Ok(())
    case FieldAccess(_) => Ok(())
    case StringLiteral(_) => Ok(())
    case NumberLiteral(_) => Ok(())
    case RegexExpr(source, _) =>
      (match source
       case SourceIdent(name) => if name in known then Ok(()) else Err(UnknownIdentifier(name))
       case SourceField(_) => Ok(()))
    case FunctionCall(_, args) => CheckArgs(args, known)
    case MatchBlock(cases) => CheckMatchCases(cases, known, {})
    case MapBlock(key, cases) =>
      if key !in known then Err(UnknownIdentifier(key)) else CheckMapCases(cases, known, {}, 0)
  }

  function CheckArgs(args: seq<Expression>, known: set<string>): Result<(), ValidationError>
    decreases args
  {
    if args == [] then Ok(())
    else match CheckExpr(args[0], known)
      case Err(x) => Err(x)
      case Ok(_) => CheckArgs(args[1..], known)
  }

  /** One match case's keys, with the case's running `_` count and key text. */
  function CheckMatchKeys(keys: seq<MatchCaseKey>, known: set<string>, anyCount: nat, keyText: string)
    : Result<string, ValidationError>
  {
    if keys == [] then Ok(keyText)
    else match keys[0]
      case KeyIdent(n) =>
        if n !in known then Err(UnknownIdentifier(n))
        else CheckMatchKeys(keys[1..], known, anyCount, keyText + KeyText(keys[0]))
      case KeyAny =>
        if anyCount + 1 > 1 then Err(MatchCaseMultipleAny)
        else CheckMatchKeys(keys[1..], known, anyCount + 1, keyText + KeyText(keys[0]))
  }

  function CheckMatchCases(cases: seq<MatchCase>, known: set<string>, seen: set<string>)
    : Result<(), ValidationError>
    decreases cases
  {
    if cases == [] then Ok(())
    else match CheckMatchKeys(cases[0].keys, known, 0, "")
      case Err(x) => Err(x)
      case Ok(key) =>
        if key in seen then Err(DuplicateMatchCase(key))
        else match CheckExpr(cases[0].expression, known)
          case Err(x) => Err(x)
          case Ok(_) => CheckMatchCases(cases[1..], known, seen + {key})
  }

  /** One map case's keys, with the texts seen so far in the block and the block's `_` count. */
  function CheckMapKeys(keys: seq<MapCaseKey>, texts: set<string>, anyCount: nat)
    : Result<(set<string>, nat), ValidationError>
  {
    if keys == [] then Ok((texts, anyCount))
    else match keys[0]
      case TextKey(t) =>
        if t in texts then Err(DuplicateMapCase(t)) else CheckMapKeys(keys[1..], texts + {t}, anyCount)
      case RangeFull(lo, hi) =>
        if lo > hi then Err(InvalidRange(lo, hi)) else CheckMapKeys(keys[1..], texts, anyCount)
      case AnyKey =>
        if anyCount + 1 > 1 then Err(MapCaseMultipleAny) else CheckMapKeys(keys[1..], texts, anyCount + 1)
      case RangeFrom(_) => CheckMapKeys(keys[1..], texts, anyCount)
      case RangeTo(_) => CheckMapKeys(keys[1..], texts, anyCount)
      case RangeEq(_) => CheckMapKeys(keys[1..], texts, anyCount)
  }

  function CheckMapCases(cases: seq<MapCase>, known: set<string>, texts: set<string>, anyCount: nat)
    : Result<(), ValidationError>
    decreases cases
  {
    if cases == [] then Ok(())
    else match CheckMapKeys(cases[0].mapKeys, texts, anyCount)
      case Err(x) => Err(x)
      case Ok(after) =>
        match CheckExpr(cases[0].result, known)
        case Err(x) => Err(x)
        case Ok(_) => CheckMapCases(cases[1..], known, after.0, after.1)
  }

  /** Statements in order; an assignment's own target is known while its value is checked. */
  function CheckStatements(stmts: seq<Statement>, known: set<string>): Result<(), ValidationError>
  {
    if stmts == [] then Ok(())
    else match stmts[0]
      case Assignment(target, expr) =>
        (match CheckExpr(expr, known + TargetNames(target))
         case Err(x) => Err(x)
         case Ok(_) => CheckStatements(stmts[1..], known + TargetNames(target)))
      case ExprStatement(expr) =>
        (match CheckExpr(expr, known)
         case Err(x) => Err(x)
         case Ok(_) => CheckStatements(stmts[1..], known))
      case Comment => CheckStatements(stmts[1..], known)
  }

  // ---------------------------------------------------------------------
  // The checker as the source writes it
  // ---------------------------------------------------------------------

  /** `validate_expr`: loops over arguments, cases and keys with local key sets and `_` counters. */
  method ValidateExpr(e: Expression, identifiers: set<string>) returns (r: Result<(), ValidationError>)
    ensures r == CheckExpr(e, identifiers)
    decreases e
  {
    match e {
      case Identifier(ident) =>
        if ident !in identifiers { return Err(UnknownIdentifier(ident)); }
      case VarAccess(ident, _) =>
        if ident !in identifiers { return Err(UnknownIdentifier(ident)); }
      case NullValue =>
      case FieldAccess(_) =>
      case StringLiteral(_) =>
      case NumberLiteral(_) =>
      case RegexExpr(source, _) =>
        if source.SourceIdent? && source.name !in identifiers {
          return Err(UnknownIdentifier(source.name));
        }
      case FunctionCall(_, args) =>
        var i := 0;
        while i < |args|
          invariant 0 <= i <= |args|
          invariant CheckArgs(args, identifiers) == CheckArgs(args[i..], identifiers)
        {
          assert args[i..][1..] == args[i + 1..];
          var sub := ValidateExpr(args[i], identifiers);
          if sub.Err? { return sub; }
          i := i + 1;
        }
      case MatchBlock(cases) =>
        var caseKeys: set<string> := {};
        var c := 0;
        while c < |cases|
          invariant 0 <= c <= |cases|
          invariant CheckMatchCases(cases, identifiers, {}) == CheckMatchCases(cases[c..], identifiers, caseKeys)
        {
          assert cases[c..][1..] == cases[c + 1..];
          var matchCase := cases[c];
          var keyed := ValidateMatchKeys(matchCase.keys, identifiers);
          if keyed.Err? { return Err(keyed.error); }
          var identifierKey := keyed.value;
          if identifierKey in caseKeys { return Err(DuplicateMatchCase(identifierKey)); }
          caseKeys := caseKeys + {identifierKey};
          var sub := ValidateExpr(matchCase.expression, identifiers);
          if sub.Err? { return sub; }
          c := c + 1;
        }
      case MapBlock(key, cases) =>
        if key !in identifiers { return Err(UnknownIdentifier(key)); }
        var caseKeys: set<string> := {};
        var anyMatchCount: nat := 0;
        var c := 0;
        while c < |cases|
          invariant 0 <= c <= |cases|
          invariant CheckMapCases(cases, identifiers, {}, 0)
                 == CheckMapCases(cases[c..], identifiers, caseKeys, anyMatchCount)
        {
          assert cases[c..][1..] == cases[c + 1..];
          var mapCase := cases[c];
          var keyed := ValidateMapKeys(mapCase.mapKeys, caseKeys, anyMatchCount);
          if keyed.Err? { return Err(keyed.error); }
          caseKeys, anyMatchCount := keyed.value.0, keyed.value.1;
          var sub := ValidateExpr(mapCase.result, identifiers);
          if sub.Err? { return sub; }
          c := c + 1;
        }
    }
    return Ok(());
  }

  /** The key loop of one match case: its keys must be known, with at most one `_`. */
  method ValidateMatchKeys(keys: seq<MatchCaseKey>, identifiers: set<string>)
    returns (r: Result<string, ValidationError>)
    ensures r == CheckMatchKeys(keys, identifiers, 0, "")
  {
    var anyMatchCount := 0;
    var identifierKey := "";
    var k := 0;
    while k < |keys|
      invariant 0 <= k <= |keys| && anyMatchCount <= 1
      invariant CheckMatchKeys(keys, identifiers, 0, "")
             == CheckMatchKeys(keys[k..], identifiers, anyMatchCount, identifierKey)
    {
      assert keys[k..][1..] == keys[k + 1..];
      match keys[k] {
        case KeyIdent(ident) =>
          if ident !in identifiers { return Err(UnknownIdentifier(ident)); }
          assert identifierKey + ident + ", " == identifierKey + KeyText(keys[k]);
          identifierKey := identifierKey + ident + ", ";
        case KeyAny =>
          anyMatchCount := anyMatchCount + 1;
          if anyMatchCount > 1 { return Err(MatchCaseMultipleAny); }
          identifierKey := identifierKey + "_, ";
      }
      k := k + 1;
    }
    return Ok(identifierKey);
  }

  /** The key loop of one map case, extending the block's text keys and `_` count. */
  method ValidateMapKeys(keys: seq<MapCaseKey>, caseKeys: set<string>, anyCount: nat)
    returns (r: Result<(set<string>, nat), ValidationError>)
    ensures r == CheckMapKeys(keys, caseKeys, anyCount)
  {
    var texts := caseKeys;
    var anyMatchCount := anyCount;
    var k := 0;
    while k < |keys|
      invariant 0 <= k <= |keys|
      invariant CheckMapKeys(keys, caseKeys, anyCount) == CheckMapKeys(keys[k..], texts, anyMatchCount)
    {
      assert keys[k..][1..] == keys[k + 1..];
      match keys[k] {
        case TextKey(value) =>
          if value in texts { return Err(DuplicateMapCase(value)); }
          texts := texts + {value};
        case RangeFull(from, to) =>
          if from > to { return Err(InvalidRange(from, to)); }
        case AnyKey =>
          anyMatchCount := anyMatchCount + 1;
          if anyMatchCount > 1 { return Err(MapCaseMultipleAny); }
        case RangeFrom(_) =>
        case RangeTo(_) =>
        case RangeEq(_) =>
      }
      k := k + 1;
    }
    return Ok((texts, anyMatchCount));
  }

  /** `validate`: an assignment adds its target to the known identifiers before its value is checked. */
  method Validate(statements: seq<Statement>) returns (r: Result<(), ValidationError>)
    ensures r == CheckStatements(statements, {})
  {
    var identifiers: set<string> := {};
    var i := 0;
    while i < |statements|
      invariant 0 <= i <= |statements|
      invariant CheckStatements(statements, {}) == CheckStatements(statements[i..], identifiers)
    {
      assert statements[i..][1..] == statements[i + 1..];
      match statements[i] {
        case Assignment(target, value) =>
          if target.TargetIdent? {
            identifiers := identifiers + {target.name};
          } else {
            assert identifiers + TargetNames(target) == identifiers;
          }
          var sub := ValidateExpr(value, identifiers);
          if sub.Err? { return sub; }
        case ExprStatement(expr) =>
          var sub := ValidateExpr(expr, identifiers);
          if sub.Err? { return sub; }
        case Comment =>
      }
      i := i + 1;
    }
    return Ok(());
  }

  // ---------------------------------------------------------------------
  // What an accepted script looks like
  // ---------------------------------------------------------------------

  /** The variables an expression reads. */
  function Refs(e: Expression): set<string>
    decreases e
  {
    match e
    case Identifier(n) => {n}
    case VarAccess(n, _) => {n}
    case RegexExpr(source, _) => (if source.SourceIdent? then {source.name} else {})
    case FunctionCall(_, args) => ArgsRefs(args)
    case MatchBlock(cases) => MatchRefs(cases)
    case MapBlock(key, cases) => {key} + MapRefs(cases)
    case StringLiteral(_) => {}
    case NumberLiteral(_) => {}
    case FieldAccess(_) => {}
    case NullValue => {}
  }

  function ArgsRefs(args: seq<Expression>): set<string>
    decreases args
  {
    if args == [] then {} else Refs(args[0]) + ArgsRefs(args[1..])
  }

  function KeyRefs(keys: seq<MatchCaseKey>): set<string> {
    if keys == [] then {}
    else (if keys[0].KeyIdent? then {keys[0].ident} else {}) + KeyRefs(keys[1..])
  }

  function MatchRefs(cases: seq<MatchCase>): set<string>
    decreases cases
  {
    if cases == [] then {}
    else KeyRefs(cases[0].keys) + Refs(cases[0].expression) + MatchRefs(cases[1..])
  }

  function MapRefs(cases: seq<MapCase>): set<string>
    decreases cases
  {
    if cases == [] then {} else Refs(cases[0].result) + MapRefs(cases[1..])
  }

  /** How many `_` keys a match case has. */
  function AnyCount(keys: seq<MatchCaseKey>): nat {
    if keys == [] then 0 else (if keys[0].KeyAny? then 1 else 0) + AnyCount(keys[1..])
  }

  /** The text that identifies a match case's key list. */
  function KeyString(keys: seq<MatchCaseKey>): string {
    if keys == [] then "" else KeyText(keys[0]) + KeyString(keys[1..])
  }

  function MapKeyAnyCount(keys: seq<MapCaseKey>): nat {
    if keys == [] then 0 else (if keys[0].AnyKey? then 1 else 0) + MapKeyAnyCount(keys[1..])
  }

  /** The text keys of one map case, in order. */
  function KeyTexts(keys: seq<MapCaseKey>): seq<string> {
    if keys == [] then [] else (if keys[0].TextKey? then [keys[0].text] else []) + KeyTexts(keys[1..])
  }

  predicate RangesOrdered(keys: seq<MapCaseKey>) {
    forall k | k in keys && k.RangeFull? :: k.lo <= k.hi
  }

  function MapTexts(cases: seq<MapCase>): seq<string> {
    if cases == [] then [] else KeyTexts(cases[0].mapKeys) + MapTexts(cases[1..])
  }

  function MapAnyCount(cases: seq<MapCase>): nat {
    if cases == [] then 0 else MapKeyAnyCount(cases[0].mapKeys) + MapAnyCount(cases[1..])
  }

  predicate NoDuplicates(s: seq<string>) {
    forall i, j | 0 <= i < j < |s| :: s[i] != s[j]
  }

  /** The key texts of a match block's cases, in order. */
  function CaseKeyStrings(cases: seq<MatchCase>): seq<string> {
    if cases == [] then [] else [KeyString(cases[0].keys)] + CaseKeyStrings(cases[1..])
  }

  /** No two cases of a match block have the same key list text. */
  predicate DistinctCaseKeys(cases: seq<MatchCase>) {
    NoDuplicates(CaseKeyStrings(cases))
  }

  /**
   * The shape rules: a match case has at most one `_` and no two match cases
   * of a block have the same key list; within a map block no text key
   * repeats, at most one `_` appears and every closed range is ordered.
   */
  predicate WellFormed(e: Expression)
    decreases e
  {
    match e
    case FunctionCall(_, args) => ArgsWellFormed(args)
    case MatchBlock(cases) => MatchCasesWellFormed(cases) && DistinctCaseKeys(cases)
    case MapBlock(_, cases) =>
      MapCasesWellFormed(cases) && NoDuplicates(MapTexts(cases)) && MapAnyCount(cases) <= 1
    case Identifier(_) => true
    case VarAccess(_, _) => true
    case RegexExpr(_, _) => true
    case StringLiteral(_) => true
    case NumberLiteral(_) => true
    case FieldAccess(_) => true
    case NullValue => true
  }

  predicate ArgsWellFormed(args: seq<Expression>)
    decreases args
  {
    args == [] || (WellFormed(args[0]) && ArgsWellFormed(args[1..]))
  }

  predicate MatchCasesWellFormed(cases: seq<MatchCase>)
    decreases cases
  {
    cases == []
    || (AnyCount(cases[0].keys) <= 1 && WellFormed(cases[0].expression) && MatchCasesWellFormed(cases[1..]))
  }

  predicate MapCasesWellFormed(cases: seq<MapCase>)
    decreases cases
  {
    cases == []
    || (RangesOrdered(cases[0].mapKeys) && WellFormed(cases[0].result) && MapCasesWellFormed(cases[1..]))
  }

  /** A statement may read the variables assigned before it, and an assignment also its own target. */
  predicate StatementValid(st: Statement, before: set<string>) {
    match st
    case Assignment(target, e) => Refs(e) <= before + TargetNames(target) && WellFormed(e)
    case ExprStatement(e) => Refs(e) <= before && WellFormed(e)
    case Comment => true
  }

  predicate ScriptValid(stmts: seq<Statement>, known: set<string>) {
    forall i | 0 <= i < |stmts| :: StatementValid(stmts[i], known + Assigned(stmts[..i]))
  }

  // ---------------------------------------------------------------------
  // The checker accepts exactly the valid scripts
  // ---------------------------------------------------------------------

  lemma NoDuplicatesAppend(a: seq<string>, b: seq<string>)
    ensures NoDuplicates(a + b) <==> NoDuplicates(a) && NoDuplicates(b) && (forall x | x in a :: x !in b)
  {
    var s := a + b;
    if NoDuplicates(s) {
      forall i, j | 0 <= i < j < |a| ensures a[i] != a[j] {
        assert s[i] == a[i] && s[j] == a[j];
      }
      forall x | x in a ensures x !in b {
        var i :| 0 <= i < |a| && a[i] == x;
        forall j | 0 <= j < |b| ensures b[j] != x {
          assert s[i] == x && s[|a| + j] == b[j];
        }
      }
      forall i, j | 0 <= i < j < |b| ensures b[i] != b[j] {
        assert s[|a| + i] == b[i] && s[|a| + j] == b[j];
      }
    }
    if NoDuplicates(a) && NoDuplicates(b) && (forall x | x in a :: x !in b) {
      forall i, j | 0 <= i < j < |s| ensures s[i] != s[j] {
        if j < |a| {
          assert s[i] == a[i] && s[j] == a[j];
        } else if i < |a| {
          assert s[i] == a[i] && s[j] == b[j - |a|];
          assert a[i] in a && b[j - |a|] in b;
        } else {
          assert s[i] == b[i - |a|] && s[j] == b[j - |a|];
        }
      }
    }
  }

  lemma {:induction false} CheckMatchKeysSpec(keys: seq<MatchCaseKey>, known: set<string>, anyCount: nat, keyText: string)
    requires anyCount <= 1
    ensures CheckMatchKeys(keys, known, anyCount, keyText).Ok?
        <==> KeyRefs(keys) <= known && anyCount + AnyCount(keys) <= 1
    ensures CheckMatchKeys(keys, known, anyCount, keyText).Ok?
        ==> CheckMatchKeys(keys, known, anyCount, keyText).value == keyText + KeyString(keys)
  {
    if keys != [] {
      match keys[0] {
        case KeyIdent(n) =>
          if n in known {
            CheckMatchKeysSpec(keys[1..], known, anyCount, keyText + KeyText(keys[0]));
          }
        case KeyAny =>
          if anyCount == 0 {
            CheckMatchKeysSpec(keys[1..], known, anyCount + 1, keyText + KeyText(keys[0]));
          }
      }
    }
  }

  function Elems(s: seq<string>): set<string> {
    set x | x in s
  }

  /** How the facts about a map case's keys split at the first key. */
  lemma MapKeysCons(keys: seq<MapCaseKey>)
    requires keys != []
    ensures RangesOrdered(keys) <==> (keys[0].RangeFull? ==> keys[0].lo <= keys[0].hi) && RangesOrdered(keys[1..])
    ensures KeyTexts(keys) == (if keys[0].TextKey? then [keys[0].text] else []) + KeyTexts(keys[1..])
    ensures NoDuplicates(KeyTexts(keys))
        <==> NoDuplicates(KeyTexts(keys[1..])) && (keys[0].TextKey? ==> keys[0].text !in KeyTexts(keys[1..]))
    ensures Elems(KeyTexts(keys)) == (if keys[0].TextKey? then {keys[0].text} else {}) + Elems(KeyTexts(keys[1..]))
    ensures MapKeyAnyCount(keys) == (if keys[0].AnyKey? then 1 else 0) + MapKeyAnyCount(keys[1..])
  {
    var rest := keys[1..];
    assert keys == [keys[0]] + rest;
    var head := if keys[0].TextKey? then [keys[0].text] else [];
    NoDuplicatesAppend(head, KeyTexts(rest));
    assert Elems(KeyTexts(keys)) == Elems(head) + Elems(KeyTexts(rest));
  }

  lemma {:induction false} CheckMapKeysSpec(keys: seq<MapCaseKey>, texts: set<string>, anyCount: nat)
    requires anyCount <= 1
    ensures CheckMapKeys(keys, texts, anyCount).Ok?
        <==> anyCount + MapKeyAnyCount(keys) <= 1 && RangesOrdered(keys)
             && NoDuplicates(KeyTexts(keys)) && (forall t | t in KeyTexts(keys) :: t !in texts)
    ensures CheckMapKeys(keys, texts, anyCount).Ok?
        ==> CheckMapKeys(keys, texts, anyCount).value.0 == texts + Elems(KeyTexts(keys))
            && CheckMapKeys(keys, texts, anyCount).value.1 == anyCount + MapKeyAnyCount(keys)
  {
    if keys != [] {
      var rest := keys[1..];
      MapKeysCons(keys);
      match keys[0] {
        case TextKey(t) =>
          if t !in texts {
            CheckMapKeysSpec(rest, texts + {t}, anyCount);
          }
        case RangeFull(lo, hi) =>
          if lo <= hi {
            CheckMapKeysSpec(rest, texts, anyCount);
          }
        case AnyKey =>
          if anyCount == 0 {
            CheckMapKeysSpec(rest, texts, anyCount + 1);
          }
        case RangeFrom(_) =>
          CheckMapKeysSpec(rest, texts, anyCount);
        case RangeTo(_) =>
          CheckMapKeysSpec(rest, texts, anyCount);
        case RangeEq(_) =>
          CheckMapKeysSpec(rest, texts, anyCount);
      }
    } else {
      assert Elems(KeyTexts(keys)) == {};
    }
  }

  /** An expression passes the checker exactly when it reads only known variables and is well formed. */
  lemma {:induction false} CheckExprSpec(e: Expression, known: set<string>)
    ensures CheckExpr(e, known).Ok? <==> Refs(e) <= known && WellFormed(e)
    decreases e
  {
    match e {
      case FunctionCall(_, args) => CheckArgsSpec(args, known);
      case MatchBlock(cases) => CheckMatchCasesSpec(cases, known, {});
      case MapBlock(key, cases) => CheckMapCasesSpec(cases, known, {}, 0);
      case Identifier(_) =>
      case VarAccess(_, _) =>
      case RegexExpr(_, _) =>
      case StringLiteral(_) =>
      case NumberLiteral(_) =>
      case FieldAccess(_) =>
      case NullValue =>
    }
  }

  lemma {:induction false} CheckArgsSpec(args: seq<Expression>, known: set<string>)
    ensures CheckArgs(args, known).Ok? <==> ArgsRefs(args) <= known && ArgsWellFormed(args)
    decreases args
  {
    if args != [] {
      CheckExprSpec(args[0], known);
      CheckArgsSpec(args[1..], known);
    }
  }

  lemma {:induction false} CheckMatchCasesSpec(cases: seq<MatchCase>, known: set<string>, seen: set<string>)
    ensures CheckMatchCases(cases, known, seen).Ok?
        <==> MatchRefs(cases) <= known && MatchCasesWellFormed(cases) && DistinctCaseKeys(cases)
             && (forall k | k in CaseKeyStrings(cases) :: k !in seen)
    decreases cases
  {
    if cases != [] {
      var c0, rest := cases[0], cases[1..];
      CheckMatchKeysSpec(c0.keys, known, 0, "");
      assert "" + KeyString(c0.keys) == KeyString(c0.keys);
      var key := KeyString(c0.keys);
      CheckExprSpec(c0.expression, known);
      CheckMatchCasesSpec(rest, known, seen + {key});
      NoDuplicatesAppend([key], CaseKeyStrings(rest));
    }
  }

  lemma {:induction false} CheckMapCasesSpec(cases: seq<MapCase>, known: set<string>, texts: set<string>, anyCount: nat)
    requires anyCount <= 1
    ensures CheckMapCases(cases, known, texts, anyCount).Ok?
        <==> MapRefs(cases) <= known && MapCasesWellFormed(cases) && NoDuplicates(MapTexts(cases))
             && (forall t | t in MapTexts(cases) :: t !in texts) && anyCount + MapAnyCount(cases) <= 1
    decreases cases
  {
    if cases != [] {
      var c0, rest := cases[0], cases[1..];
      CheckMapKeysSpec(c0.mapKeys, texts, anyCount);
      NoDuplicatesAppend(KeyTexts(c0.mapKeys), MapTexts(rest));
      CheckExprSpec(c0.result, known);
      if CheckMapKeys(c0.mapKeys, texts, anyCount).Ok? {
        var after := CheckMapKeys(c0.mapKeys, texts, anyCount).value;
        CheckMapCasesSpec(rest, known, after.0, after.1);
      }
    }
  }

  /** A script passes the checker exactly when every statement is valid given the variables assigned before it. */
  lemma {:induction false} CheckStatementsSpec(stmts: seq<Statement>, known: set<string>)
    ensures CheckStatements(stmts, known).Ok? <==> ScriptValid(stmts, known)
  {
    if stmts != [] {
      var s0, rest := stmts[0], stmts[1..];
      var known' := known + StatementTargets(s0);
      CheckStatementsSpec(rest, known');
      if s0.Assignment? {
        CheckExprSpec(s0.expr, known');
      } else if s0.ExprStatement? {
        CheckExprSpec(s0.e, known);
      }
      assert Assigned(stmts[..0]) == {};
      assert known + Assigned(stmts[..0]) == known;
      forall i | 0 <= i < |rest|
        ensures known + Assigned(stmts[..i + 1]) == known' + Assigned(rest[..i])
      {
        assert stmts[..i + 1][1..] == rest[..i];
      }
      assert ScriptValid(stmts, known)
        <==> StatementValid(s0, known) && ScriptValid(rest, known') by {
        if StatementValid(s0, known) && ScriptValid(rest, known') {
          forall i | 0 <= i < |stmts| ensures StatementValid(stmts[i], known + Assigned(stmts[..i])) {
            if i > 0 { assert stmts[i] == rest[i - 1]; }
          }
        }
        if ScriptValid(stmts, known) {
          forall i | 0 <= i < |rest| ensures StatementValid(rest[i], known' + Assigned(rest[..i])) {
            assert rest[i] == stmts[i + 1];
          }
        }
      }
    }
  }

  /** `validate` accepts a script exactly when every statement reads only variables assigned before it (or its own target) and is well formed. */
  lemma ValidateAccepts(stmts: seq<Statement>)
    ensures CheckStatements(stmts, {}).Ok? <==> ScriptValid(stmts, {})
  {
    CheckStatementsSpec(stmts, {});
  }

  // ---------------------------------------------------------------------
  // The duplicate-case key text identifies the key list
  // ---------------------------------------------------------------------

  predicate NoComma(s: string) {
    forall k | 0 <= k < |s| :: s[k] != ','
  }

  /** What the grammar allows as a match-case identifier: no comma (only ASCII alphanumerics and `_`), and not `_` alone. */
  predicate GrammarIdent(s: string) {
    s != "_" && NoComma(s)
  }

  predicate GrammarKeys(keys: seq<MatchCaseKey>) {
    forall i | 0 <= i < |keys| :: keys[i].KeyIdent? ==> GrammarIdent(keys[i].ident)
  }

  function KeyName(k: MatchCaseKey): string {
    if k.KeyIdent? then k.ident else "_"
  }

  lemma SplitAtComma(x: string, xs: string, y: string, ys: string)
    requires NoComma(x) && NoComma(y)
    requires x + ", " + xs == y + ", " + ys
    ensures x == y && xs == ys
  {
    var l := x + ", " + xs;
    assert forall k | 0 <= k < |x| :: l[k] == x[k];
    assert forall k | 0 <= k < |y| :: l[k] == y[k];
    assert l[|x|] == ',' && l[|y|] == ',';
    assert |x| == |y|;
    assert x == l[..|x|] && y == l[..|y|];
    assert xs == l[|x| + 2..] && ys == l[|y| + 2..];
  }

  lemma KeyStringEmpty(a: seq<MatchCaseKey>)
    ensures KeyString(a) == "" <==> a == []
  {
    if a != [] {
      assert |KeyString(a)| >= |KeyText(a[0])| >= 2;
    }
  }

  /** With grammar identifiers, two match cases get the same duplicate-detection key only when their key lists are equal. */
  lemma {:induction false} KeyStringInjective(a: seq<MatchCaseKey>, b: seq<MatchCaseKey>)
    requires GrammarKeys(a) && GrammarKeys(b)
    ensures KeyString(a) == KeyString(b) <==> a == b
  {
    KeyStringEmpty(a);
    KeyStringEmpty(b);
    if KeyString(a) == KeyString(b) && a != [] && b != [] {
      var a0, b0 := a[0], b[0];
      assert KeyText(a0) == KeyName(a0) + ", " && KeyText(b0) == KeyName(b0) + ", ";
      assert a0.KeyIdent? ==> GrammarIdent(a0.ident);
      assert b0.KeyIdent? ==> GrammarIdent(b0.ident);
      SplitAtComma(KeyName(a0), KeyString(a[1..]), KeyName(b0), KeyString(b[1..]));
      assert a0 == b0;
      assert GrammarKeys(a[1..]) by {
        forall i | 0 <= i < |a[1..]| ensures a[1..][i] == a[i + 1] { }
      }
      assert GrammarKeys(b[1..]) by {
        forall i | 0 <= i < |b[1..]| ensures b[1..][i] == b[i + 1] { }
      }
      KeyStringInjective(a[1..], b[1..]);
      assert a == [a0] + a[1..] && b == [b0] + b[1..];
    }
  }
}
