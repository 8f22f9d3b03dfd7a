/**
 * Evaluation of mapper expressions (`Expression::eval` and its helpers in
 * src/foundation/mapper.rs) as a pure function of the variable store and
 * the record's fields.
 *
 * Numbers are reals; regular-expression matching, f64 parsing and printing
 * of non-integral values and Unicode case mapping come in as the total
 * functions of a `Builtins` value.
 */
module MapperEval {
  import opened Wrappers
  import Text
  import opened MapperSyntax

  datatype EvalResult =
    | Undefined
    | Value(text: string)
    | Number(num: real)
    | Named(pairs: seq<(string, string)>)
    | AnyValue
    | Failure(message: string)

  /** The library services evaluation relies on. */
  datatype Builtins = Builtins(
    /** Every capture of every match of `pattern` in `text`, positional groups ("1", "2", ...) then named groups. */
    captures: (string, string) -> seq<(string, string)>,
    /** `str::parse::<f64>` */
    parseNumber: string -> Option<real>,
    /** `format!("{num}")` for a value with a fractional part */
    formatFloat: real -> string,
    uppercase: string -> string,
    lowercase: string -> string,
    /** `Capitalize::capitalize` of one piece */
    capitalize: string -> string)

  /** The tolerance of number comparison and of integral formatting. */
  const EPSILON: real := 0.001
  const I64_MIN: int := -0x8000_0000_0000_0000
  const I64_MAX: int := 0x7FFF_FFFF_FFFF_FFFF

  // ---------------------------------------------------------------------
  // Numbers
  // ---------------------------------------------------------------------

  /** `compare_number`: equal within `EPSILON`, otherwise by `<`. */
  function CompareNumber(a: real, b: real): (r: Text.Ordering)
    ensures r == Text.Equal <==> -EPSILON < a - b < EPSILON
    ensures r == Text.Less <==> a - b <= -EPSILON
    ensures r == Text.Greater <==> a - b >= EPSILON
  {
    if -EPSILON < a - b < EPSILON then Text.Equal
    else if a < b then Text.Less
    else Text.Greater
  }

  /** Rounding toward zero, as `f64::trunc` and the `as i64` cast do. */
  function Truncate(x: real): (r: int)
    ensures x >= 0.0 ==> 0 <= r && r as real <= x < r as real + 1.0
    ensures x < 0.0 ==> r <= 0 && r as real - 1.0 < x <= r as real
  {
    if x >= 0.0 then x.Floor else -((-x).Floor)
  }

  /** The `as i64` cast saturates at the bounds of the type. */
  function SaturateI64(i: int): int {
    if i < I64_MIN then I64_MIN else if i > I64_MAX then I64_MAX else i
  }

  function IntToString(i: int): string {
    if i < 0 then "-" + Text.NatToString(-i) else Text.NatToString(i)
  }

  /** `format_number`: a value within `EPSILON` of its truncation prints as that integer. */
  function FormatNumber(num: real, b: Builtins): string {
    var t := Truncate(num);
    if -EPSILON < num - t as real < EPSILON then IntToString(SaturateI64(t)) else b.formatFloat(num)
  }

  /** A whole number in the i64 range prints as its plain decimal digits, which read back as the number. */
  lemma FormatWholeNumber(n: nat, b: Builtins)
    requires n <= I64_MAX
    ensures var s := FormatNumber(n as real, b);
      s == Text.NatToString(n) && s != [] && (forall k | 0 <= k < |s| :: Text.IsDigit(s[k])) && Text.DecimalValue(s) == n
  {
  }

  /** A number too far from every integer prints in float notation; one near an integer beyond the i64 range prints as the bound. */
  lemma FormatNumberCases(num: real, b: Builtins)
    ensures var t := Truncate(num);
      && (!(-EPSILON < num - t as real < EPSILON) ==> FormatNumber(num, b) == b.formatFloat(num))
      && (-EPSILON < num - t as real < EPSILON && t > I64_MAX ==> FormatNumber(num, b) == Text.NatToString(I64_MAX))
      && (-EPSILON < num - t as real < EPSILON && t < I64_MIN ==> FormatNumber(num, b) == "-" + Text.NatToString(-I64_MIN))
  {
  }

  /** `match_number`: the text parses and is within `EPSILON` of `num`. */
  function MatchNumber(num: real, s: string, b: Builtins): (r: bool)
    ensures r <==> CmpNumber(num, s, b) == Some(Text.Equal)
    ensures r ==> b.parseNumber(s).Some? && -EPSILON < num - b.parseNumber(s).value < EPSILON
  {
    match b.parseNumber(s)
    case Some(v) => CompareNumber(num, v) == Text.Equal
    case None => false
  }

  /** `cmp_number` */
  function CmpNumber(num: real, s: string, b: Builtins): (r: Option<Text.Ordering>)
    ensures r.None? <==> b.parseNumber(s).None?
  {
    match b.parseNumber(s)
    case Some(v) => Some(CompareNumber(num, v))
    case None => None
  }

  /** `to_number` */
  function ToNumberResult(value: string, b: Builtins): (r: EvalResult)
    ensures r.Number? || r.Failure?
    ensures r.Number? <==> b.parseNumber(value).Some?
  {
    match b.parseNumber(value)
    case Some(n) => Number(n)
    case None => Failure("Invalid number: " + value)
  }

  // ---------------------------------------------------------------------
  // Matching and ordering of results
  // ---------------------------------------------------------------------

  /** The map `collect` builds from key/value pairs: a later pair overrides an earlier one. */
  function PairsToMap(pairs: seq<(string, string)>): (m: map<string, string>)
    ensures forall k :: k in m <==> exists i | 0 <= i < |pairs| :: pairs[i].0 == k
  {
    if pairs == [] then map[]
    else
      var init := pairs[..|pairs| - 1];
      var m := PairsToMap(init)[pairs[|pairs| - 1].0 := pairs[|pairs| - 1].1];
      assert forall i | 0 <= i < |init| :: init[i] == pairs[i];
      m
  }

  /** Each key of the collected map holds the value of the last pair with that key. */
  lemma {:induction false} PairsToMapLastWins(pairs: seq<(string, string)>, k: string)
    requires k in PairsToMap(pairs)
    ensures exists i | 0 <= i < |pairs| :: pairs[i] == (k, PairsToMap(pairs)[k])
                                     && forall j | i < j < |pairs| :: pairs[j].0 != k
    decreases |pairs|
  {
    var init, last := pairs[..|pairs| - 1], pairs[|pairs| - 1];
    var m := PairsToMap(pairs);
    if k == last.0 {
      assert pairs[|pairs| - 1] == (k, m[k]);
    } else {
      assert m[k] == PairsToMap(init)[k];
      PairsToMapLastWins(init, k);
      var i :| 0 <= i < |init| && init[i] == (k, m[k]) && forall j | i < j < |init| :: init[j].0 != k;
      assert pairs[i] == init[i];
      assert forall j | i < j < |pairs| - 1 :: pairs[j] == init[j];
    }
  }

  /** `EvalResult::matches` */
  function Matches(x: EvalResult, y: EvalResult, b: Builtins): (r: bool)
    ensures r <==> Compare(x, y, b) == Some(Text.Equal)
  {
    match (x, y)
    case (AnyValue, _) => true
    case (_, AnyValue) => true
    case (Value(s), Value(t)) => s == t
    case (Number(n), Value(t)) => MatchNumber(n, t, b)
    case (Value(s), Number(m)) => MatchNumber(m, s, b)
    case (Number(n), Number(m)) => CompareNumber(n, m) == Text.Equal
    case (Named(p), Named(q)) => PairsToMap(p) == PairsToMap(q)
    case _ => false
  }

  function ReverseOrdering(o: Option<Text.Ordering>): Option<Text.Ordering> {
    match o
    case None => None
    case Some(v) => Some(v.Reverse())
  }

  /** `EvalResult::compare`: `None` where the two are not comparable. */
  function Compare(x: EvalResult, y: EvalResult, b: Builtins): Option<Text.Ordering> {
    match (x, y)
    case (AnyValue, _) => Some(Text.Equal)
    case (_, AnyValue) => Some(Text.Equal)
    case (Value(s), Value(t)) => Some(Text.LexCompare(s, t))
    case (Number(n), Value(t)) => CmpNumber(n, t, b)
    case (Value(s), Number(m)) => ReverseOrdering(CmpNumber(m, s, b))
    case (Number(n), Number(m)) => Some(CompareNumber(n, m))
    case (Named(p), Named(q)) => if PairsToMap(p) == PairsToMap(q) then Some(Text.Equal) else None
    case _ => None
  }

  /** Every result other than nothing and a failure compares equal to itself. */
  lemma CompareReflexive(x: EvalResult, b: Builtins)
    requires !x.Undefined? && !x.Failure?
    ensures Compare(x, x, b) == Some(Text.Equal)
  {
  }

  /** Matching does not depend on the order of its operands. */
  lemma MatchesSymmetric(x: EvalResult, y: EvalResult, b: Builtins)
    ensures Matches(x, y, b) == Matches(y, x, b)
  {
  }

  /** Comparing the other way round reverses the answer. */
  lemma CompareReverse(x: EvalResult, y: EvalResult, b: Builtins)
    ensures Compare(y, x, b) == ReverseOrdering(Compare(x, y, b))
  {
    if x.Value? && y.Value? {
      Text.LexCompareReverse(x.text, y.text);
    }
  }

  // ---------------------------------------------------------------------
  // concat_args and the rendering of a result as text
  // ---------------------------------------------------------------------

  /** The pieces `concat_args` pushes for pair `i` of a named result. */
  function PairPieces(pairs: seq<(string, string)>, i: nat): seq<string>
    requires i < |pairs|
  {
    [pairs[i].0, ": ", pairs[i].1] + (if i < |pairs| - 1 then [", "] else [])
  }

  /** The pieces of the first `j` pairs. */
  function NamedPieces(pairs: seq<(string, string)>, j: nat): seq<string>
    requires j <= |pairs|
  {
    if j == 0 then [] else NamedPieces(pairs, j - 1) + PairPieces(pairs, j - 1)
  }

  function ArgPieces(arg: EvalResult, b: Builtins): seq<string> {
    match arg
    case Value(v) => [v]
    case Number(n) => [FormatNumber(n, b)]
    case Named(pairs) => NamedPieces(pairs, |pairs|)
    case Undefined => []
    case AnyValue => []
    case Failure(_) => []
  }

  /** The pieces of all arguments, in order. */
  function Pieces(args: seq<EvalResult>, b: Builtins): seq<string> {
    if args == [] then [] else Pieces(args[..|args| - 1], b) + ArgPieces(args[|args| - 1], b)
  }

  lemma PiecesStep(args: seq<EvalResult>, a: nat, b: Builtins)
    requires a < |args|
    ensures Pieces(args[..a + 1], b) == Pieces(args[..a], b) + ArgPieces(args[a], b)
  {
    assert args[..a + 1][..a] == args[..a];
  }

  /** `concat_args` */
  method ConcatArgs(args: seq<EvalResult>, b: Builtins) returns (result: seq<string>)
    ensures result == Pieces(args, b)
  {
    result := [];
    var a := 0;
    while a < |args|
      invariant 0 <= a <= |args|
      invariant result == Pieces(args[..a], b)
    {
      PiecesStep(args, a, b);
      match args[a] {
        case Value(value) => result := result + [value];
        case Number(value) => result := result + [FormatNumber(value, b)];
        case Named(pairs) => result := PushNamed(result, pairs);
        case Undefined =>
        case AnyValue =>
        case Failure(_) =>
      }
      a := a + 1;
    }
    assert args[..|args|] == args;
  }

  /** The pushes of `concat_args` for a named result: each key, ": ", its value, and ", " between pairs. */
  method PushNamed(before: seq<string>, pairs: seq<(string, string)>) returns (result: seq<string>)
    ensures result == before + NamedPieces(pairs, |pairs|)
  {
    result := before;
    var i := 0;
    while i < |pairs|
      invariant 0 <= i <= |pairs|
      invariant result == before + NamedPieces(pairs, i)
    {
      ghost var prev := result;
      result := result + [pairs[i].0, ": ", pairs[i].1];
      if i < |pairs| - 1 {
        result := result + [", "];
      }
      assert result == prev + PairPieces(pairs, i);
      i := i + 1;
    }
  }

  /** "k1: v1, k2: v2": how a named result is written into a field. */
  function FormatNamedPrefix(pairs: seq<(string, string)>, j: nat): string
    requires j <= |pairs|
  {
    if j == 0 then ""
    else FormatNamedPrefix(pairs, j - 1) + pairs[j - 1].0 + ": " + pairs[j - 1].1
         + (if j - 1 < |pairs| - 1 then ", " else "")
  }

  function FormatNamed(pairs: seq<(string, string)>): string {
    FormatNamedPrefix(pairs, |pairs|)
  }

  /** The text of one result as `concat` renders it. */
  function Render(arg: EvalResult, b: Builtins): string {
    Text.Join(ArgPieces(arg, b), "")
  }

  function RenderAll(args: seq<EvalResult>, b: Builtins): string {
    if args == [] then "" else RenderAll(args[..|args| - 1], b) + Render(args[|args| - 1], b)
  }

  lemma {:induction false} NamedPiecesJoin(pairs: seq<(string, string)>, j: nat)
    requires j <= |pairs|
    ensures Text.Join(NamedPieces(pairs, j), "") == FormatNamedPrefix(pairs, j)
  {
    if j > 0 {
      NamedPiecesJoin(pairs, j - 1);
      Text.JoinEmptyConcat(NamedPieces(pairs, j - 1), PairPieces(pairs, j - 1));
      PairPiecesJoin(pairs, j - 1);
      var prefix := FormatNamedPrefix(pairs, j - 1);
      var k, v := pairs[j - 1].0, pairs[j - 1].1;
      var tail := if j - 1 < |pairs| - 1 then ", " else "";
      assert prefix + (k + ": " + v + tail) == prefix + k + ": " + v + tail;
    }
  }

  /** The pieces of one pair join to "k: v", followed by ", " unless it is the last pair. */
  lemma PairPiecesJoin(pairs: seq<(string, string)>, i: nat)
    requires i < |pairs|
    ensures Text.Join(PairPieces(pairs, i), "") == pairs[i].0 + ": " + pairs[i].1 + (if i < |pairs| - 1 then ", " else "")
  {
    var k, v := pairs[i].0, pairs[i].1;
    var tail := if i < |pairs| - 1 then [", "] else [];
    assert Text.Join(tail, "") == (if i < |pairs| - 1 then ", " else "");
    assert PairPieces(pairs, i) == [k] + ([": "] + ([v] + tail));
    Text.JoinEmptyConcat([v], tail);
    Text.JoinEmptyConcat([": "], [v] + tail);
    Text.JoinEmptyConcat([k], [": "] + ([v] + tail));
  }

  /** A text, a number and a named result render as the text, the formatted number and "k: v, ..." respectively. */
  lemma RenderValues(arg: EvalResult, b: Builtins)
    ensures arg.Value? ==> Render(arg, b) == arg.text
    ensures arg.Number? ==> Render(arg, b) == FormatNumber(arg.num, b)
    ensures arg.Named? ==> Render(arg, b) == FormatNamed(arg.pairs)
    ensures arg.Undefined? || arg.AnyValue? || arg.Failure? ==> Render(arg, b) == ""
  {
    if arg.Named? {
      NamedPiecesJoin(arg.pairs, |arg.pairs|);
    }
  }

  /** `concat(a, b, ...)` is the rendering of each argument, one after the other. */
  lemma {:induction false} ConcatRendersEach(args: seq<EvalResult>, b: Builtins)
    ensures Text.Join(Pieces(args, b), "") == RenderAll(args, b)
  {
    if args != [] {
      ConcatRendersEach(args[..|args| - 1], b);
      Text.JoinEmptyConcat(Pieces(args[..|args| - 1], b), ArgPieces(args[|args| - 1], b));
    }
  }

  // ---------------------------------------------------------------------
  // Built-in function calls
  // ---------------------------------------------------------------------

  /** The `{:?}` spelling of a function name in error messages. */
  function FunctionName(fn: BuiltInFunction): string {
    match fn
    case Concat => "Concat"
    case Uppercase => "Uppercase"
    case Lowercase => "Lowercase"
    case Capitalize => "Capitalize"
    case Trim => "Trim"
    case Print => "Print"
    case ToNumber => "ToNumber"
  }

  predicate IsKept(v: EvalResult) {
    v.Value? || v.Number? || v.Named?
  }

  /** `retain`: the arguments that are neither undefined, failures nor `_`, in order. */
  function Retain(evaluated: seq<EvalResult>): (r: seq<EvalResult>)
    ensures forall i | 0 <= i < |r| :: IsKept(r[i])
    ensures forall v | v in evaluated && IsKept(v) :: v in r
    ensures forall v | v in r :: v in evaluated
  {
    if evaluated == [] then []
    else
      var init, last := evaluated[..|evaluated| - 1], evaluated[|evaluated| - 1];
      assert evaluated == init + [last];
      Retain(init) + (if IsKept(last) then [last] else [])
  }

  /** `retain` of one result: kept exactly when it is text, a number or named. */
  lemma RetainSingle(v: EvalResult)
    ensures Retain([v]) == if IsKept(v) then [v] else []
  {
    assert [v][..0] == [];
  }

  /** `retain` keeps the order: it filters each part of a sequence on its own. */
  lemma {:induction false} RetainConcat(a: seq<EvalResult>, c: seq<EvalResult>)
    ensures Retain(a + c) == Retain(a) + Retain(c)
    decreases |c|
  {
    if c == [] {
      assert a + c == a;
    } else {
      var init, last := c[..|c| - 1], c[|c| - 1];
      var tail := if IsKept(last) then [last] else [];
      assert (a + c)[..|a + c| - 1] == a + init;
      assert (a + c)[|a + c| - 1] == last;
      assert Retain(a + c) == Retain(a + init) + tail;
      assert Retain(c) == Retain(init) + tail;
      RetainConcat(a, init);
    }
  }

  /** The message of the first failed argument. */
  function FirstFailure(evaluated: seq<EvalResult>): (r: Option<string>)
    ensures r.None? <==> forall i | 0 <= i < |evaluated| :: !evaluated[i].Failure?
    ensures r.Some? ==> exists i | 0 <= i < |evaluated| :: evaluated[i] == Failure(r.value)
                                   && forall j | 0 <= j < i :: !evaluated[j].Failure?
  {
    if evaluated == [] then None
    else if evaluated[0].Failure? then
      assert evaluated[0] == Failure(evaluated[0].message);
      Some(evaluated[0].message)
    else
      var r := FirstFailure(evaluated[1..]);
      assert forall i | 1 <= i < |evaluated| :: evaluated[i] == evaluated[1..][i - 1];
      if r.Some? then
        var i :| 0 <= i < |evaluated[1..]| && evaluated[1..][i] == Failure(r.value)
                 && forall j | 0 <= j < i :: !evaluated[1..][j].Failure?;
        assert evaluated[i + 1] == Failure(r.value);
        r
      else r
  }

  function MapTrim(pieces: seq<string>): (r: seq<string>)
    ensures |r| == |pieces| && forall i | 0 <= i < |r| :: r[i] == Text.Trim(pieces[i])
  {
    seq(|pieces|, i requires 0 <= i < |pieces| => Text.Trim(pieces[i]))
  }

  function MapCapitalize(pieces: seq<string>, b: Builtins): (r: seq<string>)
    ensures |r| == |pieces| && forall i | 0 <= i < |r| :: r[i] == b.capitalize(pieces[i])
  {
    seq(|pieces|, i requires 0 <= i < |pieces| => b.capitalize(pieces[i]))
  }

  /**
   * A built-in call on its evaluated arguments: a failed argument fails the
   * call, no usable argument gives `Undefined`, `concat` glues the renderings
   * of the usable arguments, `trim` yields trimmed text and `print` (a log
   * line only) yields nothing.
   */
  function CallFunction(fn: BuiltInFunction, evaluated: seq<EvalResult>, b: Builtins): (r: EvalResult)
    ensures (exists i | 0 <= i < |evaluated| :: evaluated[i].Failure?) ==> r.Failure?
    ensures FirstFailure(evaluated).None? && Retain(evaluated) == [] ==> r == Undefined
    ensures fn == Print ==> r.Undefined? || r.Failure?
    ensures FirstFailure(evaluated).None? && Retain(evaluated) != [] && fn == Concat
            ==> r == Value(RenderAll(Retain(evaluated), b))
    ensures FirstFailure(evaluated).None? && Retain(evaluated) != [] && fn == Trim
            ==> r.Value? && Text.IsTrimmed(r.text)
    ensures FirstFailure(evaluated).None? && Retain(evaluated) != [] && fn == ToNumber
            ==> (Retain(evaluated)[0].Value? ==> r == ToNumberResult(Retain(evaluated)[0].text, b))
                && (!Retain(evaluated)[0].Value? ==> r == Retain(evaluated)[0])
  {
    match FirstFailure(evaluated)
    case Some(msg) => Failure("Function '" + FunctionName(fn) + "' failed: " + msg)
    case None =>
      var kept := Retain(evaluated);
      if kept == [] then Undefined
      else
        var pieces := Pieces(kept, b);
        match fn
        case Concat =>
          ConcatRendersEach(kept, b);
          Value(Text.Join(pieces, ""))
        case Uppercase => Value(b.uppercase(Text.Join(pieces, " ")))
        case Trim =>
          var t := Text.Trim(Text.Join(MapTrim(pieces), " "));
          Text.TrimSpec(Text.Join(MapTrim(pieces), " "));
          Value(t)
        case Lowercase => Value(b.lowercase(Text.Join(pieces, " ")))
        case Capitalize => Value(Text.Join(MapCapitalize(pieces, b), " "))
        case Print => Undefined
        case ToNumber =>
          (match kept[0]
           case Value(v) => ToNumberResult(v, b)
           case other => other)
  }

  // ---------------------------------------------------------------------
  // Expressions
  // ---------------------------------------------------------------------

  /** The regex outcome: no capture is undefined, one is its text, several are named. */
  function CapturesResult(values: seq<(string, string)>): EvalResult {
    if values == [] then Undefined
    else if |values| == 1 then Value(values[0].1)
    else Named(values)
  }

  /** The value of the first pair whose key is `key`. */
  function LookupPair(pairs: seq<(string, string)>, key: string): (r: Option<string>)
    ensures r.None? <==> forall i | 0 <= i < |pairs| :: pairs[i].0 != key
    ensures r.Some? ==> exists i | 0 <= i < |pairs| :: pairs[i] == (key, r.value)
                                  && forall j | 0 <= j < i :: pairs[j].0 != key
  {
    if pairs == [] then None
    else if pairs[0].0 == key then
      assert pairs[0] == (key, pairs[0].1);
      Some(pairs[0].1)
    else
      var r := LookupPair(pairs[1..], key);
      if r.Some? then
        var i :| 0 <= i < |pairs[1..]| && pairs[1..][i] == (key, r.value)
                 && forall j | 0 <= j < i :: pairs[1..][j].0 != key;
        assert pairs[i + 1] == (key, r.value);
        r
      else r
  }

  /** A match-case value that counts toward `match_count`. */
  predicate Counts(v: EvalResult) {
    v.Value? || v.Number? || v.Named? || v.AnyValue?
  }

  /** The first identifier key that names no variable. */
  function UnboundKey(keys: seq<MatchCaseKey>, vars: map<string, EvalResult>): (r: Option<string>)
    ensures r.None? <==> forall i | 0 <= i < |keys| :: keys[i].KeyIdent? ==> keys[i].ident in vars
    ensures r.Some? ==> r.value !in vars
    ensures r.Some? ==> exists i | 0 <= i < |keys| :: keys[i] == KeyIdent(r.value)
                                   && forall j | 0 <= j < i :: keys[j].KeyIdent? ==> keys[j].ident in vars
  {
    if keys == [] then None
    else if keys[0].KeyIdent? && keys[0].ident !in vars then
      assert keys[0] == KeyIdent(keys[0].ident);
      Some(keys[0].ident)
    else
      assert forall i | 1 <= i < |keys| :: keys[i] == keys[1..][i - 1];
      var r := UnboundKey(keys[1..], vars);
      if r.Some? then
        var i :| 0 <= i < |keys[1..]| && keys[1..][i] == KeyIdent(r.value)
                 && forall j | 0 <= j < i :: keys[1..][j].KeyIdent? ==> keys[1..][j].ident in vars;
        assert keys[i + 1] == KeyIdent(r.value);
        r
      else r
  }

  /** Every key of a case holds: `_`, or a variable whose value counts. */
  predicate CaseHolds(keys: seq<MatchCaseKey>, vars: map<string, EvalResult>) {
    forall i | 0 <= i < |keys| :: keys[i].KeyAny? || (keys[i].ident in vars && Counts(vars[keys[i].ident]))
  }

  /** Whether a map-case key accepts the block's value. */
  function MapKeyMatches(value: EvalResult, key: MapCaseKey, b: Builtins): bool {
    match key
    case TextKey(t) => Matches(value, Value(t), b)
    case AnyKey => true
    case RangeFrom(n) =>
      (match Compare(value, Number(n), b)
       case None => false
       case Some(o) => o != Text.Less)
    case RangeTo(n) =>
      (match Compare(value, Number(n), b)
       case None => false
       case Some(o) => o != Text.Greater)
    case RangeFull(lo, hi) =>
      (match Compare(value, Number(lo), b)
       case None => false
       case Some(o) =>
         if o == Text.Less then false
         else match Compare(value, Number(hi), b)
           case None => false
           case Some(o2) => o2 != Text.Greater)
    case RangeEq(n) => Compare(value, Number(n), b) == Some(Text.Equal)
  }

  /** For a number, the range keys are closed intervals widened by `EPSILON` at each end. */
  lemma NumberInRange(x: real, key: MapCaseKey, b: Builtins)
    ensures key.RangeFrom? ==> (MapKeyMatches(Number(x), key, b) <==> x > key.from - EPSILON)
    ensures key.RangeTo? ==> (MapKeyMatches(Number(x), key, b) <==> x < key.to + EPSILON)
    ensures key.RangeFull? ==> (MapKeyMatches(Number(x), key, b) <==> key.lo - EPSILON < x < key.hi + EPSILON)
    ensures key.RangeEq? ==> (MapKeyMatches(Number(x), key, b) <==> key.num - EPSILON < x < key.num + EPSILON)
  {
  }

  predicate CaseAccepts(value: EvalResult, keys: seq<MapCaseKey>, b: Builtins) {
    exists i | 0 <= i < |keys| :: MapKeyMatches(value, keys[i], b)
  }

  /** `Expression::eval` */
  function Eval(e: Expression, vars: map<string, EvalResult>, record: map<string, string>, b: Builtins): EvalResult
    decreases e
  {
    match e
    case NullValue => Undefined
    case Identifier(name) =>
      if name in vars then vars[name] else Failure("Variable with name " + name + " not found.")
    case FieldAccess(field) =>
      if field in record then Value(record[field]) else Undefined
    case VarAccess(name, field) =>
      if name !in vars then Failure("Variable with name " + name + " not found.")
      else
        (match vars[name]
         case Undefined => Undefined
         case Number(_) => Failure("Variable with name " + name + " has no fields.")
         case Value(_) => Failure("Variable with name " + name + " has no fields.")
         case Named(pairs) =>
           (match LookupPair(pairs, field)
            case Some(v) => Value(v)
            case None => Failure("Variable with name " + name + " has no field " + field + "."))
         case AnyValue => AnyValue
         case Failure(msg) => Failure(msg))
    case StringLiteral(s) => Value(s)
    case NumberLiteral(n) => Number(n)
    case RegexExpr(source, pattern) =>
      var text :=
        (match source
         case SourceIdent(name) => if name in vars && vars[name].Value? then Some(vars[name].text) else None
         case SourceField(field) => if field in record then Some(record[field]) else None);
      if text.None? then Undefined else CapturesResult(b.captures(pattern, text.value))
    case FunctionCall(fn, args) => CallFunction(fn, EvalArgs(args, vars, record, b), b)
    case MatchBlock(cases) => EvalMatchCases(cases, vars, record, b)
    case MapBlock(key, cases) =>
      if key !in vars then Failure("Map expression invalid! Variable with name " + key + " not found.")
      else EvalMapCases(vars[key], cases, vars, record, b)
  }

  function EvalArgs(args: seq<Expression>, vars: map<string, EvalResult>, record: map<string, string>, b: Builtins)
    : (r: seq<EvalResult>)
    ensures |r| == |args|
    decreases args
  {
    if args == [] then [] else [Eval(args[0], vars, record, b)] + EvalArgs(args[1..], vars, record, b)
  }

  /** The first case with every variable bound and every key holding is evaluated; an unbound variable fails the block. */
  function EvalMatchCases(cases: seq<MatchCase>, vars: map<string, EvalResult>, record: map<string, string>, b: Builtins)
    : EvalResult
    decreases cases
  {
    if cases == [] then Undefined
    else match UnboundKey(cases[0].keys, vars)
      case Some(name) => Failure("Match case invalid! Variable with name " + name + " not found.")
      case None =>
        if CaseHolds(cases[0].keys, vars) then Eval(cases[0].expression, vars, record, b)
        else EvalMatchCases(cases[1..], vars, record, b)
  }

  /** The first case with a key that accepts the value is evaluated. */
  function EvalMapCases(value: EvalResult, cases: seq<MapCase>, vars: map<string, EvalResult>,
                        record: map<string, string>, b: Builtins): EvalResult
    decreases cases
  {
    if cases == [] then Undefined
    else if CaseAccepts(value, cases[0].mapKeys, b) then Eval(cases[0].result, vars, record, b)
    else EvalMapCases(value, cases[1..], vars, record, b)
  }

  /** Arguments are evaluated one by one, each in the same store. */
  lemma {:induction false} EvalArgsPointwise(args: seq<Expression>, vars: map<string, EvalResult>,
                                             record: map<string, string>, b: Builtins)
    ensures forall i | 0 <= i < |args| :: EvalArgs(args, vars, record, b)[i] == Eval(args[i], vars, record, b)
  {
    if args != [] {
      EvalArgsPointwise(args[1..], vars, record, b);
      assert forall i | 1 <= i < |args| :: args[i] == args[1..][i - 1];
    }
  }

  /** A match block yields the first case whose keys all hold, provided every earlier case had its variables bound. */
  lemma {:induction false} EvalMatchFirst(cases: seq<MatchCase>, vars: map<string, EvalResult>,
                                          record: map<string, string>, b: Builtins, k: nat)
    requires k < |cases|
    requires forall j | 0 <= j <= k :: UnboundKey(cases[j].keys, vars).None?
    requires forall j | 0 <= j < k :: !CaseHolds(cases[j].keys, vars)
    requires CaseHolds(cases[k].keys, vars)
    ensures EvalMatchCases(cases, vars, record, b) == Eval(cases[k].expression, vars, record, b)
  {
    if k > 0 {
      assert forall j | 0 <= j < |cases| - 1 :: cases[1..][j] == cases[j + 1];
      EvalMatchFirst(cases[1..], vars, record, b, k - 1);
    }
  }

  /** A match block in which no case holds, and every variable is bound, yields `Undefined`. */
  lemma {:induction false} EvalMatchNone(cases: seq<MatchCase>, vars: map<string, EvalResult>,
                                         record: map<string, string>, b: Builtins)
    requires forall j | 0 <= j < |cases| :: UnboundKey(cases[j].keys, vars).None? && !CaseHolds(cases[j].keys, vars)
    ensures EvalMatchCases(cases, vars, record, b) == Undefined
  {
    if cases != [] {
      assert forall j | 0 <= j < |cases| - 1 :: cases[1..][j] == cases[j + 1];
      EvalMatchNone(cases[1..], vars, record, b);
    }
  }

  /** A match block fails at the first case, reached before any case holds, that names an unset variable. */
  lemma {:induction false} EvalMatchUnbound(cases: seq<MatchCase>, vars: map<string, EvalResult>,
                                            record: map<string, string>, b: Builtins, k: nat)
    requires k < |cases|
    requires forall j | 0 <= j < k :: UnboundKey(cases[j].keys, vars).None? && !CaseHolds(cases[j].keys, vars)
    requires UnboundKey(cases[k].keys, vars).Some?
    ensures EvalMatchCases(cases, vars, record, b)
         == Failure("Match case invalid! Variable with name " + UnboundKey(cases[k].keys, vars).value + " not found.")
  {
    if k > 0 {
      assert forall j | 0 <= j < |cases| - 1 :: cases[1..][j] == cases[j + 1];
      EvalMatchUnbound(cases[1..], vars, record, b, k - 1);
    }
  }

  /** Reading a field of a variable holding named values gives the first pair with that key, and fails when there is none. */
  lemma EvalVarAccessNamed(name: string, field: string, pairs: seq<(string, string)>, vars: map<string, EvalResult>,
                           record: map<string, string>, b: Builtins)
    requires name in vars && vars[name] == Named(pairs)
    ensures var r := Eval(VarAccess(name, field), vars, record, b);
      && (r.Failure? <==> forall i | 0 <= i < |pairs| :: pairs[i].0 != field)
      && (r.Value? ==> exists i | 0 <= i < |pairs| :: pairs[i] == (field, r.text)
                                   && forall j | 0 <= j < i :: pairs[j].0 != field)
  {
  }

  /** A map block whose key names an unset variable fails, whatever its cases. */
  lemma EvalMapUnsetKey(key: string, cases: seq<MapCase>, vars: map<string, EvalResult>,
                        record: map<string, string>, b: Builtins)
    requires key !in vars
    ensures Eval(MapBlock(key, cases), vars, record, b)
         == Failure("Map expression invalid! Variable with name " + key + " not found.")
  {
  }

  /** A case with a `_` key accepts every value. */
  lemma AnyKeyAccepts(value: EvalResult, keys: seq<MapCaseKey>, b: Builtins)
    requires AnyKey in keys
    ensures CaseAccepts(value, keys, b)
  {
    var i :| 0 <= i < |keys| && keys[i] == AnyKey;
    assert MapKeyMatches(value, keys[i], b);
  }

  /** A map block yields the first case with an accepting key. */
  lemma {:induction false} EvalMapFirst(value: EvalResult, cases: seq<MapCase>, vars: map<string, EvalResult>,
                                        record: map<string, string>, b: Builtins, k: nat)
    requires k < |cases|
    requires forall j | 0 <= j < k :: !CaseAccepts(value, cases[j].mapKeys, b)
    requires CaseAccepts(value, cases[k].mapKeys, b)
    ensures EvalMapCases(value, cases, vars, record, b) == Eval(cases[k].result, vars, record, b)
  {
    if k > 0 {
      assert forall j | 0 <= j < |cases| - 1 :: cases[1..][j] == cases[j + 1];
      EvalMapFirst(value, cases[1..], vars, record, b, k - 1);
    }
  }

  /** A map block in which no key accepts the value yields `Undefined`. */
  lemma {:induction false} EvalMapNone(value: EvalResult, cases: seq<MapCase>, vars: map<string, EvalResult>,
                                       record: map<string, string>, b: Builtins)
    requires forall j | 0 <= j < |cases| :: !CaseAccepts(value, cases[j].mapKeys, b)
    ensures EvalMapCases(value, cases, vars, record, b) == Undefined
  {
    if cases != [] {
      assert forall j | 0 <= j < |cases| - 1 :: cases[1..][j] == cases[j + 1];
      EvalMapNone(value, cases[1..], vars, record, b);
    }
  }
}
