/**
 * What the primitive validators accept, stated against independent
 * definitions: divisibility, the truthy word table, exact-length strings.
 */
module PrimitiveProps {
  import opened Wrappers
  import opened Text
  import opened Values
  import opened Failures
  import opened Config
  import opened Primitives

  function Mul(k: int, m: int): int
  {
    k * m
  }

  lemma MulMod(k: int, d: nat)
    requires d > 0
    ensures Mul(k, d) % d == 0
  {
    var n := Mul(k, d);
    var q, r := n / d, n % d;
    assert n == d * q + r;
    var t := k - q;
    assert r == d * t by {
      assert d * k == d * q + d * t;
    }
    MulBound(d, t);
  }

  lemma MulBound(d: nat, t: int)
    requires d > 0
    ensures t >= 1 ==> d * t >= d
    ensures t <= -1 ==> d * t <= 0 - d as int
  {
    if t >= 1 {
      assert d * t == d * (t - 1) + d;
    } else if t <= -1 {
      assert d * t == d * (t + 1) - d as int;
    }
  }

  /** `multiple_of(m)` accepts an integer exactly when it is `k * m` for some integer `k`. */
  lemma MultipleOfIff(n: int, m: NonZero)
    ensures IsMultiple(n, m) <==> exists k :: Mul(k, m) == n
  {
    var d := Abs(m);
    if IsMultiple(n, m) {
      assert PyMod(n, m) == 0;
      var q := n / d;
      assert n == d * q;
      var k := if m > 0 then q else -q;
      assert Mul(k, m) == n;
    }
    if exists k :: Mul(k, m) == n {
      var k :| Mul(k, m) == n;
      var k' := if m > 0 then k else -k;
      assert Mul(k', d) == n;
      MulMod(k', d);
    }
  }

  /** With both case transforms set, the result is the upper-cased (trimmed) input: uppercase wins. */
  lemma UppercaseWins(spec: StringSpec, s: string)
    requires spec.lowercase && spec.uppercase
    ensures Transform(spec, s) == Upper(Trimmed(spec, s))
  {
  }

  /**
   * When only length constraints are configured, a string passes exactly when
   * its transformed form meets them.
   */
  lemma LengthChecksIff(nullable: bool, custom: Option<string>, spec: StringSpec, env: Env, s: string, path: Path)
    requires OnlyLengthChecks(spec)
    ensures CheckString(nullable, custom, spec, env, Str(s), path).Ok? <==> LengthOk(spec, Transform(spec, s))
  {
  }

  /** `String().length(n)` accepts exactly the strings of length `n`. */
  lemma ExactLength(v: Validator, n: int, env: Env, s: string, path: Path)
    requires v.kind == StringK(PlainString)
    ensures var w := StringLength(v, n);
      CheckString(w.nullable, w.custom, w.kind.str, env, Str(s), path).Ok? <==> |s| == n
  {
    var w := StringLength(v, n);
    LengthChecksIff(w.nullable, w.custom, w.kind.str, env, s, path);
  }

  /** `nonempty` is checked before `min`: an empty result reports emptiness whatever the minimum. */
  lemma EmptinessReportedFirst(nullable: bool, custom: Option<string>, spec: StringSpec, env: Env, s: string, path: Path)
    requires spec.nonempty && Transform(spec, s) == ""
    ensures CheckString(nullable, custom, spec, env, Str(s), path) == Err(ValidationError(Msg(custom, "String cannot be empty"), path))
  {
  }

  /** `min` and `max` are inclusive: the bound itself passes and the next integer beyond it fails. */
  lemma NumberBoundsInclusive(v: Validator, x: int, path: Path)
    requires v.kind == NumberK(PlainNumber)
    ensures CheckNumber(false, None, NumberMin(v, x).kind.num, Int(x), path).Ok?
    ensures CheckNumber(false, None, NumberMin(v, x).kind.num, Int(x - 1), path).Err?
    ensures CheckNumber(false, None, NumberMax(v, x).kind.num, Int(x), path).Ok?
    ensures CheckNumber(false, None, NumberMax(v, x).kind.num, Int(x + 1), path).Err?
  {
  }

  /** `positive()` together with `negative()` rejects every integer. */
  lemma PositiveAndNegativeExclusive(spec: NumberSpec, nullable: bool, custom: Option<string>, n: int, path: Path)
    requires spec.positive && spec.negative
    ensures CheckNumber(nullable, custom, spec, Int(n), path).Err?
  {
  }

  /**
   * The truthy conversion table for strings: a string converts exactly when its
   * lower-cased form is one of the eight words, to `True` for the first four.
   */
  lemma TruthyStrings(nullable: bool, custom: Option<string>, s: string, path: Path)
    ensures var r := CheckBoolean(nullable, custom, true, Str(s), path);
      && (r.Ok? <==> TrueWord(Lower(s)) || FalseWord(Lower(s)))
      && (r.Ok? ==> r.value == Bool(TrueWord(Lower(s))))
  {
    assert !(TrueWord(Lower(s)) && FalseWord(Lower(s)));
  }

  /** With `truthy`, a number converts to `bool(n)`. */
  lemma TruthyNumbers(nullable: bool, custom: Option<string>, n: int, path: Path)
    ensures CheckBoolean(nullable, custom, true, Int(n), path) == Ok(Bool(n != 0))
  {
  }

  /** `str(b)` converts back to `b`: `"True"` and `"False"` are in the table once lower-cased. */
  lemma TruthyStrOfBool(nullable: bool, custom: Option<string>, b: bool, path: Path)
    ensures CheckBoolean(nullable, custom, true, Str(if b then "True" else "False"), path) == Ok(Bool(b))
  {
    assert Lower("True") == "true";
    assert Lower("False") == "false";
  }

  /** Without `truthy`, only booleans (and `None` when nullable) pass. */
  lemma StrictBoolean(nullable: bool, custom: Option<string>, data: Value, path: Path)
    ensures CheckBoolean(nullable, custom, false, data, path).Ok? <==> data.Bool? || (data == Null && nullable)
  {
  }

  /** Containers never convert, even with `truthy`. */
  lemma TruthyRejectsContainers(nullable: bool, custom: Option<string>, data: Value, path: Path)
    requires data.List? || data.Tuple? || data.Map?
    ensures CheckBoolean(nullable, custom, true, data, path) ==
      Err(ValidationError(Msg(custom, "Cannot convert " + TypeName(data) + " to boolean"), path))
  {
  }
}
