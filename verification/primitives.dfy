/**
 * voltar's primitive validators: `String`, `Number` (integer inputs),
 * `Boolean`, `Any` and `Null`. Each check function is the validator's
 * `_validate`; the builders are its copy-on-write configuration methods.
 */
module Primitives {
  import opened Wrappers
  import opened Text
  import opened Values
  import opened Failures
  import opened Config
  import opened Email

  /* ---------------------------------------------------------------- String */

  /** The settings of a fresh `String()`. */
  const PlainString := StringSpec(None, None, None, false, false, false, false, false, false, false, false, false)

  /** The string with its surrounding whitespace cut away when `trim` is set. */
  function Trimmed(spec: StringSpec, s: string): string
  {
    if spec.trim then Strip(s) else s
  }

  /**
   * The transforms, in the order trim, lowercase, uppercase. They change only
   * the surrounding whitespace and the case of letters, and with both case
   * transforms set the result is upper-case.
   */
  function Transform(spec: StringSpec, s: string): (r: string)
    ensures |r| == |Trimmed(spec, s)|
    ensures forall i :: 0 <= i < |r| ==> LowerChar(r[i]) == LowerChar(Trimmed(spec, s)[i])
    ensures spec.uppercase ==> forall i :: 0 <= i < |r| ==> !('a' <= r[i] <= 'z')
    ensures spec.lowercase && !spec.uppercase ==> forall i :: 0 <= i < |r| ==> !('A' <= r[i] <= 'Z')
    ensures !spec.lowercase && !spec.uppercase ==> r == Trimmed(spec, s)
  {
    var t := Trimmed(spec, s);
    var l := if spec.lowercase then Lower(t) else t;
    if spec.uppercase then Upper(l) else l
  }

  /** The length constraints `nonempty`, `min` and `max`, all on the transformed string. */
  predicate LengthOk(spec: StringSpec, t: string)
  {
    && (spec.nonempty ==> t != "")
    && (spec.minLen.Some? ==> |t| >= spec.minLen.value)
    && (spec.maxLen.Some? ==> |t| <= spec.maxLen.value)
  }

  /** No check beyond the length constraints is configured. */
  predicate OnlyLengthChecks(spec: StringSpec)
  {
    spec.pattern.None? && !spec.email && !spec.url && !spec.uuid && !spec.datetime && !spec.date
  }

  /** `String._validate`: the checks run in source order and the first failing one is reported. */
  function CheckString(nullable: bool, custom: Option<string>, spec: StringSpec, env: Env, data: Value, path: Path): (r: Outcome)
    ensures r.Err? ==> r.error.path == path
    ensures data == Null && nullable ==> r == Ok(Null)
    ensures !data.Str? && !(data == Null && nullable) ==>
      r == Err(ValidationError(Msg(custom, "Expected string, got " + TypeName(data)), path))
    ensures r.Ok? && data.Str? ==> r.value == Str(Transform(spec, data.s)) && LengthOk(spec, Transform(spec, data.s))
  {
    if data == Null && nullable then Ok(Null)
    else if !data.Str? then
      Err(ValidationError(Msg(custom, "Expected string, got " + TypeName(data)), path))
    else
      var t := Transform(spec, data.s);
      if spec.nonempty && t == "" then
        Err(ValidationError(Msg(custom, "String cannot be empty"), path))
      else if spec.minLen.Some? && |t| < spec.minLen.value then
        Err(ValidationError(Msg(custom, "String must be at least " + IntToString(spec.minLen.value) + " characters long"), path))
      else if spec.maxLen.Some? && |t| > spec.maxLen.value then
        Err(ValidationError(Msg(custom, "String must be at most " + IntToString(spec.maxLen.value) + " characters long"), path))
      else if spec.pattern.Some? && !env.patternMatch(spec.pattern.value, t) then
        Err(ValidationError(Msg(custom, "String does not match pattern: " + spec.pattern.value), path))
      else if spec.email && ValidateEmailPublic(None, DefaultSpec, data).Rejected? then
        var e := ValidateEmailPublic(None, DefaultSpec, data).error;
        Err(ValidationError(Msg(custom, "Invalid email address: " + Render(e)), path))
      else if spec.url && env.urlError(t).Some? then
        Err(ValidationError(Msg(custom, "Invalid URL: " + env.urlError(t).value), path))
      else if spec.uuid && !env.isUuid(t) then
        Err(ValidationError(Msg(custom, "Invalid UUID format"), path))
      else if spec.datetime && !env.isIsoDateTime(t) then
        Err(ValidationError(Msg(custom, "Invalid ISO format datetime"), path))
      else if spec.date && !env.isIsoDate(t) then
        Err(ValidationError(Msg(custom, "Invalid ISO format date"), path))
      else
        Ok(Str(t))
  }

  /* ---------------------------------------------------------------- Number */

  /** The settings of a fresh `Number()`. */
  const PlainNumber := NumberSpec(None, None, false, false, false, None)

  function Abs(m: int): nat
  {
    if m < 0 then -m else m
  }

  /** Python's `n % m`: the remainder takes the sign of the divisor. */
  function PyMod(n: int, m: NonZero): (r: int)
    ensures m > 0 ==> 0 <= r < m
    ensures m < 0 ==> m < r <= 0
    ensures r == 0 <==> n % Abs(m) == 0
  {
    if m > 0 then n % m
    else
      var q := n % Abs(m);
      if q == 0 then 0 else q + m
  }

  /**
   * The `multiple_of` test: the remainder is zero, or within `1e-10` of the
   * divisor, which for integers means equal to it.
   */
  predicate IsMultiple(n: int, m: NonZero)
  {
    var rem := PyMod(n, m);
    rem == 0 || rem == m
  }

  /** Every constraint of `spec` holds for the integer `n`. */
  predicate NumberOk(spec: NumberSpec, n: int)
  {
    && (spec.positive ==> n > 0)
    && (spec.negative ==> n < 0)
    && (spec.minVal.Some? ==> n >= spec.minVal.value)
    && (spec.maxVal.Some? ==> n <= spec.maxVal.value)
    && (spec.multipleOf.Some? ==> IsMultiple(n, spec.multipleOf.value))
  }

  /** `Number._validate` on integer inputs: sign, then bounds (inclusive), then divisibility. */
  function CheckNumber(nullable: bool, custom: Option<string>, spec: NumberSpec, data: Value, path: Path): (r: Outcome)
    ensures r.Err? ==> r.error.path == path
    ensures data == Null && nullable ==> r == Ok(Null)
    ensures !data.Int? && !(data == Null && nullable) ==>
      r == Err(ValidationError(Msg(custom, "Expected number, got " + TypeName(data)), path))
    ensures data.Int? ==> (r.Ok? <==> NumberOk(spec, data.i))
    ensures data.Int? && r.Ok? ==> r.value == data
  {
    if data == Null && nullable then Ok(Null)
    else if !data.Int? then
      Err(ValidationError(Msg(custom, "Expected number, got " + TypeName(data)), path))
    else
      var n := data.i;
      if spec.positive && n <= 0 then
        Err(ValidationError(Msg(custom, "Number must be positive (> 0)"), path))
      else if spec.negative && n >= 0 then
        Err(ValidationError(Msg(custom, "Number must be negative (< 0)"), path))
      else if spec.minVal.Some? && n < spec.minVal.value then
        Err(ValidationError(Msg(custom, "Number must be at least " + IntToString(spec.minVal.value)), path))
      else if spec.maxVal.Some? && n > spec.maxVal.value then
        Err(ValidationError(Msg(custom, "Number must be at most " + IntToString(spec.maxVal.value)), path))
      else if spec.multipleOf.Some? && !IsMultiple(n, spec.multipleOf.value) then
        Err(ValidationError(Msg(custom, "Number must be a multiple of " + IntToString(spec.multipleOf.value)), path))
      else
        Ok(data)
  }

  /* --------------------------------------------------------------- Boolean */

  /** The strings that convert to `True`, once lower-cased. */
  predicate TrueWord(s: string)
  {
    s == "true" || s == "yes" || s == "1" || s == "y"
  }

  /** The strings that convert to `False`, once lower-cased. */
  predicate FalseWord(s: string)
  {
    s == "false" || s == "no" || s == "0" || s == "n"
  }

  /** `Boolean._validate`: booleans pass; with `truthy`, numbers and the listed words convert. */
  function CheckBoolean(nullable: bool, custom: Option<string>, truthy: bool, data: Value, path: Path): (r: Outcome)
    ensures r.Err? ==> r.error.path == path
    ensures data == Null && nullable ==> r == Ok(Null)
    ensures data.Bool? ==> r == Ok(data)
    ensures r.Ok? ==> r.value.Bool? || (data == Null && nullable && r.value == Null)
    ensures !truthy && !data.Bool? && !(data == Null && nullable) ==>
      r == Err(ValidationError(Msg(custom, "Expected boolean, got " + TypeName(data)), path))
  {
    if data == Null && nullable then Ok(Null)
    else if data.Bool? then Ok(data)
    else if !truthy then
      Err(ValidationError(Msg(custom, "Expected boolean, got " + TypeName(data)), path))
    else if data.Int? then Ok(Bool(data.i != 0))
    else if data.Str? && TrueWord(Lower(data.s)) then Ok(Bool(true))
    else if data.Str? && FalseWord(Lower(data.s)) then Ok(Bool(false))
    else
      Err(ValidationError(Msg(custom, "Cannot convert " + TypeName(data) + " to boolean"), path))
  }

  /* ------------------------------------------------------------ Any / Null */

  /** `Null._validate`: only `None` passes. */
  function CheckNull(custom: Option<string>, data: Value, path: Path): (r: Outcome)
    ensures r.Ok? <==> data == Null
    ensures r.Ok? ==> r.value == Null
    ensures r.Err? ==> r.error == ValidationError(Msg(custom, "Expected null/None, got " + TypeName(data)), path)
  {
    if data != Null then
      Err(ValidationError(Msg(custom, "Expected null/None, got " + TypeName(data)), path))
    else Ok(Null)
  }

  /* -------------------------------------------------------------- Builders */

  /** Replace the string settings of a `String` validator, keeping its flags. */
  function WithString(v: Validator, spec: StringSpec): (r: Validator)
    requires v.kind.StringK?
    ensures r.kind == StringK(spec)
    ensures r.(kind := v.kind) == v
  {
    v.(kind := StringK(spec))
  }

  /** `String.min(n)` */
  function StringMin(v: Validator, n: int): (r: Validator)
    requires v.kind.StringK?
    ensures r.kind.StringK? && r.kind.str.minLen == Some(n)
    ensures r.kind.str.(minLen := v.kind.str.minLen) == v.kind.str && r.(kind := v.kind) == v
  {
    WithString(v, v.kind.str.(minLen := Some(n)))
  }

  /** `String.max(n)` */
  function StringMax(v: Validator, n: int): (r: Validator)
    requires v.kind.StringK?
    ensures r.kind.StringK? && r.kind.str.maxLen == Some(n)
    ensures r.kind.str.(maxLen := v.kind.str.maxLen) == v.kind.str && r.(kind := v.kind) == v
  {
    WithString(v, v.kind.str.(maxLen := Some(n)))
  }

  /** `String.length(n)`: both bounds at once. */
  function StringLength(v: Validator, n: int): (r: Validator)
    requires v.kind.StringK?
    ensures r.kind.StringK? && r.kind.str.minLen == Some(n) && r.kind.str.maxLen == Some(n)
    ensures r.kind.str.(minLen := v.kind.str.minLen, maxLen := v.kind.str.maxLen) == v.kind.str
    ensures r.(kind := v.kind) == v
  {
    WithString(v, v.kind.str.(minLen := Some(n), maxLen := Some(n)))
  }

  /** `String.pattern(p)` */
  function StringPattern(v: Validator, p: string): (r: Validator)
    requires v.kind.StringK?
    ensures r.kind.StringK? && r.kind.str.pattern == Some(p)
    ensures r.kind.str.(pattern := v.kind.str.pattern) == v.kind.str && r.(kind := v.kind) == v
  {
    WithString(v, v.kind.str.(pattern := Some(p)))
  }

  /** `String.email()` */
  function StringEmail(v: Validator): (r: Validator)
    requires v.kind.StringK?
    ensures r.kind.StringK? && r.kind.str.email
    ensures r.kind.str.(email := v.kind.str.email) == v.kind.str && r.(kind := v.kind) == v
  {
    WithString(v, v.kind.str.(email := true))
  }

  /** `String.url()` */
  function StringUrl(v: Validator): (r: Validator)
    requires v.kind.StringK?
    ensures r.kind.StringK? && r.kind.str.url
    ensures r.kind.str.(url := v.kind.str.url) == v.kind.str && r.(kind := v.kind) == v
  {
    WithString(v, v.kind.str.(url := true))
  }

  /** `String.uuid()` */
  function StringUuid(v: Validator): (r: Validator)
    requires v.kind.StringK?
    ensures r.kind.StringK? && r.kind.str.uuid
    ensures r.kind.str.(uuid := v.kind.str.uuid) == v.kind.str && r.(kind := v.kind) == v
  {
    WithString(v, v.kind.str.(uuid := true))
  }

  /** `String.datetime()` */
  function StringDateTime(v: Validator): (r: Validator)
    requires v.kind.StringK?
    ensures r.kind.StringK? && r.kind.str.datetime
    ensures r.kind.str.(datetime := v.kind.str.datetime) == v.kind.str && r.(kind := v.kind) == v
  {
    WithString(v, v.kind.str.(datetime := true))
  }

  /** `String.date()` */
  function StringDate(v: Validator): (r: Validator)
    requires v.kind.StringK?
    ensures r.kind.StringK? && r.kind.str.date
    ensures r.kind.str.(date := v.kind.str.date) == v.kind.str && r.(kind := v.kind) == v
  {
    WithString(v, v.kind.str.(date := true))
  }

  /** `String.trim()` */
  function StringTrim(v: Validator): (r: Validator)
    requires v.kind.StringK?
    ensures r.kind.StringK? && r.kind.str.trim
    ensures r.kind.str.(trim := v.kind.str.trim) == v.kind.str && r.(kind := v.kind) == v
  {
    WithString(v, v.kind.str.(trim := true))
  }

  /** `String.lowercase()` */
  function StringLowercase(v: Validator): (r: Validator)
    requires v.kind.StringK?
    ensures r.kind.StringK? && r.kind.str.lowercase
    ensures r.kind.str.(lowercase := v.kind.str.lowercase) == v.kind.str && r.(kind := v.kind) == v
  {
    WithString(v, v.kind.str.(lowercase := true))
  }

  /** `String.uppercase()` */
  function StringUppercase(v: Validator): (r: Validator)
    requires v.kind.StringK?
    ensures r.kind.StringK? && r.kind.str.uppercase
    ensures r.kind.str.(uppercase := v.kind.str.uppercase) == v.kind.str && r.(kind := v.kind) == v
  {
    WithString(v, v.kind.str.(uppercase := true))
  }

  /** `String.nonempty()` */
  function StringNonempty(v: Validator): (r: Validator)
    requires v.kind.StringK?
    ensures r.kind.StringK? && r.kind.str.nonempty
    ensures r.kind.str.(nonempty := v.kind.str.nonempty) == v.kind.str && r.(kind := v.kind) == v
  {
    WithString(v, v.kind.str.(nonempty := true))
  }

  /** Replace the number settings of a `Number` validator, keeping its flags. */
  function WithNumber(v: Validator, spec: NumberSpec): (r: Validator)
    requires v.kind.NumberK?
    ensures r.kind == NumberK(spec)
    ensures r.(kind := v.kind) == v
  {
    v.(kind := NumberK(spec))
  }

  /** `Number.min(x)` */
  function NumberMin(v: Validator, x: int): (r: Validator)
    requires v.kind.NumberK?
    ensures r.kind.NumberK? && r.kind.num.minVal == Some(x)
    ensures r.kind.num.(minVal := v.kind.num.minVal) == v.kind.num && r.(kind := v.kind) == v
  {
    WithNumber(v, v.kind.num.(minVal := Some(x)))
  }

  /** `Number.max(x)` */
  function NumberMax(v: Validator, x: int): (r: Validator)
    requires v.kind.NumberK?
    ensures r.kind.NumberK? && r.kind.num.maxVal == Some(x)
    ensures r.kind.num.(maxVal := v.kind.num.maxVal) == v.kind.num && r.(kind := v.kind) == v
  {
    WithNumber(v, v.kind.num.(maxVal := Some(x)))
  }

  /** `Number.int()` */
  function NumberInt(v: Validator): (r: Validator)
    requires v.kind.NumberK?
    ensures r.kind.NumberK? && r.kind.num.integer
    ensures r.kind.num.(integer := v.kind.num.integer) == v.kind.num && r.(kind := v.kind) == v
  {
    WithNumber(v, v.kind.num.(integer := true))
  }

  /** `Number.positive()` */
  function NumberPositive(v: Validator): (r: Validator)
    requires v.kind.NumberK?
    ensures r.kind.NumberK? && r.kind.num.positive
    ensures r.kind.num.(positive := v.kind.num.positive) == v.kind.num && r.(kind := v.kind) == v
  {
    WithNumber(v, v.kind.num.(positive := true))
  }

  /** `Number.negative()` */
  function NumberNegative(v: Validator): (r: Validator)
    requires v.kind.NumberK?
    ensures r.kind.NumberK? && r.kind.num.negative
    ensures r.kind.num.(negative := v.kind.num.negative) == v.kind.num && r.(kind := v.kind) == v
  {
    WithNumber(v, v.kind.num.(negative := true))
  }

  /** `Number.multiple_of(m)` */
  function NumberMultipleOf(v: Validator, m: NonZero): (r: Validator)
    requires v.kind.NumberK?
    ensures r.kind.NumberK? && r.kind.num.multipleOf == Some(m)
    ensures r.kind.num.(multipleOf := v.kind.num.multipleOf) == v.kind.num && r.(kind := v.kind) == v
  {
    WithNumber(v, v.kind.num.(multipleOf := Some(m)))
  }

  /** `Boolean.truthy()` */
  function BooleanTruthy(v: Validator): (r: Validator)
    requires v.kind.BooleanK?
    ensures r.kind == BooleanK(true) && r.(kind := v.kind) == v
  {
    v.(kind := BooleanK(true))
  }
}
