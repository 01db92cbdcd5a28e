/**
 * The immutable validator tree: the flags every validator carries
 * (`_optional`, `_nullable`, `_default`, `_custom_error_message`) and one
 * kind-specific payload per validator class; plus the environment that
 * stands in for the parts the model does not interpret (regular
 * expressions, URL/UUID/ISO-date parsing, callable defaults, custom
 * validator classes).
 */
module Config {
  import opened Wrappers
  import opened Values
  import opened Failures

  /** `_default`: unset, a value, or a zero-argument callable (identified by a number). */
  datatype Default = NoDefault | Given(value: Value) | Producer(id: nat)

  datatype Validator = Validator(
    optional: bool,
    nullable: bool,
    dflt: Default,
    custom: Option<string>,
    kind: Kind)

  datatype Kind =
    | StringK(str: StringSpec)
    | NumberK(num: NumberSpec)
    | BooleanK(truthy: bool)
    | AnyK
    | NullK
    /** sift's `EmailValidator` used as a validator in its own right. */
    | EmailK(email: EmailSpec)
    | ListK(item: Option<Validator>, minItems: Option<int>, maxItems: Option<int>, unique: bool, nonemptyList: bool)
    | DictK(dict: DictSpec)
    | TupleK(items: seq<Validator>, rest: Option<Validator>, minLength: int, maxLength: Option<int>)
    | UnionK(options: seq<Validator>, discriminator: Option<string>, mapping: seq<Case>)
    /** An `Object`: its own flags live on the enclosing `Validator`, its schema in a fresh inner `Dict`. */
    | ObjectK(inner: DictSpec)
    /** A validator class outside the model; its `_validate` is `Env.custom`. */
    | CustomK(id: nat)

  datatype StringSpec = StringSpec(
    minLen: Option<int>,
    maxLen: Option<int>,
    pattern: Option<string>,
    email: bool,
    url: bool,
    uuid: bool,
    datetime: bool,
    date: bool,
    trim: bool,
    lowercase: bool,
    uppercase: bool,
    nonempty: bool)

  /** A divisor for `multiple_of`: Python's `%` raises `ZeroDivisionError` on zero. */
  type NonZero = m: int | m != 0 witness 1

  /** Number constraints; only integer inputs and integer bounds are modelled. */
  datatype NumberSpec = NumberSpec(
    minVal: Option<int>,
    maxVal: Option<int>,
    integer: bool,
    positive: bool,
    negative: bool,
    multipleOf: Option<NonZero>)

  datatype EmailSpec = EmailSpec(
    strict: bool,
    checkMx: bool,
    allowIpDomain: bool,
    allowUnicode: bool,
    blacklist: set<string>)

  /** A schema entry `key: validator`. */
  datatype Field = Field(key: string, validator: Validator)

  /** A `pattern_properties` entry. */
  datatype PatternRule = PatternRule(pattern: string, validator: Validator)

  /** `_additional_properties`: `True`, `False` or a `Validator`. */
  datatype Additional = AllowAll | Forbid | ValidateWith(validator: Validator)

  datatype DictSpec = DictSpec(
    schema: seq<Field>,
    required: seq<string>,
    additional: Additional,
    patterns: seq<PatternRule>,
    minProps: Option<int>,
    maxProps: Option<int>,
    /** Keys passed through unvalidated (voltar's `exclude`); always empty for sift. */
    excluded: set<string>)

  /** A hashable discriminator value used as a key of `_discriminator_map`. */
  datatype DiscKey = DStr(s: string) | DInt(i: int) | DBool(b: bool) | DNone

  datatype Case = Case(key: DiscKey, validator: Validator)

  /** The operations the model takes as given. */
  datatype Env = Env(
    /** `re.match(pattern, s)` succeeds */
    patternMatch: (string, string) -> bool,
    /** why `urlparse` rejects `s` (`str(e)`), if it does */
    urlError: string -> Option<string>,
    isUuid: string -> bool,
    isIsoDateTime: string -> bool,
    isIsoDate: string -> bool,
    /** the value a callable default returns */
    produce: nat -> Value,
    /** `_validate` of a custom validator class; its async form is taken to agree */
    custom: (nat, Value, Path) -> Outcome)

  /** The value a discriminator key stands for in the input. */
  function KeyValue(k: DiscKey): Value
  {
    match k
    case DStr(s) => Str(s)
    case DInt(i) => Int(i)
    case DBool(b) => Bool(b)
    case DNone => Null
  }

  /** `self._default is not None` */
  predicate HasDefault(d: Default)
  {
    d.Producer? || (d.Given? && d.value != Null)
  }

  /** `_resolve_default`: call a callable default, return any other default as it is. */
  function ResolveDefault(d: Default, env: Env): Value
    requires HasDefault(d)
  {
    match d
    case Given(v) => v
    case Producer(id) => env.produce(id)
  }

  /** `_is_nullable`: `Any` and `Null` accept `None` without `nullable()`. */
  predicate InherentlyNullable(k: Kind)
  {
    k.AnyK? || k.NullK?
  }

  /** A validator as `Validator.__init__` leaves it. */
  function Fresh(kind: Kind): (r: Validator)
    ensures !r.optional && !r.nullable && r.dflt == NoDefault && r.custom.None? && r.kind == kind
  {
    Validator(false, false, NoDefault, None, kind)
  }

  function SchemaKeys(schema: seq<Field>): (r: seq<string>)
    ensures |r| == |schema| && forall i :: 0 <= i < |schema| ==> r[i] == schema[i].key
  {
    if |schema| == 0 then [] else [schema[0].key] + SchemaKeys(schema[1..])
  }

  function PatternKeys(patterns: seq<PatternRule>): (r: seq<string>)
    ensures |r| == |patterns| && forall i :: 0 <= i < |patterns| ==> r[i] == patterns[i].pattern
  {
    if |patterns| == 0 then [] else [patterns[0].pattern] + PatternKeys(patterns[1..])
  }

  /** The first validator the schema gives for `k`. */
  function SchemaLookup(schema: seq<Field>, k: string): (r: Option<Validator>)
    ensures r.Some? <==> k in SchemaKeys(schema)
  {
    if |schema| == 0 then None
    else if schema[0].key == k then Some(schema[0].validator)
    else SchemaLookup(schema[1..], k)
  }

  /** `int(b)` */
  function BoolInt(b: bool): int
  {
    if b then 1 else 0
  }

  /** The value Python's `==` cannot tell apart from `v` among the hashable keys: `True == 1` and `False == 0`. */
  function Canon(v: Value): Value
  {
    if v.Bool? then Int(BoolInt(v.b)) else v
  }

  /**
   * Python's `==` between a mapping key and an input value, which is what a
   * dict lookup compares once the hashes agree.
   */
  predicate KeyEq(k: DiscKey, v: Value)
  {
    Canon(KeyValue(k)) == Canon(v)
  }

  /** Two mapping keys a Python dict treats as the same key. */
  predicate SameKey(a: DiscKey, b: DiscKey)
  {
    KeyEq(a, KeyValue(b))
  }

  /** Where `_discriminator_map` has the value `v` as a key (the first such entry), if anywhere. */
  function CaseIndex(mapping: seq<Case>, v: Value): (r: Option<nat>)
    ensures r.Some? ==> r.value < |mapping| && KeyEq(mapping[r.value].key, v)
    ensures r.Some? ==> forall i :: 0 <= i < r.value ==> !KeyEq(mapping[i].key, v)
    ensures r.None? ==> forall i :: 0 <= i < |mapping| ==> !KeyEq(mapping[i].key, v)
  {
    if |mapping| == 0 then None
    else if KeyEq(mapping[0].key, v) then Some(0)
    else match CaseIndex(mapping[1..], v)
      case None => None
      case Some(i) => Some(i + 1)
  }

  /** The validator `_discriminator_map` holds for the value `v`, if any. */
  function CaseGet(cases: seq<Case>, v: Value): Option<Validator>
  {
    match CaseIndex(cases, v)
    case None => None
    case Some(i) => Some(cases[i].validator)
  }

  function CaseKeys(cases: seq<Case>): (r: seq<DiscKey>)
    ensures |r| == |cases| && forall i :: 0 <= i < |cases| ==> r[i] == cases[i].key
  {
    if |cases| == 0 then [] else [cases[0].key] + CaseKeys(cases[1..])
  }

  /** No two entries have keys a Python dict treats as one. */
  predicate OneEntryPerKey(keys: seq<DiscKey>)
  {
    forall i, j :: 0 <= i < j < |keys| ==> !SameKey(keys[i], keys[j])
  }

  /** `d[key] = validator` on a dict of cases: an equal key keeps its place (and its own spelling), a new one goes last. */
  function AssignCase(cases: seq<Case>, c: Case): (r: seq<Case>)
    ensures (exists i :: 0 <= i < |cases| && SameKey(cases[i].key, c.key)) ==> CaseKeys(r) == CaseKeys(cases)
    ensures (forall i :: 0 <= i < |cases| ==> !SameKey(cases[i].key, c.key)) ==> CaseKeys(r) == CaseKeys(cases) + [c.key]
  {
    if |cases| == 0 then [c]
    else if SameKey(cases[0].key, c.key) then [Case(cases[0].key, c.validator)] + cases[1..]
    else
      var r := [cases[0]] + AssignCase(cases[1..], c);
      assert forall i :: 0 <= i < |cases[1..]| ==> cases[1..][i] == cases[i + 1];
      r
  }

  /** The dict a mapping literal builds: each item assigned in turn. */
  function CaseDict(items: seq<Case>): (r: seq<Case>)
  {
    if |items| == 0 then [] else AssignCase(CaseDict(items[..|items| - 1]), items[|items| - 1])
  }

  /** The validator of the last item whose key equals `v`: the one a dict literal keeps. */
  function LastCase(items: seq<Case>, v: Value): Option<Validator>
  {
    if |items| == 0 then None
    else if KeyEq(items[|items| - 1].key, v) then Some(items[|items| - 1].validator)
    else LastCase(items[..|items| - 1], v)
  }
}
