/**
 * The constructors and configuration methods of sift's collection validators
 * `List`, `Dict`, `Tuple` and `Union`. What they configure is interpreted by
 * the engine.
 */
module Collections {
  import opened Wrappers
  import opened Values
  import opened Config

  /* ---------------------------------------------------------------- List */

  /** `List(item_validator)` */
  function ListOf(item: Option<Validator>): (r: Validator)
    ensures r.kind.ListK? && r.kind.item == item
    ensures r.kind.minItems.None? && r.kind.maxItems.None? && !r.kind.unique && !r.kind.nonemptyList
  {
    Fresh(ListK(item, None, None, false, false))
  }

  /** `min(n)` */
  function ListMin(v: Validator, n: int): (r: Validator)
    requires v.kind.ListK?
    ensures r.kind.ListK? && r.kind.minItems == Some(n)
    ensures r.kind.(minItems := v.kind.minItems) == v.kind && r.(kind := v.kind) == v
  {
    v.(kind := v.kind.(minItems := Some(n)))
  }

  /** `max(n)` */
  function ListMax(v: Validator, n: int): (r: Validator)
    requires v.kind.ListK?
    ensures r.kind.ListK? && r.kind.maxItems == Some(n)
    ensures r.kind.(maxItems := v.kind.maxItems) == v.kind && r.(kind := v.kind) == v
  {
    v.(kind := v.kind.(maxItems := Some(n)))
  }

  /** `length(n)`: both bounds at once. */
  function ListLength(v: Validator, n: int): (r: Validator)
    requires v.kind.ListK?
    ensures r.kind.ListK? && r.kind.minItems == Some(n) && r.kind.maxItems == Some(n)
    ensures r.kind.(minItems := v.kind.minItems, maxItems := v.kind.maxItems) == v.kind && r.(kind := v.kind) == v
  {
    v.(kind := v.kind.(minItems := Some(n), maxItems := Some(n)))
  }

  /** `unique()` */
  function ListUnique(v: Validator): (r: Validator)
    requires v.kind.ListK?
    ensures r.kind.ListK? && r.kind.unique
    ensures r.kind.(unique := v.kind.unique) == v.kind && r.(kind := v.kind) == v
  {
    v.(kind := v.kind.(unique := true))
  }

  /** `nonempty()` */
  function ListNonempty(v: Validator): (r: Validator)
    requires v.kind.ListK?
    ensures r.kind.ListK? && r.kind.nonemptyList
    ensures r.kind.(nonemptyList := v.kind.nonemptyList) == v.kind && r.(kind := v.kind) == v
  {
    v.(kind := v.kind.(nonemptyList := true))
  }

  /* ---------------------------------------------------------------- Dict */

  /** Some schema entry for `k` has a validator that is neither optional nor nullable. */
  predicate RequiredField(schema: seq<Field>, k: string)
  {
    exists i :: 0 <= i < |schema| && schema[i].key == k && !schema[i].validator.optional && !schema[i].validator.nullable
  }

  /** The schema keys whose validator is neither optional nor nullable, in schema order. */
  function DefaultRequired(schema: seq<Field>): (r: seq<string>)
    ensures forall k :: k in r <==> RequiredField(schema, k)
  {
    if |schema| == 0 then []
    else
      var f := schema[0];
      var rest := DefaultRequired(schema[1..]);
      assert forall i :: 1 <= i < |schema| ==> schema[i] == schema[1..][i - 1];
      (if !f.validator.optional && !f.validator.nullable then [f.key] else []) + rest
  }

  /** A fresh `Dict(schema)`'s settings: additional properties allowed, no rules, no bounds. */
  function DictSpecOf(schema: seq<Field>): (r: DictSpec)
    ensures r.schema == schema && r.required == DefaultRequired(schema)
    ensures r.additional == AllowAll && r.patterns == [] && r.minProps.None? && r.maxProps.None? && r.excluded == {}
  {
    DictSpec(schema, DefaultRequired(schema), AllowAll, [], None, None, {})
  }

  /** `Dict(schema)` */
  function DictOf(schema: seq<Field>): (r: Validator)
    ensures r.kind == DictK(DictSpecOf(schema)) && r == Fresh(r.kind)
  {
    Fresh(DictK(DictSpecOf(schema)))
  }

  /** Replace the settings of a `Dict` validator, keeping its flags. */
  function WithDict(v: Validator, d: DictSpec): (r: Validator)
    requires v.kind.DictK?
    ensures r.kind == DictK(d) && r.(kind := v.kind) == v
  {
    v.(kind := DictK(d))
  }

  /** `additional_properties(allowed)` */
  function DictAdditional(v: Validator, a: Additional): (r: Validator)
    requires v.kind.DictK?
    ensures r.kind.DictK? && r.kind.dict.additional == a
    ensures r.kind.dict.(additional := v.kind.dict.additional) == v.kind.dict && r.(kind := v.kind) == v
  {
    WithDict(v, v.kind.dict.(additional := a))
  }

  /** Where the rule for `pattern` is, if there is one. */
  function PatternIndex(rules: seq<PatternRule>, pattern: string): (r: Option<nat>)
    ensures r.Some? ==> r.value < |rules| && rules[r.value].pattern == pattern
    ensures r.None? ==> pattern !in PatternKeys(rules)
  {
    if |rules| == 0 then None
    else if rules[0].pattern == pattern then Some(0)
    else match PatternIndex(rules[1..], pattern)
      case None => None
      case Some(i) => Some(i + 1)
  }

  /** `pattern_properties[pattern] = validator` on a copy: an existing rule keeps its place, a new one goes last. */
  function SetRule(rules: seq<PatternRule>, pattern: string, w: Validator): (r: seq<PatternRule>)
    ensures pattern in PatternKeys(rules) ==> PatternKeys(r) == PatternKeys(rules)
    ensures pattern !in PatternKeys(rules) ==> PatternKeys(r) == PatternKeys(rules) + [pattern]
    ensures PatternRule(pattern, w) in r
    ensures forall i :: 0 <= i < |rules| ==> r[i] == rules[i] || r[i] == PatternRule(pattern, w)
  {
    match PatternIndex(rules, pattern)
    case Some(i) =>
      var r := rules[i := PatternRule(pattern, w)];
      assert r[i] == PatternRule(pattern, w);
      r
    case None =>
      var r := rules + [PatternRule(pattern, w)];
      assert r[|rules|] == PatternRule(pattern, w);
      r
  }

  /** `pattern_property(pattern, validator)` */
  function DictPatternProperty(v: Validator, pattern: string, w: Validator): (r: Validator)
    requires v.kind.DictK?
    ensures r.kind.DictK? && r.kind.dict.patterns == SetRule(v.kind.dict.patterns, pattern, w)
    ensures r.kind.dict.(patterns := v.kind.dict.patterns) == v.kind.dict && r.(kind := v.kind) == v
  {
    WithDict(v, v.kind.dict.(patterns := SetRule(v.kind.dict.patterns, pattern, w)))
  }

  /** The keys in order of first occurrence, each once: `set(keys)` given an iteration order. */
  function Dedup(keys: seq<string>): (r: seq<string>)
    ensures Distinct(r)
    ensures forall k :: k in r <==> k in keys
    ensures |r| <= |keys|
    decreases |keys|
  {
    if |keys| == 0 then []
    else
      var rest := Dedup(Drop(keys[1..], keys[0]));
      assert keys[0] !in rest;
      [keys[0]] + rest
  }

  /** The keys other than `k`, in order. */
  function Drop(keys: seq<string>, k: string): (r: seq<string>)
    ensures forall x :: x in r <==> x in keys && x != k
    ensures |r| <= |keys|
  {
    if |keys| == 0 then []
    else (if keys[0] == k then [] else [keys[0]]) + Drop(keys[1..], k)
  }

  /** `required(*keys)`: the given keys replace the default set. */
  function DictRequired(v: Validator, keys: seq<string>): (r: Validator)
    requires v.kind.DictK?
    ensures r.kind.DictK? && Distinct(r.kind.dict.required)
    ensures forall k :: k in r.kind.dict.required <==> k in keys
    ensures r.kind.dict.(required := v.kind.dict.required) == v.kind.dict && r.(kind := v.kind) == v
  {
    WithDict(v, v.kind.dict.(required := Dedup(keys)))
  }

  /** `min_properties(n)` */
  function DictMinProps(v: Validator, n: int): (r: Validator)
    requires v.kind.DictK?
    ensures r.kind.DictK? && r.kind.dict.minProps == Some(n)
    ensures r.kind.dict.(minProps := v.kind.dict.minProps) == v.kind.dict && r.(kind := v.kind) == v
  {
    WithDict(v, v.kind.dict.(minProps := Some(n)))
  }

  /** `max_properties(n)` */
  function DictMaxProps(v: Validator, n: int): (r: Validator)
    requires v.kind.DictK?
    ensures r.kind.DictK? && r.kind.dict.maxProps == Some(n)
    ensures r.kind.dict.(maxProps := v.kind.dict.maxProps) == v.kind.dict && r.(kind := v.kind) == v
  {
    WithDict(v, v.kind.dict.(maxProps := Some(n)))
  }

  /* ---------------------------------------------------------------- Tuple */

  /**
   * `Tuple(items, rest)`: at least one item per positional validator, and
   * exactly that many unless a rest validator takes the items beyond.
   */
  function TupleOf(items: seq<Validator>, rest: Option<Validator>): (r: Validator)
    ensures r.kind.TupleK? && r.kind.items == items && r.kind.rest == rest
    ensures r.kind.minLength == |items|
    ensures r.kind.maxLength == if rest.Some? then None else Some(|items|)
  {
    Fresh(TupleK(items, rest, |items|, if rest.Some? then None else Some(|items|)))
  }

  /** `min(n)`: never below the number of positional validators. */
  function TupleMin(v: Validator, n: int): (r: Validator)
    requires v.kind.TupleK?
    ensures r.kind.TupleK? && r.kind.minLength >= n && r.kind.minLength >= |v.kind.items|
    ensures r.kind.minLength == n || r.kind.minLength == |v.kind.items|
    ensures r.kind.(minLength := v.kind.minLength) == v.kind && r.(kind := v.kind) == v
  {
    v.(kind := v.kind.(minLength := if n >= |v.kind.items| then n else |v.kind.items|))
  }

  /** `max(n)`: a `ValueError` unless there is a rest validator. */
  function TupleMax(v: Validator, n: int): (r: Result<Validator, string>)
    requires v.kind.TupleK?
    ensures r.Failure? <==> v.kind.rest.None?
    ensures r.Failure? ==> r.error == "Cannot set max length without a rest validator"
    ensures r.Success? ==> r.value.kind.TupleK? && r.value.kind.maxLength == Some(n)
    ensures r.Success? ==> r.value.kind.(maxLength := v.kind.maxLength) == v.kind && r.value.(kind := v.kind) == v
  {
    if v.kind.rest.None? then Failure("Cannot set max length without a rest validator")
    else Success(v.(kind := v.kind.(maxLength := Some(n))))
  }

  /* ---------------------------------------------------------------- Union */

  /** `Union(validators, discriminator)` */
  function UnionOf(options: seq<Validator>, discriminator: Option<string>): (r: Validator)
    ensures r.kind.UnionK? && r.kind.options == options && r.kind.discriminator == discriminator
    ensures r.kind.mapping == []
  {
    Fresh(UnionK(options, discriminator, []))
  }

  /**
   * `discriminator_mapping(mapping)`: a `ValueError` unless a non-empty
   * discriminator field is set. `items` are the mapping's items as written;
   * the stored map is the dict they build.
   */
  function UnionMapping(v: Validator, items: seq<Case>): (r: Result<Validator, string>)
    requires v.kind.UnionK?
    ensures r.Failure? <==> v.kind.discriminator.None? || v.kind.discriminator.value == ""
    ensures r.Failure? ==> r.error == "Cannot set discriminator mapping without a discriminator field"
    ensures r.Success? ==> r.value.kind.UnionK? && r.value.kind.mapping == CaseDict(items)
    ensures r.Success? ==> r.value.kind.(mapping := v.kind.mapping) == v.kind && r.value.(kind := v.kind) == v
  {
    if v.kind.discriminator.None? || v.kind.discriminator.value == "" then
      Failure("Cannot set discriminator mapping without a discriminator field")
    else Success(v.(kind := v.kind.(mapping := CaseDict(items))))
  }
}
