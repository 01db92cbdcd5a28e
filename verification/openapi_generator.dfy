/**
 * sift's older OpenAPI serialiser (`sift/openapi/generator.py`): the same
 * walk as `OpenApiSchema` without a target version, without nullable
 * support and without registering discriminator components. An array
 * without an item validator has no `items`, a tuple always takes the
 * OpenAPI 3.0 form, and a discriminator mapping points at a component named
 * after the discriminator value itself.
 */
module OpenApiGenerator {
  import opened Wrappers
  import opened Config
  import opened JsonValues
  import opened OpenApiSchema

  /** `_generate_schema_for_validator` */
  function Describe(v: Validator): (r: Json)
    ensures r.JObj?
    decreases v
  {
    match v.kind
    case StringK(s) => JObj(StringMembers(s))
    case NumberK(n) => JObj(NumberMembers(n))
    case BooleanK(_) => JObj([Member("type", JStr("boolean"))])
    case ListK(_, _, _, _, _) => DescribeArray(v.kind)
    case DictK(d) => DescribeObject(d)
    case TupleK(_, _, _, _) => DescribeTuple(v.kind)
    case UnionK(_, _, _) => DescribeUnion(v.kind)
    case NullK => JObj([Member("type", JStr("null"))])
    case AnyK => JObj([])
    case EmailK(_) => JObj([])
    case ObjectK(_) => JObj([])
    case CustomK(_) => JObj([])
  }

  /** The schemas of `vs`, in order. */
  function DescribeSeq(vs: seq<Validator>): (r: seq<Json>)
    ensures |r| == |vs|
    decreases vs
  {
    if |vs| == 0 then [] else [Describe(vs[0])] + DescribeSeq(vs[1..])
  }

  function DescribeArray(k: Kind): (r: Json)
    requires k.ListK?
    ensures r.JObj?
    decreases k
  {
    var ms := [Member("type", JStr("array"))];
    var ms := if k.item.Some? then Put(ms, "items", Describe(k.item.value)) else ms;
    JObj(ListBounds(ms, k))
  }

  /** `properties[key] = schema` for each schema entry, in order. */
  function DescribeFields(fs: seq<Field>, acc: seq<Member>): (r: seq<Member>)
    decreases fs
  {
    if |fs| == 0 then acc
    else DescribeFields(fs[1..], Put(acc, fs[0].key, Describe(fs[0].validator)))
  }

  /** `pattern_properties[pattern] = schema` for each rule, in order. */
  function DescribeRules(ps: seq<PatternRule>, acc: seq<Member>): (r: seq<Member>)
    decreases ps
  {
    if |ps| == 0 then acc
    else DescribeRules(ps[1..], Put(acc, ps[0].pattern, Describe(ps[0].validator)))
  }

  /** `type`, and `properties` with `required` for a non-empty schema. */
  function ObjectHead(d: DictSpec): (r: seq<Member>)
    decreases d, 0
  {
    var ms := [Member("type", JStr("object"))];
    if |d.schema| == 0 then ms
    else
      var ms := Put(ms, "properties", JObj(DescribeFields(d.schema, [])));
      if |d.required| > 0 then Put(ms, "required", JArr(Strs(d.required))) else ms
  }

  /** `additionalProperties`, `patternProperties` and the count bounds, after the head. */
  function ObjectTail(ms: seq<Member>, d: DictSpec): (r: seq<Member>)
    decreases d, 0
  {
    var extra := match d.additional
      case ValidateWith(w) => Describe(w)
      case _ => AdditionalFlag(d.additional);
    var ms := Put(ms, "additionalProperties", extra);
    var ms := if |d.patterns| > 0 then Put(ms, "patternProperties", JObj(DescribeRules(d.patterns, []))) else ms;
    CountBounds(ms, d)
  }

  function DescribeObject(d: DictSpec): (r: Json)
    ensures r.JObj?
    decreases d, 1
  {
    JObj(ObjectTail(ObjectHead(d), d))
  }

  function DescribeTuple(k: Kind): (r: Json)
    requires k.TupleK?
    ensures r.JObj?
    decreases k
  {
    var ms := [Member("type", JStr("array")), Member("items", JArr(DescribeSeq(k.items)))];
    var ms := Put(ms, "additionalItems", if k.rest.Some? then Describe(k.rest.value) else JBool(false));
    JObj(TupleBounds(ms, k))
  }

  /**
   * The generator's mapping: each discriminator value points at a component
   * of its own name. Entries are keyed by the value's text, so two values
   * with the same `str()` share one entry.
   */
  function RefsByValue(cs: seq<Case>, acc: seq<Member>): (r: seq<Member>)
    ensures forall i :: 0 <= i < |cs| ==> Get(r, KeyText(cs[i].key)) == Some(JStr(Ref(KeyText(cs[i].key))))
    ensures forall n :: (forall i :: 0 <= i < |cs| ==> KeyText(cs[i].key) != n) ==> Get(r, n) == Get(acc, n)
    decreases |cs|
  {
    if |cs| == 0 then acc
    else
      var t := KeyText(cs[0].key);
      PutGet(acc, t, JStr(Ref(t)));
      RefsByValue(cs[1..], Put(acc, t, JStr(Ref(t))))
  }

  function DescribeUnion(k: Kind): (r: Json)
    requires k.UnionK?
    ensures r.JObj?
    decreases k
  {
    var ms := [Member("anyOf", JArr(DescribeSeq(k.options)))];
    if Discriminates(k) then
      JObj(Put(ms, "discriminator", JObj([Member("propertyName", JStr(k.discriminator.value)), Member("mapping", JObj(RefsByValue(k.mapping, [])))])))
    else JObj(ms)
  }

  /** `generate_openapi_schema(validator, schema_name)`: the name only fills a fresh generator's components. */
  function GenerateOpenApiSchema(v: Validator, name: string): Json
  {
    Describe(v)
  }

  /** `generate_openapi_components(validator, schema_name)` */
  function GenerateOpenApiComponents(v: Validator, name: string): (r: seq<Member>)
    ensures name != "" ==> Names(r) == [name] && Get(r, name) == Some(GenerateOpenApiSchema(v, name))
    ensures name == "" ==> r == []
  {
    if name != "" then [Member(name, Describe(v))] else []
  }
}
