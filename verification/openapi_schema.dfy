/**
 * sift's OpenAPI serialiser (`sift/openapi/schema.py`): a validator tree
 * becomes an OpenAPI Schema Object, for OpenAPI 3.0 (the `nullable` field of
 * the 3.0.3 Schema Object, tuples as an `items` list with `additionalItems`)
 * or 3.1 (a `[type, "null"]` type array, tuples as JSON Schema 2020-12
 * `prefixItems`). A union with a discriminator mapping registers one
 * component schema per mapped value in the context, which is threaded
 * through the walk in the order the source visits the children.
 */
module OpenApiSchema {
  import opened Wrappers
  import opened Text
  import opened Config
  import opened JsonValues

  datatype Version = V3_0 | V3_1

  /**
   * `SchemaContext`: the target version and `referenced_schemas`, in
   * registration order. `schema_refs` is always the key set of the latter.
   */
  datatype Context = Context(version: Version, schemas: seq<Member>)

  datatype Out = Out(schema: Json, ctx: Context)
  datatype OutSeq = OutSeq(schemas: seq<Json>, ctx: Context)
  datatype OutMembers = OutMembers(members: seq<Member>, ctx: Context)

  /** `d` is `c` after some registrations: same version, no name lost. */
  predicate Grows(c: Context, d: Context)
  {
    d.version == c.version && forall k :: k in Names(c.schemas) ==> k in Names(d.schemas)
  }

  /** `str(key)` of a discriminator value. */
  function KeyText(k: DiscKey): string
  {
    match k
    case DStr(s) => s
    case DInt(i) => IntToString(i)
    case DBool(b) => if b then "True" else "False"
    case DNone => "None"
  }

  /** The component name a mapped discriminator value is registered under. */
  function ComponentName(k: DiscKey): string
  {
    KeyText(k) + "Schema"
  }

  function Ref(name: string): string
  {
    "#/components/schemas/" + name
  }

  /** The first of the string formats that is set. */
  function Format(s: StringSpec): (r: Option<string>)
    ensures r.None? <==> !s.email && !s.url && !s.uuid && !s.datetime && !s.date
  {
    if s.email then Some("email")
    else if s.url then Some("uri")
    else if s.uuid then Some("uuid")
    else if s.datetime then Some("date-time")
    else if s.date then Some("date")
    else None
  }

  /** `if value is not None: schema[k] = value` */
  function PutOpt(ms: seq<Member>, k: string, o: Option<Json>): seq<Member>
  {
    if o.Some? then Put(ms, k, o.value) else ms
  }

  function IntOpt(o: Option<int>): Option<Json>
  {
    if o.Some? then Some(JInt(o.value)) else None
  }

  function StrOpt(o: Option<string>): Option<Json>
  {
    if o.Some? then Some(JStr(o.value)) else None
  }

  /** `true`, only when the flag is set. */
  function Flag(b: bool): Option<Json>
  {
    if b then Some(JBool(true)) else None
  }

  function PutInt(ms: seq<Member>, k: string, o: Option<int>): seq<Member>
  {
    PutOpt(ms, k, IntOpt(o))
  }

  /** The nullable support every typed kind shares. */
  function MarkNullable(ms: seq<Member>, t: string, nullable: bool, version: Version): seq<Member>
  {
    if !nullable then ms
    else if version == V3_1 then Put(ms, "type", JArr([JStr(t), JStr("null")]))
    else Put(ms, "nullable", JBool(true))
  }

  function Strs(xs: seq<string>): (r: seq<Json>)
    ensures |r| == |xs| && forall i :: 0 <= i < |xs| ==> r[i] == JStr(xs[i])
  {
    seq(|xs|, i requires 0 <= i < |xs| => JStr(xs[i]))
  }

  /* ---------------------------------------------------------------- the leaves */

  /** A string's schema before the nullable support. */
  function StringMembers(s: StringSpec): seq<Member>
  {
    var ms := [Member("type", JStr("string"))];
    var ms := PutOpt(ms, "format", StrOpt(Format(s)));
    var ms := PutInt(ms, "minLength", s.minLen);
    var ms := PutInt(ms, "maxLength", s.maxLen);
    PutOpt(ms, "pattern", StrOpt(s.pattern))
  }

  function NumberType(n: NumberSpec): string
  {
    if n.integer then "integer" else "number"
  }

  function Divisor(n: NumberSpec): Option<int>
  {
    if n.multipleOf.Some? then Some(n.multipleOf.value as int) else None
  }

  /** The exclusive zero bound `positive` (`negative`) adds when no minimum (maximum) is set. */
  function ZeroBound(asked: bool, bound: Option<int>): Option<Json>
  {
    if asked && bound.None? then Some(JInt(0)) else None
  }

  /** A number's schema before the nullable support. */
  function NumberMembers(n: NumberSpec): seq<Member>
  {
    var ms := [Member("type", JStr(NumberType(n)))];
    var ms := PutInt(ms, "minimum", n.minVal);
    var ms := PutInt(ms, "maximum", n.maxVal);
    var ms := PutInt(ms, "multipleOf", Divisor(n));
    var ms := PutOpt(ms, "exclusiveMinimum", ZeroBound(n.positive, n.minVal));
    PutOpt(ms, "exclusiveMaximum", ZeroBound(n.negative, n.maxVal))
  }

  /** A list's length and uniqueness constraints. */
  function ListBounds(ms: seq<Member>, k: Kind): seq<Member>
    requires k.ListK?
  {
    var ms := PutInt(ms, "minItems", k.minItems);
    var ms := PutInt(ms, "maxItems", k.maxItems);
    PutOpt(ms, "uniqueItems", Flag(k.unique))
  }

  /** A dict's property-count constraints. */
  function CountBounds(ms: seq<Member>, d: DictSpec): seq<Member>
  {
    PutInt(PutInt(ms, "minProperties", d.minProps), "maxProperties", d.maxProps)
  }

  /** A tuple's closing length constraints: its minimum always, its maximum if set. */
  function TupleBounds(ms: seq<Member>, k: Kind): seq<Member>
    requires k.TupleK?
  {
    PutInt(Put(ms, "minItems", JInt(k.minLength)), "maxItems", k.maxLength)
  }

  /** `additionalProperties` when it is not a validator. */
  function AdditionalFlag(a: Additional): Json
  {
    JBool(!a.Forbid?)
  }

  /* ---------------------------------------------------------------- the walk */

  /** `_generate_schema_for_validator` */
  function Schema(v: Validator, ctx: Context): (r: Out)
    ensures Grows(ctx, r.ctx) && r.schema.JObj?
    decreases v
  {
    match v.kind
    case StringK(s) => Out(JObj(MarkNullable(StringMembers(s), "string", v.nullable, ctx.version)), ctx)
    case NumberK(n) => Out(JObj(MarkNullable(NumberMembers(n), NumberType(n), v.nullable, ctx.version)), ctx)
    case BooleanK(_) => Out(JObj(MarkNullable([Member("type", JStr("boolean"))], "boolean", v.nullable, ctx.version)), ctx)
    case ListK(_, _, _, _, _) => ArraySchema(v.kind, v.nullable, ctx)
    case DictK(d) => ObjectSchema(d, v.nullable, ctx)
    case TupleK(_, _, _, _) => TupleSchema(v.kind, v.nullable, ctx)
    case UnionK(_, _, _) => UnionSchema(v.kind, v.nullable, ctx)
    case NullK => Out(JObj([Member("type", JStr("null"))]), ctx)
    case AnyK => Out(JObj([]), ctx)
    // `Object`, `EmailValidator` and any other class: no restriction.
    case EmailK(_) => Out(JObj([]), ctx)
    case ObjectK(_) => Out(JObj([]), ctx)
    case CustomK(_) => Out(JObj([]), ctx)
  }

  /** The schemas of `vs`, in order. */
  function SchemaSeq(vs: seq<Validator>, ctx: Context): (r: OutSeq)
    ensures Grows(ctx, r.ctx) && |r.schemas| == |vs|
    decreases vs
  {
    if |vs| == 0 then OutSeq([], ctx)
    else
      var first := Schema(vs[0], ctx);
      var rest := SchemaSeq(vs[1..], first.ctx);
      OutSeq([first.schema] + rest.schemas, rest.ctx)
  }

  function ArraySchema(k: Kind, nullable: bool, ctx: Context): (r: Out)
    requires k.ListK?
    ensures Grows(ctx, r.ctx) && r.schema.JObj?
    decreases k
  {
    var item := if k.item.Some? then Schema(k.item.value, ctx) else Out(JObj([]), ctx);
    var ms := [Member("type", JStr("array")), Member("items", item.schema)];
    Out(JObj(MarkNullable(ListBounds(ms, k), "array", nullable, ctx.version)), item.ctx)
  }

  /** `properties[key] = schema` for each schema entry, in order. */
  function Properties(fs: seq<Field>, ctx: Context, acc: seq<Member>): (r: OutMembers)
    ensures Grows(ctx, r.ctx)
    decreases fs
  {
    if |fs| == 0 then OutMembers(acc, ctx)
    else
      var o := Schema(fs[0].validator, ctx);
      Properties(fs[1..], o.ctx, Put(acc, fs[0].key, o.schema))
  }

  /** `pattern_properties[pattern] = schema` for each rule, in order. */
  function PatternProperties(ps: seq<PatternRule>, ctx: Context, acc: seq<Member>): (r: OutMembers)
    ensures Grows(ctx, r.ctx)
    decreases ps
  {
    if |ps| == 0 then OutMembers(acc, ctx)
    else
      var o := Schema(ps[0].validator, ctx);
      PatternProperties(ps[1..], o.ctx, Put(acc, ps[0].pattern, o.schema))
  }

  /** `properties` and `required`, only for a non-empty schema. */
  function PropertiesPart(d: DictSpec, ctx: Context): (r: OutMembers)
    ensures Grows(ctx, r.ctx)
    decreases d, 1
  {
    if |d.schema| == 0 then OutMembers([Member("type", JStr("object"))], ctx)
    else
      var p := Properties(d.schema, ctx, []);
      var ms := [Member("type", JStr("object")), Member("properties", JObj(p.members))];
      OutMembers(if |d.required| > 0 then Put(ms, "required", JArr(Strs(d.required))) else ms, p.ctx)
  }

  /** `additionalProperties`: the flag as given, or the validator's schema. */
  function AdditionalSchema(d: DictSpec, ctx: Context): (r: Out)
    ensures Grows(ctx, r.ctx)
    decreases d, 0
  {
    match d.additional
    case ValidateWith(w) => Schema(w, ctx)
    case _ => Out(AdditionalFlag(d.additional), ctx)
  }

  function ObjectSchema(d: DictSpec, nullable: bool, ctx: Context): (r: Out)
    ensures Grows(ctx, r.ctx) && r.schema.JObj?
    decreases d, 2
  {
    var p := PropertiesPart(d, ctx);
    var extra := AdditionalSchema(d, p.ctx);
    var ms := Put(p.members, "additionalProperties", extra.schema);
    var rules := if |d.patterns| > 0 then PatternProperties(d.patterns, extra.ctx, []) else OutMembers([], extra.ctx);
    var ms := PutOpt(ms, "patternProperties", if |d.patterns| > 0 then Some(JObj(rules.members)) else None);
    Out(JObj(MarkNullable(CountBounds(ms, d), "object", nullable, ctx.version)), rules.ctx)
  }

  /**
   * A tuple's members before the closing bounds: `prefixItems` with `items`
   * for the rest validator under OpenAPI 3.1 (or, without one, both bounds
   * at once), `items` with `additionalItems` under OpenAPI 3.0.
   */
  function TupleMembers(k: Kind, items: seq<Json>, rest: Json, version: Version): (r: seq<Member>)
    requires k.TupleK?
  {
    var ms := [Member("type", JStr("array"))];
    if version == V3_1 then
      var ms := Put(ms, "prefixItems", JArr(items));
      if k.rest.Some? then Put(ms, "items", rest)
      else
        var ms := Put(ms, "minItems", JInt(k.minLength));
        Put(ms, "maxItems", JInt(if k.maxLength.Some? then k.maxLength.value else |items|))
    else
      Put(Put(ms, "items", JArr(items)), "additionalItems", rest)
  }

  function TupleSchema(k: Kind, nullable: bool, ctx: Context): (r: Out)
    requires k.TupleK?
    ensures Grows(ctx, r.ctx) && r.schema.JObj?
    decreases k
  {
    var items := SchemaSeq(k.items, ctx);
    var rest := if k.rest.Some? then Schema(k.rest.value, items.ctx) else Out(JBool(false), items.ctx);
    var ms := TupleMembers(k, items.schemas, rest.schema, ctx.version);
    Out(JObj(MarkNullable(TupleBounds(ms, k), "array", nullable, ctx.version)), rest.ctx)
  }

  /**
   * The discriminator mapping: each mapped validator's schema is registered
   * as a component, and the mapping points at it.
   */
  function Mapping(k: Kind, i: nat, ctx: Context, acc: seq<Member>): (r: OutMembers)
    requires k.UnionK? && i <= |k.mapping|
    ensures Grows(ctx, r.ctx)
    decreases k, 0, |k.mapping| - i
  {
    if i == |k.mapping| then OutMembers(acc, ctx)
    else
      var c := k.mapping[i];
      var name := ComponentName(c.key);
      assert c in k.mapping;
      var o := Schema(c.validator, ctx);
      PutKeeps(o.ctx.schemas, name, o.schema);
      var registered := o.ctx.(schemas := Put(o.ctx.schemas, name, o.schema));
      Mapping(k, i + 1, registered, Put(acc, KeyText(c.key), JStr(Ref(name))))
  }

  /** The discriminator is used only when both a field name and a mapping are set. */
  predicate Discriminates(k: Kind)
    requires k.UnionK?
  {
    k.discriminator.Some? && k.discriminator.value != "" && |k.mapping| > 0
  }

  function UnionSchema(k: Kind, nullable: bool, ctx: Context): (r: Out)
    requires k.UnionK?
    ensures Grows(ctx, r.ctx) && r.schema.JObj?
    decreases k, 1
  {
    var variants := SchemaSeq(k.options, ctx);
    var map_ := if Discriminates(k) then Mapping(k, 0, variants.ctx, []) else OutMembers([], variants.ctx);
    var anyOf := variants.schemas + (if nullable && ctx.version == V3_1 then [JObj([Member("type", JStr("null"))])] else []);
    var ms := [Member("anyOf", JArr(anyOf))];
    var ms :=
      if Discriminates(k) then
        Put(ms, "discriminator", JObj([Member("propertyName", JStr(k.discriminator.value)), Member("mapping", JObj(map_.members))]))
      else ms;
    var ms := if nullable && ctx.version == V3_0 then Put(ms, "nullable", JBool(true)) else ms;
    Out(JObj(ms), map_.ctx)
  }

  /* ---------------------------------------------------------------- entry points */

  /** `generate_schema(validator, schema_name, context)`: a non-empty name registers the schema. */
  function GenerateSchema(v: Validator, name: string, ctx: Context): (r: Out)
    ensures Grows(ctx, r.ctx)
    ensures name != "" ==> Get(r.ctx.schemas, name) == Some(r.schema)
  {
    var o := Schema(v, ctx);
    PutKeeps(o.ctx.schemas, name, o.schema);
    PutGet(o.ctx.schemas, name, o.schema);
    if name != "" then Out(o.schema, o.ctx.(schemas := Put(o.ctx.schemas, name, o.schema))) else o
  }

  function VersionText(version: Version): string
  {
    if version == V3_0 then "3.0.3" else "3.1.0"
  }

  /** `generate_full_openapi_schema` */
  function FullDocument(v: Validator, title: string, apiVersion: string, version: Version, description: string): (r: Json)
    ensures r.JObj? && Names(r.members) == ["openapi", "info", "paths", "components"]
  {
    var o := GenerateSchema(v, "RootSchema", Context(version, []));
    JObj([
      Member("openapi", JStr(VersionText(version))),
      Member("info", JObj([Member("title", JStr(title)), Member("version", JStr(apiVersion)), Member("description", JStr(description))])),
      Member("paths", JObj([])),
      Member("components", JObj([Member("schemas", JObj(o.ctx.schemas))]))])
  }
}
