/**
 * What the OpenAPI serialiser puts in each schema. Each kind's schema is
 * stated as its exact member list: the type in the version's nullable
 * form, then every keyword once, in the order the serialiser assigns it and
 * exactly when its constraint is set, then `nullable: true` under OpenAPI
 * 3.0. Beside that: the discriminator mapping and the components it
 * registers, and the document around the root schema.
 */
module OpenApiProps {
  import opened Wrappers
  import opened Config
  import opened JsonValues
  import opened OpenApiSchema

  /* ---------------------------------------------------------------- member lists */

  /** A member present exactly when its value is. */
  function Opt(k: string, o: Option<Json>): seq<Member>
  {
    if o.Some? then [Member(k, o.value)] else []
  }

  /** The `type` value: the bare type, or under OpenAPI 3.1 a nullable `[type, "null"]`. */
  function TypeValue(t: string, nullable: bool, version: Version): Json
  {
    if nullable && version == V3_1 then JArr([JStr(t), JStr("null")]) else JStr(t)
  }

  /** The closing `nullable: true` of a nullable OpenAPI 3.0 schema. */
  function NullTail(nullable: bool, version: Version): seq<Member>
  {
    if nullable && version == V3_0 then [Member("nullable", JBool(true))] else []
  }

  /** Every key of `ms` is one of `keys`. */
  predicate KeysIn(ms: seq<Member>, keys: set<string>)
  {
    forall i :: 0 <= i < |ms| ==> ms[i].key in keys
  }

  lemma {:induction false} KeysInCons(m: Member, rest: seq<Member>, keys: set<string>)
    ensures KeysIn([m] + rest, keys) <==> m.key in keys && KeysIn(rest, keys)
  {
    var ms := [m] + rest;
    assert ms[0] == m;
    assert forall i :: 0 <= i < |rest| ==> ms[i + 1] == rest[i];
    if m.key in keys && KeysIn(rest, keys) {
      forall i | 0 <= i < |ms|
        ensures ms[i].key in keys
      {
        if i > 0 {
          assert ms[i] == rest[i - 1];
        }
      }
    }
  }

  lemma {:induction false} Assoc3<T>(a: seq<T>, b: seq<T>, c: seq<T>)
    ensures a + b + c == a + (b + c)
  {
  }

  lemma {:induction false} Assoc4<T>(a: seq<T>, b: seq<T>, c: seq<T>, d: seq<T>)
    ensures a + b + c + d == a + (b + c + d)
  {
  }

  lemma {:induction false} Assoc5<T>(a: seq<T>, b: seq<T>, c: seq<T>, d: seq<T>, e: seq<T>)
    ensures a + b + c + d + e == a + (b + c + d + e)
  {
  }

  lemma {:induction false} Assoc6<T>(a: seq<T>, b: seq<T>, c: seq<T>, d: seq<T>, e: seq<T>, f: seq<T>)
    ensures a + b + c + d + e + f == a + (b + c + d + e + f)
  {
  }

  /** Assigning a new key appends it. */
  lemma {:induction false} PutFresh(ms: seq<Member>, k: string, v: Json)
    requires forall i :: 0 <= i < |ms| ==> ms[i].key != k
    ensures Put(ms, k, v) == ms + [Member(k, v)]
  {
    if |ms| > 0 {
      PutFresh(ms[1..], k, v);
      assert ms == [ms[0]] + ms[1..];
    }
  }

  /** Assigning an existing key replaces its value where it stands. */
  lemma {:induction false} PutAt(pre: seq<Member>, k: string, was: Json, post: seq<Member>, v: Json)
    requires forall i :: 0 <= i < |pre| ==> pre[i].key != k
    ensures Put(pre + ([Member(k, was)] + post), k, v) == pre + ([Member(k, v)] + post)
  {
    var tail := [Member(k, was)] + post;
    if |pre| == 0 {
      assert pre + tail == tail;
      assert tail[1..] == post;
    } else {
      var ms := pre + tail;
      assert ms[0] == pre[0];
      assert ms[1..] == pre[1..] + tail;
      PutAt(pre[1..], k, was, post, v);
      assert pre + ([Member(k, v)] + post) == [pre[0]] + (pre[1..] + ([Member(k, v)] + post));
    }
  }

  /** One optional assignment of a new key, as a step of a builder. */
  lemma {:induction false} Add(ms: seq<Member>, keys: set<string>, k: string, o: Option<Json>) returns (next: seq<Member>)
    requires KeysIn(ms, keys) && k !in keys
    ensures next == ms + Opt(k, o)
    ensures PutOpt(ms, k, o) == next
    ensures KeysIn(next, keys + {k})
  {
    if o.Some? {
      PutFresh(ms, k, o.value);
    }
    next := ms + Opt(k, o);
    forall i | 0 <= i < |next|
      ensures next[i].key in keys + {k}
    {
      if i < |ms| {
        assert next[i] == ms[i];
      }
    }
  }

  /* ---------------------------------------------------------------- the nullable support */

  /**
   * The nullable support keeps a non-nullable schema, turns the type into
   * `[type, "null"]` in place under OpenAPI 3.1, and appends
   * `nullable: true` under OpenAPI 3.0.
   */
  lemma {:induction false} NullableForm(t: string, rest: seq<Member>, keys: set<string>, nullable: bool, version: Version)
    requires KeysIn(rest, keys) && "nullable" !in keys
    ensures MarkNullable([Member("type", JStr(t))] + rest, t, nullable, version) ==
      [Member("type", TypeValue(t, nullable, version))] + rest + NullTail(nullable, version)
  {
    var ms := [Member("type", JStr(t))] + rest;
    if nullable && version == V3_0 {
      forall i | 0 <= i < |ms|
        ensures ms[i].key != "nullable"
      {
        if i > 0 {
          assert ms[i] == rest[i - 1];
        }
      }
      PutFresh(ms, "nullable", JBool(true));
    } else if nullable {
      assert ms[1..] == rest;
    }
  }

  /* ---------------------------------------------------------------- which builder handles each kind */

  lemma {:induction false} SchemaIsString(v: Validator, ctx: Context)
    requires v.kind.StringK?
    ensures Schema(v, ctx) == Out(JObj(MarkNullable(StringMembers(v.kind.str), "string", v.nullable, ctx.version)), ctx)
  {
  }

  lemma {:induction false} SchemaIsNumber(v: Validator, ctx: Context)
    requires v.kind.NumberK?
    ensures Schema(v, ctx) == Out(JObj(MarkNullable(NumberMembers(v.kind.num), NumberType(v.kind.num), v.nullable, ctx.version)), ctx)
  {
  }

  lemma {:induction false} SchemaIsBoolean(v: Validator, ctx: Context)
    requires v.kind.BooleanK?
    ensures Schema(v, ctx) == Out(JObj(MarkNullable([Member("type", JStr("boolean"))], "boolean", v.nullable, ctx.version)), ctx)
  {
  }

  lemma {:induction false} SchemaIsArray(v: Validator, ctx: Context)
    requires v.kind.ListK?
    ensures Schema(v, ctx) == ArraySchema(v.kind, v.nullable, ctx)
  {
  }

  lemma {:induction false} SchemaIsObject(v: Validator, ctx: Context)
    requires v.kind.DictK?
    ensures Schema(v, ctx) == ObjectSchema(v.kind.dict, v.nullable, ctx)
  {
  }

  lemma {:induction false} SchemaIsTuple(v: Validator, ctx: Context)
    requires v.kind.TupleK?
    ensures Schema(v, ctx) == TupleSchema(v.kind, v.nullable, ctx)
  {
  }

  lemma {:induction false} SchemaIsUnion(v: Validator, ctx: Context)
    requires v.kind.UnionK?
    ensures Schema(v, ctx) == UnionSchema(v.kind, v.nullable, ctx)
  {
  }

  /* ---------------------------------------------------------------- strings, numbers, booleans */

  /** A string's keywords after its type, in the order they are assigned. */
  function StringKeywords(s: StringSpec): seq<Member>
  {
    Opt("format", StrOpt(Format(s))) + Opt("minLength", IntOpt(s.minLen)) + Opt("maxLength", IntOpt(s.maxLen))
      + Opt("pattern", StrOpt(s.pattern))
  }

  lemma {:induction false} StringMembersShape(s: StringSpec)
    ensures StringMembers(s) == [Member("type", JStr("string"))] + StringKeywords(s)
    ensures KeysIn(StringKeywords(s), {"type", "format", "minLength", "maxLength", "pattern"})
  {
    var ms := [Member("type", JStr("string"))];
    ms := Add(ms, {"type"}, "format", StrOpt(Format(s)));
    ms := Add(ms, {"type", "format"}, "minLength", IntOpt(s.minLen));
    ms := Add(ms, {"type", "format", "minLength"}, "maxLength", IntOpt(s.maxLen));
    ms := Add(ms, {"type", "format", "minLength", "maxLength"}, "pattern", StrOpt(s.pattern));
    Assoc5([Member("type", JStr("string"))], Opt("format", StrOpt(Format(s))), Opt("minLength", IntOpt(s.minLen)),
      Opt("maxLength", IntOpt(s.maxLen)), Opt("pattern", StrOpt(s.pattern)));
    KeysInCons(Member("type", JStr("string")), StringKeywords(s), {"type", "format", "minLength", "maxLength", "pattern"});
  }

  /**
   * A string schema: the type, then `format` (the first format flag set),
   * `minLength`, `maxLength` and `pattern` each exactly when set, then the
   * nullable form; nothing is registered.
   */
  lemma {:induction false} StringSchema(v: Validator, ctx: Context)
    requires v.kind.StringK?
    ensures Schema(v, ctx) == Out(JObj([Member("type", TypeValue("string", v.nullable, ctx.version))]
      + StringKeywords(v.kind.str) + NullTail(v.nullable, ctx.version)), ctx)
  {
    SchemaIsString(v, ctx);
    StringMembersShape(v.kind.str);
    NullableForm("string", StringKeywords(v.kind.str), {"type", "format", "minLength", "maxLength", "pattern"}, v.nullable, ctx.version);
  }

  /** A number's keywords after its type, in the order they are assigned. */
  function NumberKeywords(n: NumberSpec): seq<Member>
  {
    Opt("minimum", IntOpt(n.minVal)) + Opt("maximum", IntOpt(n.maxVal))
      + Opt("multipleOf", IntOpt(Divisor(n)))
      + Opt("exclusiveMinimum", ZeroBound(n.positive, n.minVal))
      + Opt("exclusiveMaximum", ZeroBound(n.negative, n.maxVal))
  }

  lemma {:induction false} NumberMembersShape(n: NumberSpec)
    ensures NumberMembers(n) == [Member("type", JStr(NumberType(n)))] + NumberKeywords(n)
    ensures KeysIn(NumberKeywords(n), {"type", "minimum", "maximum", "multipleOf", "exclusiveMinimum", "exclusiveMaximum"})
  {
    var ms := [Member("type", JStr(NumberType(n)))];
    ms := Add(ms, {"type"}, "minimum", IntOpt(n.minVal));
    ms := Add(ms, {"type", "minimum"}, "maximum", IntOpt(n.maxVal));
    ms := Add(ms, {"type", "minimum", "maximum"}, "multipleOf", IntOpt(Divisor(n)));
    ms := Add(ms, {"type", "minimum", "maximum", "multipleOf"}, "exclusiveMinimum", ZeroBound(n.positive, n.minVal));
    ms := Add(ms, {"type", "minimum", "maximum", "multipleOf", "exclusiveMinimum"}, "exclusiveMaximum", ZeroBound(n.negative, n.maxVal));
    Assoc6([Member("type", JStr(NumberType(n)))], Opt("minimum", IntOpt(n.minVal)), Opt("maximum", IntOpt(n.maxVal)),
      Opt("multipleOf", IntOpt(Divisor(n))), Opt("exclusiveMinimum", ZeroBound(n.positive, n.minVal)),
      Opt("exclusiveMaximum", ZeroBound(n.negative, n.maxVal)));
    KeysInCons(Member("type", JStr(NumberType(n))), NumberKeywords(n), {"type", "minimum", "maximum", "multipleOf", "exclusiveMinimum", "exclusiveMaximum"});
  }

  /**
   * A number schema: type `integer` for integer validators and `number`
   * otherwise, then `minimum`, `maximum` and `multipleOf` each exactly when
   * set, an exclusive zero bound exactly when `positive` (`negative`) is
   * asked for without a minimum (maximum), then the nullable form.
   */
  lemma {:induction false} NumberSchema(v: Validator, ctx: Context)
    requires v.kind.NumberK?
    ensures Schema(v, ctx) == Out(JObj([Member("type", TypeValue(if v.kind.num.integer then "integer" else "number", v.nullable, ctx.version))]
      + NumberKeywords(v.kind.num) + NullTail(v.nullable, ctx.version)), ctx)
  {
    SchemaIsNumber(v, ctx);
    NumberMembersShape(v.kind.num);
    NullableForm(NumberType(v.kind.num), NumberKeywords(v.kind.num), {"type", "minimum", "maximum", "multipleOf", "exclusiveMinimum", "exclusiveMaximum"}, v.nullable, ctx.version);
  }

  /** A boolean schema is the boolean type in the version's nullable form and nothing else. */
  lemma {:induction false} BooleanSchema(v: Validator, ctx: Context)
    requires v.kind.BooleanK?
    ensures Schema(v, ctx) == Out(JObj([Member("type", TypeValue("boolean", v.nullable, ctx.version))] + NullTail(v.nullable, ctx.version)), ctx)
  {
    SchemaIsBoolean(v, ctx);
    NullableForm("boolean", [], {}, v.nullable, ctx.version);
    assert [Member("type", JStr("boolean"))] + [] == [Member("type", JStr("boolean"))];
    assert [Member("type", TypeValue("boolean", v.nullable, ctx.version))] + [] == [Member("type", TypeValue("boolean", v.nullable, ctx.version))];
  }

  /* ---------------------------------------------------------------- arrays */

  function ListKeywords(k: Kind): seq<Member>
    requires k.ListK?
  {
    Opt("minItems", IntOpt(k.minItems)) + Opt("maxItems", IntOpt(k.maxItems))
      + Opt("uniqueItems", Flag(k.unique))
  }

  lemma {:induction false} ListBoundsShape(ms: seq<Member>, keys: set<string>, k: Kind)
    requires k.ListK? && KeysIn(ms, keys)
    requires "minItems" !in keys && "maxItems" !in keys && "uniqueItems" !in keys
    ensures ListBounds(ms, k) == ms + ListKeywords(k)
    ensures KeysIn(ListBounds(ms, k), keys + {"minItems", "maxItems", "uniqueItems"})
  {
    var r := Add(ms, keys, "minItems", IntOpt(k.minItems));
    r := Add(r, keys + {"minItems"}, "maxItems", IntOpt(k.maxItems));
    r := Add(r, keys + {"minItems", "maxItems"}, "uniqueItems", Flag(k.unique));
    Assoc4(ms, Opt("minItems", IntOpt(k.minItems)), Opt("maxItems", IntOpt(k.maxItems)), Opt("uniqueItems", Flag(k.unique)));
  }

  /**
   * A list schema: the type, `items` (the item validator's schema, or the
   * empty schema without one), `minItems`, `maxItems` and `uniqueItems`
   * each exactly when set, then the nullable form; the context is the one
   * the item's walk left.
   */
  lemma {:induction false} ArraySchemaShape(k: Kind, nullable: bool, ctx: Context)
    requires k.ListK?
    ensures var item := if k.item.Some? then Schema(k.item.value, ctx) else Out(JObj([]), ctx);
      ArraySchema(k, nullable, ctx) == Out(JObj([Member("type", TypeValue("array", nullable, ctx.version)), Member("items", item.schema)]
        + ListKeywords(k) + NullTail(nullable, ctx.version)), item.ctx)
  {
    var item := if k.item.Some? then Schema(k.item.value, ctx) else Out(JObj([]), ctx);
    var ms := [Member("type", JStr("array")), Member("items", item.schema)];
    var keys := {"type", "items", "minItems", "maxItems", "uniqueItems"};
    ListBoundsShape(ms, {"type", "items"}, k);
    var rest := [Member("items", item.schema)] + ListKeywords(k);
    assert ms + ListKeywords(k) == [Member("type", JStr("array"))] + rest;
    KeysInCons(Member("type", JStr("array")), rest, keys);
    NullableForm("array", rest, keys, nullable, ctx.version);
  }

  /* ---------------------------------------------------------------- objects */

  /** `properties` and `required`: both absent for an empty schema, `required` only when some key is. */
  function HeadKeywords(d: DictSpec, ctx: Context): seq<Member>
  {
    if |d.schema| == 0 then []
    else
      [Member("properties", JObj(Properties(d.schema, ctx, []).members))]
        + (if |d.required| > 0 then [Member("required", JArr(Strs(d.required)))] else [])
  }

  lemma {:induction false} PropertiesPartShape(d: DictSpec, ctx: Context)
    ensures PropertiesPart(d, ctx).members == [Member("type", JStr("object"))] + HeadKeywords(d, ctx)
    ensures KeysIn(HeadKeywords(d, ctx), {"properties", "required"})
  {
    if |d.schema| > 0 {
      var p := Properties(d.schema, ctx, []);
      var ms := [Member("type", JStr("object")), Member("properties", JObj(p.members))];
      if |d.required| > 0 {
        PutFresh(ms, "required", JArr(Strs(d.required)));
      }
    }
  }

  /** What follows the head of a dict schema, before the nullable form. */
  function TailKeywords(d: DictSpec, extra: Json, rules: seq<Member>): seq<Member>
  {
    [Member("additionalProperties", extra)]
      + Opt("patternProperties", if |d.patterns| > 0 then Some(JObj(rules)) else None)
      + Opt("minProperties", IntOpt(d.minProps)) + Opt("maxProperties", IntOpt(d.maxProps))
  }

  lemma {:induction false} ObjectTailShape(head: seq<Member>, keys: set<string>, d: DictSpec, extra: Json, rules: seq<Member>)
    requires KeysIn(head, keys)
    requires "additionalProperties" !in keys && "patternProperties" !in keys
    requires "minProperties" !in keys && "maxProperties" !in keys
    ensures var ms := Put(head, "additionalProperties", extra);
      var ms := PutOpt(ms, "patternProperties", if |d.patterns| > 0 then Some(JObj(rules)) else None);
      CountBounds(ms, d) == head + TailKeywords(d, extra, rules)
    ensures KeysIn(head + TailKeywords(d, extra, rules), keys + {"additionalProperties", "patternProperties", "minProperties", "maxProperties"})
  {
    var ms := Add(head, keys, "additionalProperties", Some(extra));
    ms := Add(ms, keys + {"additionalProperties"}, "patternProperties", if |d.patterns| > 0 then Some(JObj(rules)) else None);
    ms := Add(ms, keys + {"additionalProperties", "patternProperties"}, "minProperties", IntOpt(d.minProps));
    ms := Add(ms, keys + {"additionalProperties", "patternProperties", "minProperties"}, "maxProperties", IntOpt(d.maxProps));
    Assoc5(head, [Member("additionalProperties", extra)],
      Opt("patternProperties", if |d.patterns| > 0 then Some(JObj(rules)) else None),
      Opt("minProperties", IntOpt(d.minProps)), Opt("maxProperties", IntOpt(d.maxProps)));
  }

  /** A dict's members before the nullable support. */
  lemma {:induction false} ObjectMembersShape(d: DictSpec, ctx: Context)
    ensures var p := PropertiesPart(d, ctx);
      var extra := AdditionalSchema(d, p.ctx);
      var rules := if |d.patterns| > 0 then PatternProperties(d.patterns, extra.ctx, []) else OutMembers([], extra.ctx);
      var ms := Put(p.members, "additionalProperties", extra.schema);
      var ms := PutOpt(ms, "patternProperties", if |d.patterns| > 0 then Some(JObj(rules.members)) else None);
      && CountBounds(ms, d) == [Member("type", JStr("object"))] + (HeadKeywords(d, ctx) + TailKeywords(d, extra.schema, rules.members))
      && KeysIn(HeadKeywords(d, ctx) + TailKeywords(d, extra.schema, rules.members), {"type", "properties", "required", "additionalProperties", "patternProperties", "minProperties", "maxProperties"})
  {
    var p := PropertiesPart(d, ctx);
    var extra := AdditionalSchema(d, p.ctx);
    var rules := if |d.patterns| > 0 then PatternProperties(d.patterns, extra.ctx, []) else OutMembers([], extra.ctx);
    PropertiesPartShape(d, ctx);
    var ty := [Member("type", JStr("object"))];
    var head := ty + HeadKeywords(d, ctx);
    KeysInCons(Member("type", JStr("object")), HeadKeywords(d, ctx), {"type", "properties", "required"});
    ObjectTailShape(head, {"type", "properties", "required"}, d, extra.schema, rules.members);
    var rest := HeadKeywords(d, ctx) + TailKeywords(d, extra.schema, rules.members);
    Assoc3(ty, HeadKeywords(d, ctx), TailKeywords(d, extra.schema, rules.members));
    KeysInCons(Member("type", JStr("object")), rest, {"type", "properties", "required", "additionalProperties", "patternProperties", "minProperties", "maxProperties"});
  }

  /**
   * A dict schema: the type, `properties` exactly for a non-empty schema
   * with `required` exactly when some key is also required, always
   * `additionalProperties` (`true`, `false` or the validator's schema),
   * `patternProperties` exactly when there are rules, the property counts
   * exactly when set, then the nullable form.
   */
  lemma {:induction false} ObjectSchemaShape(d: DictSpec, nullable: bool, ctx: Context)
    ensures var p := PropertiesPart(d, ctx);
      var extra := AdditionalSchema(d, p.ctx);
      var rules := if |d.patterns| > 0 then PatternProperties(d.patterns, extra.ctx, []) else OutMembers([], extra.ctx);
      ObjectSchema(d, nullable, ctx) == Out(JObj([Member("type", TypeValue("object", nullable, ctx.version))]
        + (HeadKeywords(d, ctx) + TailKeywords(d, extra.schema, rules.members)) + NullTail(nullable, ctx.version)), rules.ctx)
  {
    var p := PropertiesPart(d, ctx);
    var extra := AdditionalSchema(d, p.ctx);
    var rules := if |d.patterns| > 0 then PatternProperties(d.patterns, extra.ctx, []) else OutMembers([], extra.ctx);
    ObjectMembersShape(d, ctx);
    NullableForm("object", HeadKeywords(d, ctx) + TailKeywords(d, extra.schema, rules.members), {"type", "properties", "required", "additionalProperties", "patternProperties", "minProperties", "maxProperties"}, nullable, ctx.version);
  }

  /** Every key of the schema becomes a property, and only those do. */
  lemma {:induction false} PropertiesNames(fs: seq<Field>, ctx: Context, acc: seq<Member>, key: string)
    ensures key in Names(Properties(fs, ctx, acc).members) <==> key in Names(acc) || key in SchemaKeys(fs)
    decreases fs
  {
    if |fs| > 0 {
      var o := Schema(fs[0].validator, ctx);
      PutNames(acc, fs[0].key, o.schema);
      PropertiesNames(fs[1..], o.ctx, Put(acc, fs[0].key, o.schema), key);
      assert SchemaKeys(fs) == [fs[0].key] + SchemaKeys(fs[1..]);
    }
  }

  /* ---------------------------------------------------------------- tuples */

  /** How the positions and the rest validator are written: `items` and `additionalItems` (3.0), or `prefixItems` and `items` (3.1). */
  function TupleKeywords(k: Kind, items: seq<Json>, rest: Json, version: Version): seq<Member>
    requires k.TupleK?
  {
    if version == V3_1 then
      [Member("prefixItems", JArr(items))] + (if k.rest.Some? then [Member("items", rest)] else [])
    else [Member("items", JArr(items)), Member("additionalItems", rest)]
  }

  /** `maxItems`: the maximum when set, else under OpenAPI 3.1 without a rest validator the number of positions. */
  function TupleMax(k: Kind, version: Version): Option<Json>
    requires k.TupleK?
  {
    if k.maxLength.Some? then Some(JInt(k.maxLength.value))
    else if version == V3_1 && k.rest.None? then Some(JInt(|k.items|))
    else None
  }

  /** What follows the type of a tuple schema, before the nullable form. */
  function TupleTail(k: Kind, items: seq<Json>, rest: Json, version: Version): seq<Member>
    requires k.TupleK?
  {
    TupleKeywords(k, items, rest, version) + [Member("minItems", JInt(k.minLength))] + Opt("maxItems", TupleMax(k, version))
  }

  /** Under OpenAPI 3.0, and under 3.1 with a rest validator, every tuple keyword is new when assigned. */
  lemma {:induction false} TupleOpenMembers(k: Kind, items: seq<Json>, rest: Json, version: Version)
    requires k.TupleK? && (version == V3_0 || k.rest.Some?)
    ensures TupleBounds(TupleMembers(k, items, rest, version), k) == [Member("type", JStr("array"))] + TupleTail(k, items, rest, version)
    ensures KeysIn(TupleTail(k, items, rest, version), {"type", "items", "additionalItems", "prefixItems", "minItems", "maxItems"})
  {
    var ty := [Member("type", JStr("array"))];
    var middle := TupleKeywords(k, items, rest, version);
    var keys := {"type", "items", "additionalItems", "prefixItems"};
    var ms := ty + middle;
    if version == V3_1 {
      var ms1 := Add(ty, {"type"}, "prefixItems", Some(JArr(items)));
      var ms2 := Add(ms1, {"type", "prefixItems"}, "items", Some(rest));
      assert ms2 == ms;
    } else {
      var ms1 := Add(ty, {"type"}, "items", Some(JArr(items)));
      var ms2 := Add(ms1, {"type", "items"}, "additionalItems", Some(rest));
      assert ms2 == ms;
    }
    var ms2 := Add(ms, keys, "minItems", Some(JInt(k.minLength)));
    var ms3 := Add(ms2, keys + {"minItems"}, "maxItems", TupleMax(k, version));
    var tail := TupleTail(k, items, rest, version);
    Assoc4(ty, middle, [Member("minItems", JInt(k.minLength))], Opt("maxItems", TupleMax(k, version)));
    KeysInCons(Member("type", JStr("array")), tail, {"type", "items", "additionalItems", "prefixItems", "minItems", "maxItems"});
  }

  /**
   * Under OpenAPI 3.1 without a rest validator both bounds are already
   * assigned with the positions, and the closing bounds only rewrite them
   * in place with the same values.
   */
  lemma {:induction false} TupleClosedMembers(k: Kind, items: seq<Json>, rest: Json, version: Version)
    requires k.TupleK? && version == V3_1 && k.rest.None? && |items| == |k.items|
    ensures TupleBounds(TupleMembers(k, items, rest, version), k) == [Member("type", JStr("array"))] + TupleTail(k, items, rest, version)
    ensures KeysIn(TupleTail(k, items, rest, version), {"type", "items", "additionalItems", "prefixItems", "minItems", "maxItems"})
  {
    var ty := [Member("type", JStr("array"))];
    var lo := Member("minItems", JInt(k.minLength));
    var top := JInt(if k.maxLength.Some? then k.maxLength.value else |items|);
    var ms1 := Add(ty, {"type"}, "prefixItems", Some(JArr(items)));
    var ms2 := Add(ms1, {"type", "prefixItems"}, "minItems", Some(JInt(k.minLength)));
    var ms3 := Add(ms2, {"type", "prefixItems", "minItems"}, "maxItems", Some(top));
    assert ms3 == ms1 + ([lo] + [Member("maxItems", top)]);
    PutAt(ms1, "minItems", JInt(k.minLength), [Member("maxItems", top)], JInt(k.minLength));
    if k.maxLength.Some? {
      assert ms3 == ms2 + ([Member("maxItems", top)] + []);
      PutAt(ms2, "maxItems", top, [], JInt(k.maxLength.value));
    }
    var tail := TupleTail(k, items, rest, version);
    assert ms3 == ty + tail;
    KeysInCons(Member("type", JStr("array")), tail, {"type", "items", "additionalItems", "prefixItems", "minItems", "maxItems"});
  }

  /**
   * A tuple schema: the type, the positions and rest validator in the
   * version's form, `minItems` always, `maxItems` as `TupleMax` says, then
   * the nullable form; the context is the one the rest validator's walk
   * left.
   */
  lemma {:induction false} TupleSchemaShape(k: Kind, nullable: bool, ctx: Context)
    requires k.TupleK?
    ensures var items := SchemaSeq(k.items, ctx);
      var rest := if k.rest.Some? then Schema(k.rest.value, items.ctx) else Out(JBool(false), items.ctx);
      TupleSchema(k, nullable, ctx) == Out(JObj([Member("type", TypeValue("array", nullable, ctx.version))]
        + TupleTail(k, items.schemas, rest.schema, ctx.version) + NullTail(nullable, ctx.version)), rest.ctx)
  {
    var items := SchemaSeq(k.items, ctx);
    var rest := if k.rest.Some? then Schema(k.rest.value, items.ctx) else Out(JBool(false), items.ctx);
    if ctx.version == V3_1 && k.rest.None? {
      TupleClosedMembers(k, items.schemas, rest.schema, ctx.version);
    } else {
      TupleOpenMembers(k, items.schemas, rest.schema, ctx.version);
    }
    NullableForm("array", TupleTail(k, items.schemas, rest.schema, ctx.version), {"type", "items", "additionalItems", "prefixItems", "minItems", "maxItems"}, nullable, ctx.version);
  }

  /* ---------------------------------------------------------------- unions */

  /** `discriminator` with its `propertyName` and `mapping`, exactly when the discriminator is used. */
  function DiscriminatorKeyword(k: Kind, mapping: seq<Member>): seq<Member>
    requires k.UnionK?
  {
    if Discriminates(k) then
      [Member("discriminator", JObj([Member("propertyName", JStr(k.discriminator.value)), Member("mapping", JObj(mapping))]))]
    else []
  }

  /**
   * A union schema has no type: the option schemas in order under `anyOf`
   * (with a null schema last when nullable under OpenAPI 3.1), the
   * discriminator exactly when used, then `nullable: true` when nullable
   * under OpenAPI 3.0.
   */
  lemma {:induction false} UnionSchemaShape(k: Kind, nullable: bool, ctx: Context)
    requires k.UnionK?
    ensures var variants := SchemaSeq(k.options, ctx);
      var map_ := if Discriminates(k) then Mapping(k, 0, variants.ctx, []) else OutMembers([], variants.ctx);
      var anyOf := variants.schemas + (if nullable && ctx.version == V3_1 then [JObj([Member("type", JStr("null"))])] else []);
      UnionSchema(k, nullable, ctx) == Out(JObj([Member("anyOf", JArr(anyOf))]
        + DiscriminatorKeyword(k, map_.members) + NullTail(nullable, ctx.version)), map_.ctx)
  {
    var variants := SchemaSeq(k.options, ctx);
    var map_ := if Discriminates(k) then Mapping(k, 0, variants.ctx, []) else OutMembers([], variants.ctx);
    var anyOf := variants.schemas + (if nullable && ctx.version == V3_1 then [JObj([Member("type", JStr("null"))])] else []);
    var ms := [Member("anyOf", JArr(anyOf))];
    var disc := DiscriminatorKeyword(k, map_.members);
    var ms1 := ms;
    if Discriminates(k) {
      var value := JObj([Member("propertyName", JStr(k.discriminator.value)), Member("mapping", JObj(map_.members))]);
      ms1 := Put(ms, "discriminator", value);
      PutFresh(ms, "discriminator", value);
    }
    assert ms1 == ms + disc;
    var ms2 := ms1;
    if nullable && ctx.version == V3_0 {
      ms2 := Put(ms1, "nullable", JBool(true));
      PutFresh(ms1, "nullable", JBool(true));
    }
    assert ms2 == ms + disc + NullTail(nullable, ctx.version);
  }

  /** Once the mapping sends text `t` to its component, the later steps keep it there. */
  lemma {:induction false} MappingKeeps(k: Kind, i: nat, ctx: Context, acc: seq<Member>, t: string)
    requires k.UnionK? && i <= |k.mapping|
    requires Get(acc, t) == Some(JStr(Ref(t + "Schema")))
    ensures Get(Mapping(k, i, ctx, acc).members, t) == Some(JStr(Ref(t + "Schema")))
    decreases |k.mapping| - i
  {
    if i < |k.mapping| {
      var c := k.mapping[i];
      var name := ComponentName(c.key);
      var o := Schema(c.validator, ctx);
      var registered := o.ctx.(schemas := Put(o.ctx.schemas, name, o.schema));
      var acc' := Put(acc, KeyText(c.key), JStr(Ref(name)));
      assert Mapping(k, i, ctx, acc) == Mapping(k, i + 1, registered, acc');
      PutGet(acc, KeyText(c.key), JStr(Ref(name)));
      MappingKeeps(k, i + 1, registered, acc', t);
    }
  }

  /**
   * The mapping from position `i` on sends the text of every mapped value
   * `j` to the component named after it, whatever a later value with the
   * same text does.
   */
  lemma {:induction false} MappingRef(k: Kind, i: nat, ctx: Context, acc: seq<Member>, j: nat)
    requires k.UnionK? && i <= j < |k.mapping|
    ensures Get(Mapping(k, i, ctx, acc).members, KeyText(k.mapping[j].key)) == Some(JStr(Ref(ComponentName(k.mapping[j].key))))
    decreases |k.mapping| - i
  {
    var c := k.mapping[i];
    var name := ComponentName(c.key);
    var o := Schema(c.validator, ctx);
    var registered := o.ctx.(schemas := Put(o.ctx.schemas, name, o.schema));
    var acc' := Put(acc, KeyText(c.key), JStr(Ref(name)));
    assert Mapping(k, i, ctx, acc) == Mapping(k, i + 1, registered, acc');
    if i == j {
      PutGet(acc, KeyText(c.key), JStr(Ref(name)));
      MappingKeeps(k, i + 1, registered, acc', KeyText(c.key));
    } else {
      MappingRef(k, i + 1, registered, acc', j);
    }
  }

  /** The mapping from position `i` on registers a component for every mapped value `j`. */
  lemma {:induction false} MappingRegisters(k: Kind, i: nat, ctx: Context, acc: seq<Member>, j: nat)
    requires k.UnionK? && i <= j < |k.mapping|
    ensures ComponentName(k.mapping[j].key) in Names(Mapping(k, i, ctx, acc).ctx.schemas)
    decreases |k.mapping| - i
  {
    var c := k.mapping[i];
    var name := ComponentName(c.key);
    var o := Schema(c.validator, ctx);
    var registered := o.ctx.(schemas := Put(o.ctx.schemas, name, o.schema));
    var acc' := Put(acc, KeyText(c.key), JStr(Ref(name)));
    assert Mapping(k, i, ctx, acc) == Mapping(k, i + 1, registered, acc');
    if i == j {
      PutNames(o.ctx.schemas, name, o.schema);
      assert name in Names(registered.schemas);
    } else {
      MappingRegisters(k, i + 1, registered, acc', j);
    }
  }

  /**
   * A union whose discriminator is used registers a component for every
   * mapped value, and its mapping sends each value's text to a reference
   * to that component.
   */
  lemma {:induction false} UnionRegisters(k: Kind, nullable: bool, ctx: Context)
    requires k.UnionK? && Discriminates(k)
    ensures var map_ := Mapping(k, 0, SchemaSeq(k.options, ctx).ctx, []);
      && UnionSchema(k, nullable, ctx).ctx == map_.ctx
      && forall j :: 0 <= j < |k.mapping| ==>
        && ComponentName(k.mapping[j].key) in Names(map_.ctx.schemas)
        && Get(map_.members, KeyText(k.mapping[j].key)) == Some(JStr(Ref(ComponentName(k.mapping[j].key))))
  {
    var variants := SchemaSeq(k.options, ctx);
    UnionSchemaShape(k, nullable, ctx);
    forall j | 0 <= j < |k.mapping|
      ensures ComponentName(k.mapping[j].key) in Names(Mapping(k, 0, variants.ctx, []).ctx.schemas)
      ensures Get(Mapping(k, 0, variants.ctx, []).members, KeyText(k.mapping[j].key)) == Some(JStr(Ref(ComponentName(k.mapping[j].key))))
    {
      MappingRegisters(k, 0, variants.ctx, [], j);
      MappingRef(k, 0, variants.ctx, [], j);
    }
  }

  /* ---------------------------------------------------------------- entry points */

  /**
   * `generate_schema` returns the walk's schema; with a name it registers
   * that schema under it (in place if the name was taken, else last), and
   * with an empty name it registers nothing more.
   */
  lemma {:induction false} GenerateRegisters(v: Validator, name: string, ctx: Context)
    ensures var r := GenerateSchema(v, name, ctx);
      var o := Schema(v, ctx);
      && r.schema == o.schema
      && (name == "" ==> r == o)
      && (name != "" && name in Names(o.ctx.schemas) ==> Names(r.ctx.schemas) == Names(o.ctx.schemas))
      && (name != "" && name !in Names(o.ctx.schemas) ==> Names(r.ctx.schemas) == Names(o.ctx.schemas) + [name])
  {
    var o := Schema(v, ctx);
    PutNames(o.ctx.schemas, name, o.schema);
  }

  /**
   * The full document: the OpenAPI version text, the title, version and
   * description, no paths, and under `components.schemas` every registered
   * component with the root schema as `RootSchema`.
   */
  lemma {:induction false} DocumentShape(v: Validator, title: string, apiVersion: string, version: Version, description: string)
    ensures var root := Schema(v, Context(version, []));
      exists schemas: seq<Member> ::
        && FullDocument(v, title, apiVersion, version, description) == JObj([
          Member("openapi", JStr(if version == V3_0 then "3.0.3" else "3.1.0")),
          Member("info", JObj([Member("title", JStr(title)), Member("version", JStr(apiVersion)), Member("description", JStr(description))])),
          Member("paths", JObj([])),
          Member("components", JObj([Member("schemas", JObj(schemas))]))])
        && Get(schemas, "RootSchema") == Some(root.schema)
        && (forall c :: c in Names(root.ctx.schemas) ==> c in Names(schemas))
  {
    var root := Schema(v, Context(version, []));
    var o := GenerateSchema(v, "RootSchema", Context(version, []));
    GenerateRegisters(v, "RootSchema", Context(version, []));
    PutKeeps(root.ctx.schemas, "RootSchema", root.schema);
    assert Get(o.ctx.schemas, "RootSchema") == Some(root.schema);
    assert forall c :: c in Names(root.ctx.schemas) ==> c in Names(o.ctx.schemas);
  }
}
