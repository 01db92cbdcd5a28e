/**
 * How the two OpenAPI serialisers relate: the generator never emits
 * nullable markers, and on validator trees that use none of the features
 * where they differ it produces exactly the OpenAPI 3.0 schema, registering
 * nothing.
 */
module GeneratorProps {
  import opened Wrappers
  import opened Config
  import opened JsonValues
  import opened OpenApiSchema
  import opened OpenApiGenerator
  import opened OpenApiProps

  /* ---------------------------------------------------------------- no nullable markers */

  /**
   * No schema object anywhere in `j` has a `nullable` key or a `type` that
   * is a list. The names under `properties` and `patternProperties` are
   * field names and patterns, not schema keywords.
   */
  predicate SchemaClean(j: Json)
    decreases j, 0
  {
    match j
    case JObj(ms) =>
      && Get(ms, "nullable").None?
      && (Get(ms, "type").None? || Get(ms, "type").value.JStr?)
      && forall m :: m in ms ==> PartClean(m.key, m.value)
    case _ => true
  }

  /** The value of keyword `key` in a schema object holds only clean schemas. */
  predicate PartClean(key: string, x: Json)
    decreases x, 1
  {
    if key == "properties" || key == "patternProperties" then
      x.JObj? ==> forall m :: m in x.members ==> SchemaClean(m.value)
    else if key == "items" || key == "prefixItems" || key == "anyOf" then
      match x
      case JArr(es) => forall e :: e in es ==> SchemaClean(e)
      case _ => SchemaClean(x)
    else if key == "additionalProperties" || key == "additionalItems" then SchemaClean(x)
    else true
  }

  /** Every value of a name-to-schema map is clean. */
  predicate CleanMembers(ms: seq<Member>)
  {
    forall i :: 0 <= i < |ms| ==> SchemaClean(ms[i].value)
  }

  lemma {:induction false} PutClean(ms: seq<Member>, k: string, x: Json)
    requires CleanMembers(ms) && SchemaClean(x)
    ensures CleanMembers(Put(ms, k, x))
  {
    if |ms| > 0 && ms[0].key != k {
      PutClean(ms[1..], k, x);
      assert Put(ms, k, x) == [ms[0]] + Put(ms[1..], k, x);
    }
  }

  /** Every keyword of a schema object holds clean schemas. */
  predicate CleanParts(ms: seq<Member>)
  {
    forall i :: 0 <= i < |ms| ==> PartClean(ms[i].key, ms[i].value)
  }

  lemma {:induction false} PutParts(ms: seq<Member>, k: string, x: Json)
    requires CleanParts(ms) && PartClean(k, x)
    ensures CleanParts(Put(ms, k, x))
  {
    if |ms| > 0 && ms[0].key != k {
      PutParts(ms[1..], k, x);
      assert Put(ms, k, x) == [ms[0]] + Put(ms[1..], k, x);
    }
  }

  /** A schema object's own keywords are clean. */
  predicate CleanObj(ms: seq<Member>)
  {
    && CleanParts(ms)
    && Get(ms, "nullable").None?
    && (Get(ms, "type").None? || Get(ms, "type").value.JStr?)
  }

  lemma {:induction false} CleanObject(ms: seq<Member>)
    requires CleanObj(ms)
    ensures SchemaClean(JObj(ms))
  {
    forall m | m in ms
      ensures PartClean(m.key, m.value)
    {
      var i :| 0 <= i < |ms| && ms[i] == m;
    }
  }

  /** A clean map of names to schemas. */
  lemma {:induction false} CleanMap(ms: seq<Member>)
    requires CleanMembers(ms)
    ensures forall m :: m in ms ==> SchemaClean(m.value)
  {
    forall m | m in ms
      ensures SchemaClean(m.value)
    {
      var i :| 0 <= i < |ms| && ms[i] == m;
    }
  }

  /** Setting a keyword other than `nullable` and `type` to a clean value keeps a schema object clean; returns the result. */
  lemma {:induction false} PutObj(ms: seq<Member>, k: string, x: Json) returns (r: seq<Member>)
    requires CleanObj(ms) && PartClean(k, x) && k != "nullable" && k != "type"
    ensures r == Put(ms, k, x) && CleanObj(r)
  {
    PutParts(ms, k, x);
    PutGet(ms, k, x);
    r := Put(ms, k, x);
  }

  lemma {:induction false} PutIntObj(ms: seq<Member>, k: string, o: Option<int>) returns (r: seq<Member>)
    requires CleanObj(ms) && k != "nullable" && k != "type"
    requires k != "properties" && k != "patternProperties" && k != "items" && k != "prefixItems" && k != "anyOf"
    requires k != "additionalProperties" && k != "additionalItems"
    ensures r == PutInt(ms, k, o) && CleanObj(r)
  {
    r := ms;
    if o.Some? {
      r := PutObj(ms, k, JInt(o.value));
    }
  }

  /** The generator has no nullable support: no schema it produces carries a nullable marker, at any depth. */
  lemma {:induction false} DescribeNoNullForm(v: Validator)
    ensures SchemaClean(Describe(v))
    decreases v, 3
  {
    if v.kind.ListK? {
      DescribeArrayClean(v.kind);
      DescribeIsArray(v);
    } else if v.kind.DictK? {
      DescribeObjectClean(v.kind.dict);
      DescribeIsObject(v);
    } else if v.kind.TupleK? {
      DescribeTupleClean(v.kind);
      DescribeIsTuple(v);
    } else if v.kind.UnionK? {
      DescribeUnionClean(v.kind);
      DescribeIsUnion(v);
    } else {
      LeafClean(v);
    }
  }

  /* Which builder `Describe` hands each kind with children to. */

  lemma {:induction false} DescribeIsArray(v: Validator)
    requires v.kind.ListK?
    ensures Describe(v) == DescribeArray(v.kind)
  {
  }

  lemma {:induction false} DescribeIsObject(v: Validator)
    requires v.kind.DictK?
    ensures Describe(v) == DescribeObject(v.kind.dict)
  {
  }

  lemma {:induction false} DescribeIsTuple(v: Validator)
    requires v.kind.TupleK?
    ensures Describe(v) == DescribeTuple(v.kind)
  {
  }

  lemma {:induction false} DescribeIsUnion(v: Validator)
    requires v.kind.UnionK?
    ensures Describe(v) == DescribeUnion(v.kind)
  {
  }

  /** The kinds without children. */
  lemma {:induction false} LeafClean(v: Validator)
    requires !v.kind.ListK? && !v.kind.DictK? && !v.kind.TupleK? && !v.kind.UnionK?
    ensures SchemaClean(Describe(v))
  {
    if v.kind.StringK? {
      var ms := StringClean(v.kind.str);
      CleanObject(ms);
    } else if v.kind.NumberK? {
      var ms := NumberClean(v.kind.num);
      CleanObject(ms);
    } else if v.kind.BooleanK? {
      CleanObject([Member("type", JStr("boolean"))]);
    } else if v.kind.NullK? {
      CleanObject([Member("type", JStr("null"))]);
    }
  }

  lemma {:induction false} DescribeArrayClean(k: Kind)
    requires k.ListK?
    ensures SchemaClean(DescribeArray(k))
    decreases k
  {
    var ms := [Member("type", JStr("array"))];
    if k.item.Some? {
      DescribeNoNullForm(k.item.value);
      ms := PutObj(ms, "items", Describe(k.item.value));
    }
    ms := PutIntObj(ms, "minItems", k.minItems);
    ms := PutIntObj(ms, "maxItems", k.maxItems);
    if k.unique {
      ms := PutObj(ms, "uniqueItems", JBool(true));
    }
    CleanObject(ms);
  }

  lemma {:induction false} DescribeTupleClean(k: Kind)
    requires k.TupleK?
    ensures SchemaClean(DescribeTuple(k))
    decreases k
  {
    DescribeSeqClean(k.items);
    var ms := [Member("type", JStr("array")), Member("items", JArr(DescribeSeq(k.items)))];
    assert CleanObj(ms);
    if k.rest.Some? {
      DescribeNoNullForm(k.rest.value);
    }
    ms := PutObj(ms, "additionalItems", if k.rest.Some? then Describe(k.rest.value) else JBool(false));
    ms := PutObj(ms, "minItems", JInt(k.minLength));
    ms := PutIntObj(ms, "maxItems", k.maxLength);
    CleanObject(ms);
  }

  lemma {:induction false} DescribeUnionClean(k: Kind)
    requires k.UnionK?
    ensures SchemaClean(DescribeUnion(k))
    decreases k
  {
    DescribeSeqClean(k.options);
    var ms := [Member("anyOf", JArr(DescribeSeq(k.options)))];
    assert CleanObj(ms);
    if Discriminates(k) {
      var disc := [Member("propertyName", JStr(k.discriminator.value)), Member("mapping", JObj(RefsByValue(k.mapping, [])))];
      ms := PutObj(ms, "discriminator", JObj(disc));
    }
    CleanObject(ms);
  }

  lemma {:induction false} DescribeSeqClean(vs: seq<Validator>)
    ensures forall e :: e in DescribeSeq(vs) ==> SchemaClean(e)
    decreases vs
  {
    if |vs| > 0 {
      DescribeNoNullForm(vs[0]);
      DescribeSeqClean(vs[1..]);
      assert DescribeSeq(vs) == [Describe(vs[0])] + DescribeSeq(vs[1..]);
    }
  }

  lemma {:induction false} DescribeFieldsClean(fs: seq<Field>, acc: seq<Member>)
    requires CleanMembers(acc)
    ensures CleanMembers(DescribeFields(fs, acc))
    decreases fs
  {
    if |fs| > 0 {
      DescribeNoNullForm(fs[0].validator);
      PutClean(acc, fs[0].key, Describe(fs[0].validator));
      DescribeFieldsClean(fs[1..], Put(acc, fs[0].key, Describe(fs[0].validator)));
    }
  }

  lemma {:induction false} DescribeRulesClean(ps: seq<PatternRule>, acc: seq<Member>)
    requires CleanMembers(acc)
    ensures CleanMembers(DescribeRules(ps, acc))
    decreases ps
  {
    if |ps| > 0 {
      DescribeNoNullForm(ps[0].validator);
      PutClean(acc, ps[0].pattern, Describe(ps[0].validator));
      DescribeRulesClean(ps[1..], Put(acc, ps[0].pattern, Describe(ps[0].validator)));
    }
  }

  lemma {:induction false} DescribeObjectClean(d: DictSpec)
    ensures SchemaClean(DescribeObject(d))
    decreases d, 2
  {
    var head := ObjectHeadClean(d);
    var ms := ObjectTailClean(head, d);
    CleanObject(ms);
  }

  lemma {:induction false} ObjectHeadClean(d: DictSpec) returns (ms: seq<Member>)
    ensures ms == ObjectHead(d) && CleanObj(ms)
    decreases d, 1
  {
    ms := [Member("type", JStr("object"))];
    if |d.schema| > 0 {
      DescribeFieldsClean(d.schema, []);
      var props := DescribeFields(d.schema, []);
      CleanMap(props);
      ms := PutObj(ms, "properties", JObj(props));
      if |d.required| > 0 {
        ms := PutObj(ms, "required", JArr(Strs(d.required)));
      }
    }
  }

  lemma {:induction false} ObjectTailClean(head: seq<Member>, d: DictSpec) returns (ms: seq<Member>)
    requires CleanObj(head)
    ensures ms == ObjectTail(head, d) && CleanObj(ms)
    decreases d, 1
  {
    if d.additional.ValidateWith? {
      DescribeNoNullForm(d.additional.validator);
    }
    ms := PutObj(head, "additionalProperties", if d.additional.ValidateWith? then Describe(d.additional.validator) else AdditionalFlag(d.additional));
    if |d.patterns| > 0 {
      DescribeRulesClean(d.patterns, []);
      CleanMap(DescribeRules(d.patterns, []));
      ms := PutObj(ms, "patternProperties", JObj(DescribeRules(d.patterns, [])));
    }
    ms := PutIntObj(ms, "minProperties", d.minProps);
    ms := PutIntObj(ms, "maxProperties", d.maxProps);
  }

  lemma {:induction false} StringClean(s: StringSpec) returns (ms: seq<Member>)
    ensures ms == StringMembers(s) && CleanObj(ms)
  {
    ms := [Member("type", JStr("string"))];
    if Format(s).Some? {
      ms := PutObj(ms, "format", JStr(Format(s).value));
    }
    ms := PutIntObj(ms, "minLength", s.minLen);
    ms := PutIntObj(ms, "maxLength", s.maxLen);
    if s.pattern.Some? {
      ms := PutObj(ms, "pattern", JStr(s.pattern.value));
    }
  }

  lemma {:induction false} NumberClean(n: NumberSpec) returns (ms: seq<Member>)
    ensures ms == NumberMembers(n) && CleanObj(ms)
  {
    ms := [Member("type", JStr(NumberType(n)))];
    ms := PutIntObj(ms, "minimum", n.minVal);
    ms := PutIntObj(ms, "maximum", n.maxVal);
    if n.multipleOf.Some? {
      ms := PutObj(ms, "multipleOf", JInt(n.multipleOf.value));
    }
    if n.positive && n.minVal.None? {
      ms := PutObj(ms, "exclusiveMinimum", JInt(0));
    }
    if n.negative && n.maxVal.None? {
      ms := PutObj(ms, "exclusiveMaximum", JInt(0));
    }
  }

  /* ---------------------------------------------------------------- agreement with the 3.0 serialiser */

  /**
   * A tree using none of the features where the serialisers differ: nothing
   * nullable, every list with an item validator, no union whose
   * discriminator mapping is used.
   */
  predicate Plain(v: Validator)
    decreases v, 1
  {
    !v.nullable && PlainKind(v.kind)
  }

  predicate PlainKind(k: Kind)
    decreases k, 0
  {
    match k
    case ListK(item, _, _, _, _) => item.Some? && Plain(item.value)
    case DictK(d) =>
      && (forall f :: f in d.schema ==> Plain(f.validator))
      && (forall p :: p in d.patterns ==> Plain(p.validator))
      && (d.additional.ValidateWith? ==> Plain(d.additional.validator))
    case TupleK(items, rest, _, _) => (forall w :: w in items ==> Plain(w)) && (rest.Some? ==> Plain(rest.value))
    case UnionK(options, _, _) => !Discriminates(k) && forall w :: w in options ==> Plain(w)
    case _ => true
  }

  /* Which builder `Schema` hands each kind with children to. */

  /**
   * On a plain tree the generator and the OpenAPI 3.0 serialiser produce the
   * same schema, and the serialiser registers nothing.
   */
  lemma {:induction false} Agrees(v: Validator, ctx: Context)
    requires ctx.version == V3_0 && Plain(v)
    ensures Schema(v, ctx) == Out(Describe(v), ctx)
    decreases v, 1
  {
    if v.kind.ListK? {
      SchemaIsArray(v, ctx);
      DescribeIsArray(v);
      AgreesArray(v.kind, ctx);
    } else if v.kind.DictK? {
      SchemaIsObject(v, ctx);
      DescribeIsObject(v);
      AgreesObject(v.kind.dict, ctx);
    } else if v.kind.TupleK? {
      SchemaIsTuple(v, ctx);
      DescribeIsTuple(v);
      AgreesTuple(v.kind, ctx);
    } else if v.kind.UnionK? {
      SchemaIsUnion(v, ctx);
      DescribeIsUnion(v);
      AgreesUnion(v.kind, ctx);
    } else {
      AgreesLeaf(v, ctx);
    }
  }

  lemma {:induction false} AgreesLeaf(v: Validator, ctx: Context)
    requires !v.nullable && !v.kind.ListK? && !v.kind.DictK? && !v.kind.TupleK? && !v.kind.UnionK?
    ensures Schema(v, ctx) == Out(Describe(v), ctx)
  {
  }

  lemma {:induction false} AgreesArray(k: Kind, ctx: Context)
    requires ctx.version == V3_0 && k.ListK? && PlainKind(k)
    ensures ArraySchema(k, false, ctx) == Out(DescribeArray(k), ctx)
    decreases k, 0
  {
    var x := Describe(k.item.value);
    Agrees(k.item.value, ctx);
    assert Put([Member("type", JStr("array"))], "items", x) == [Member("type", JStr("array")), Member("items", x)];
  }

  lemma {:induction false} AgreesTuple(k: Kind, ctx: Context)
    requires ctx.version == V3_0 && k.TupleK? && PlainKind(k)
    ensures TupleSchema(k, false, ctx) == Out(DescribeTuple(k), ctx)
    decreases k, 0
  {
    AgreesSeq(k.items, ctx);
    if k.rest.Some? {
      Agrees(k.rest.value, ctx);
    }
    var x := JArr(DescribeSeq(k.items));
    assert Put([Member("type", JStr("array"))], "items", x) == [Member("type", JStr("array")), Member("items", x)];
  }

  lemma {:induction false} AgreesUnion(k: Kind, ctx: Context)
    requires ctx.version == V3_0 && k.UnionK? && PlainKind(k)
    ensures UnionSchema(k, false, ctx) == Out(DescribeUnion(k), ctx)
    decreases k, 0
  {
    AgreesSeq(k.options, ctx);
    assert DescribeSeq(k.options) + [] == DescribeSeq(k.options);
  }

  lemma {:induction false} AgreesObject(d: DictSpec, ctx: Context)
    requires ctx.version == V3_0 && PlainKind(DictK(d))
    ensures ObjectSchema(d, false, ctx) == Out(DescribeObject(d), ctx)
    decreases d, 1
  {
    if |d.schema| > 0 {
      AgreesFields(d.schema, ctx, []);
      var x := JObj(DescribeFields(d.schema, []));
      assert Put([Member("type", JStr("object"))], "properties", x) == [Member("type", JStr("object")), Member("properties", x)];
    }
    assert PropertiesPart(d, ctx) == OutMembers(ObjectHead(d), ctx);
    if d.additional.ValidateWith? {
      Agrees(d.additional.validator, ctx);
    }
    if |d.patterns| > 0 {
      AgreesRules(d.patterns, ctx, []);
    }
  }

  lemma {:induction false} AgreesSeq(vs: seq<Validator>, ctx: Context)
    requires ctx.version == V3_0 && forall w :: w in vs ==> Plain(w)
    ensures SchemaSeq(vs, ctx) == OutSeq(DescribeSeq(vs), ctx)
    decreases vs
  {
    if |vs| > 0 {
      assert vs[0] in vs;
      Agrees(vs[0], ctx);
      AgreesSeq(vs[1..], ctx);
    }
  }

  lemma {:induction false} AgreesFields(fs: seq<Field>, ctx: Context, acc: seq<Member>)
    requires ctx.version == V3_0 && forall f :: f in fs ==> Plain(f.validator)
    ensures Properties(fs, ctx, acc) == OutMembers(DescribeFields(fs, acc), ctx)
    decreases fs
  {
    if |fs| > 0 {
      assert fs[0] in fs;
      Agrees(fs[0].validator, ctx);
      AgreesFields(fs[1..], ctx, Put(acc, fs[0].key, Describe(fs[0].validator)));
    }
  }

  lemma {:induction false} AgreesRules(ps: seq<PatternRule>, ctx: Context, acc: seq<Member>)
    requires ctx.version == V3_0 && forall p :: p in ps ==> Plain(p.validator)
    ensures PatternProperties(ps, ctx, acc) == OutMembers(DescribeRules(ps, acc), ctx)
    decreases ps
  {
    if |ps| > 0 {
      assert ps[0] in ps;
      Agrees(ps[0].validator, ctx);
      AgreesRules(ps[1..], ctx, Put(acc, ps[0].pattern, Describe(ps[0].validator)));
    }
  }
}
