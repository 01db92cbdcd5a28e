/**
 * The `Object` composer. An `Object` wraps a fresh `Dict` built from its
 * schema and hands validation to it; its own flags matter only at the root.
 * voltar adds three schema operations: `extend` (new fields, conflicts
 * refused), `exclude` (fields kept but skipped) and `omit` (fields dropped).
 */
module Objects {
  import opened Wrappers
  import opened Values
  import opened Failures
  import opened Config
  import opened Collections
  import opened Engine
  import opened DictProps

  /** `Object(schema)` */
  function ObjectOf(schema: seq<Field>): (r: Validator)
    ensures r.kind == ObjectK(DictSpecOf(schema)) && r == Fresh(r.kind)
  {
    Fresh(ObjectK(DictSpecOf(schema)))
  }

  /** `field_names`: the schema's keys. */
  function FieldNames(v: Validator): (r: set<string>)
    requires v.kind.ObjectK?
    ensures forall k :: k in r <==> k in SchemaKeys(v.kind.inner.schema)
  {
    set k | k in SchemaKeys(v.kind.inner.schema)
  }

  /**
   * What the object operations keep: every required key is a schema key. A
   * fresh object has it, and `extend`, `exclude` and `omit` keep it.
   */
  predicate WellFormed(v: Validator)
  {
    v.kind.ObjectK? && forall k :: k in v.kind.inner.required ==> k in SchemaKeys(v.kind.inner.schema)
  }

  /* --------------------------------------------------------------- extend */

  /** The keys both schemas define. */
  function Conflicts(schema: seq<Field>, extra: seq<Field>): (r: set<string>)
    ensures forall k :: k in r <==> k in SchemaKeys(schema) && k in SchemaKeys(extra)
  {
    set k | k in SchemaKeys(schema) && k in SchemaKeys(extra)
  }

  /** `schema[f.key] = f.validator` on a dict: an existing key keeps its place, a new one goes last. */
  function PutField(schema: seq<Field>, f: Field): (r: seq<Field>)
    ensures f.key in SchemaKeys(schema) ==> SchemaKeys(r) == SchemaKeys(schema)
    ensures f.key !in SchemaKeys(schema) ==> r == schema + [f]
    decreases |schema|
  {
    if |schema| == 0 then [f]
    else if schema[0].key == f.key then [f] + schema[1..]
    else
      var t := PutField(schema[1..], f);
      assert SchemaKeys(schema) == [schema[0].key] + SchemaKeys(schema[1..]);
      assert SchemaKeys([schema[0]] + t) == [schema[0].key] + SchemaKeys(t);
      [schema[0]] + t
  }

  /** `schema.update(extra)` */
  function Update(schema: seq<Field>, extra: seq<Field>): seq<Field>
    decreases |extra|
  {
    if |extra| == 0 then schema else Update(PutField(schema, extra[0]), extra[1..])
  }

  /** `SchemaKeys(a + b)` is the keys of `a` then those of `b`. */
  lemma {:induction false} SchemaKeysAppend(a: seq<Field>, b: seq<Field>)
    ensures SchemaKeys(a + b) == SchemaKeys(a) + SchemaKeys(b)
  {
    var l, r := SchemaKeys(a + b), SchemaKeys(a) + SchemaKeys(b);
    assert |l| == |r|;
    forall i | 0 <= i < |l|
      ensures l[i] == r[i]
    {
      if i < |a| {
        assert (a + b)[i] == a[i];
      } else {
        assert (a + b)[i] == b[i - |a|];
      }
    }
  }

  /** No key of `extra` is a key of `schema`. */
  predicate Apart(schema: seq<Field>, extra: seq<Field>)
  {
    forall k :: k in SchemaKeys(extra) ==> k !in SchemaKeys(schema)
  }

  lemma ApartOfNoConflicts(schema: seq<Field>, extra: seq<Field>)
    requires Conflicts(schema, extra) == {}
    ensures Apart(schema, extra)
  {
    forall k | k in SchemaKeys(extra)
      ensures k !in SchemaKeys(schema)
    {
      assert k !in Conflicts(schema, extra);
    }
  }

  /**
   * Updating with a dict (distinct keys) none of whose keys the schema has
   * appends its fields in order.
   */
  lemma {:induction false} UpdateDisjoint(schema: seq<Field>, extra: seq<Field>)
    requires Apart(schema, extra) && Distinct(SchemaKeys(extra))
    ensures Update(schema, extra) == schema + extra
    decreases |extra|
  {
    if |extra| > 0 {
      var next := PutField(schema, extra[0]);
      UpdateStep(schema, extra);
      UpdateDisjoint(next, extra[1..]);
      UpdateUnfold(schema, extra);
      AppendHead(schema, extra);
    }
  }

  lemma UpdateUnfold(schema: seq<Field>, extra: seq<Field>)
    requires |extra| > 0
    ensures Update(schema, extra) == Update(PutField(schema, extra[0]), extra[1..])
  {
  }

  lemma AppendHead<T>(a: seq<T>, b: seq<T>)
    requires |b| > 0
    ensures a + [b[0]] + b[1..] == a + b
  {
    assert b == [b[0]] + b[1..];
  }

  /** One step of `UpdateDisjoint`: the first extra field is appended, and the rest still fit. */
  lemma UpdateStep(schema: seq<Field>, extra: seq<Field>)
    requires |extra| > 0 && Apart(schema, extra) && Distinct(SchemaKeys(extra))
    ensures PutField(schema, extra[0]) == schema + [extra[0]]
    ensures Apart(schema + [extra[0]], extra[1..]) && Distinct(SchemaKeys(extra[1..]))
  {
    var f := extra[0];
    var keys := SchemaKeys(extra);
    var tail := SchemaKeys(extra[1..]);
    assert keys == [f.key] + tail;
    assert f.key in keys;
    SchemaKeysAppend(schema, [f]);
    forall k | k in tail
      ensures k !in SchemaKeys(schema + [f])
    {
      var i :| 0 <= i < |tail| && tail[i] == k;
      assert keys[i + 1] == k;
    }
    forall i, j | 0 <= i < j < |tail|
      ensures tail[i] != tail[j]
    {
      assert keys[i + 1] == tail[i] && keys[j + 1] == tail[j];
    }
  }

  /** Every key of an update is a key of the schema or of the extra fields. */
  lemma {:induction false} UpdateKeys(schema: seq<Field>, extra: seq<Field>)
    ensures forall k :: k in SchemaKeys(Update(schema, extra)) <==> k in SchemaKeys(schema) || k in SchemaKeys(extra)
    decreases |extra|
  {
    if |extra| > 0 {
      var f := extra[0];
      assert SchemaKeys(extra) == [f.key] + SchemaKeys(extra[1..]);
      if f.key !in SchemaKeys(schema) {
        SchemaKeysAppend(schema, [f]);
      }
      UpdateKeys(PutField(schema, f), extra[1..]);
    }
  }

  /**
   * `extend(extra)`: a `ValueError` naming the conflicting keys when the
   * schemas share one; otherwise a new object over the updated schema that
   * copies every setting of the receiver, its required keys included, so the
   * added fields are not required.
   */
  function Extend(v: Validator, extra: seq<Field>): (r: Result<Validator, set<string>>)
    requires v.kind.ObjectK?
    ensures r.Failure? <==> Conflicts(v.kind.inner.schema, extra) != {}
    ensures r.Failure? ==> r.error == Conflicts(v.kind.inner.schema, extra)
    ensures r.Success? ==> r.value.kind.ObjectK?
    ensures r.Success? ==> forall k :: k in FieldNames(r.value) <==> k in FieldNames(v) || k in SchemaKeys(extra)
    ensures r.Success? ==> r.value.kind.inner.(schema := v.kind.inner.schema) == v.kind.inner
    ensures r.Success? ==> r.value.(kind := v.kind) == v
  {
    var d := v.kind.inner;
    var conflicts := Conflicts(d.schema, extra);
    if conflicts != {} then Failure(conflicts)
    else
      UpdateKeys(d.schema, extra);
      Success(v.(kind := ObjectK(d.(schema := Update(d.schema, extra)))))
  }

  /* -------------------------------------------------------- exclude, omit */

  /** The keys not in `drop`, in order. */
  function Keep(keys: seq<string>, drop: set<string>): (r: seq<string>)
    ensures forall k :: k in r <==> k in keys && k !in drop
    ensures (forall k :: k in keys ==> k !in drop) ==> r == keys
  {
    if |keys| == 0 then []
    else (if keys[0] in drop then [] else [keys[0]]) + Keep(keys[1..], drop)
  }

  /** The fields whose key is not in `drop`, in order. */
  function KeepFields(schema: seq<Field>, drop: set<string>): seq<Field>
    decreases |schema|
  {
    if |schema| == 0 then []
    else (if schema[0].key in drop then [] else [schema[0]]) + KeepFields(schema[1..], drop)
  }

  /** `KeepFields` keeps exactly the keys outside `drop`, and everything when nothing is dropped. */
  lemma {:induction false} KeepFieldsKeys(schema: seq<Field>, drop: set<string>)
    ensures forall k :: k in SchemaKeys(KeepFields(schema, drop)) <==> k in SchemaKeys(schema) && k !in drop
    ensures (forall k :: k in SchemaKeys(schema) ==> k !in drop) ==> KeepFields(schema, drop) == schema
    decreases |schema|
  {
    if |schema| > 0 {
      var t := KeepFields(schema[1..], drop);
      var h := if schema[0].key in drop then [] else [schema[0]];
      assert KeepFields(schema, drop) == h + t;
      assert SchemaKeys(schema) == [schema[0].key] + SchemaKeys(schema[1..]);
      KeepFieldsKeys(schema[1..], drop);
      SchemaKeysAppend(h, t);
      if schema[0].key !in drop {
        assert h + schema[1..] == schema;
      }
    }
  }


  /**
   * `exclude(*fields)`: the fields stay in the schema, but every step of the
   * inner dict skips them and they are no longer required.
   */
  function Exclude(v: Validator, fields: seq<string>): (r: Validator)
    requires v.kind.ObjectK?
    ensures r.kind.ObjectK? && FieldNames(r) == FieldNames(v)
    ensures forall k :: k in r.kind.inner.excluded <==> k in v.kind.inner.excluded || k in fields
    ensures forall k :: k in r.kind.inner.required <==> k in v.kind.inner.required && k !in fields
    ensures r.kind.inner.(excluded := v.kind.inner.excluded, required := v.kind.inner.required) == v.kind.inner
    ensures r.(kind := v.kind) == v
  {
    var d := v.kind.inner;
    var drop := set k | k in fields;
    v.(kind := ObjectK(d.(excluded := d.excluded + drop, required := Keep(d.required, drop))))
  }

  /**
   * `omit(fields)`: a new object over the schema without those fields (names
   * it lacks are ignored), required keys likewise reduced, the other settings
   * copied, and no field excluded.
   */
  function Omit(v: Validator, fields: seq<string>): (r: Validator)
    requires v.kind.ObjectK?
    ensures r.kind.ObjectK?
    ensures forall k :: k in FieldNames(r) <==> k in FieldNames(v) && k !in fields
    ensures forall k :: k in r.kind.inner.required <==> k in v.kind.inner.required && k !in fields
    ensures r.kind.inner.excluded == {}
    ensures r.kind.inner.(schema := v.kind.inner.schema, required := v.kind.inner.required, excluded := v.kind.inner.excluded) == v.kind.inner
    ensures r.(kind := v.kind) == v
  {
    var d := v.kind.inner;
    var drop := set k | k in fields;
    KeepFieldsKeys(d.schema, drop);
    v.(kind := ObjectK(d.(schema := KeepFields(d.schema, drop), required := Keep(d.required, drop), excluded := {})))
  }

  /* ------------------------------------------------------------ properties */

  /** A fresh object is well formed: its default required keys are schema keys. */
  lemma ObjectOfWellFormed(schema: seq<Field>)
    ensures WellFormed(ObjectOf(schema))
  {
    forall k | k in DefaultRequired(schema)
      ensures k in SchemaKeys(schema)
    {
      var i :| 0 <= i < |schema| && schema[i].key == k && !schema[i].validator.optional && !schema[i].validator.nullable;
      assert SchemaKeys(schema)[i] == k;
    }
  }

  /** `extend`, `exclude` and `omit` keep an object well formed. */
  lemma OperationsKeepWellFormed(v: Validator, extra: seq<Field>, fields: seq<string>)
    requires WellFormed(v)
    ensures Extend(v, extra).Success? ==> WellFormed(Extend(v, extra).value)
    ensures WellFormed(Exclude(v, fields)) && WellFormed(Omit(v, fields))
  {
  }

  /**
   * `extend` then `omit` of the added keys gives back the receiver's schema,
   * required keys and settings; only the exclusions are dropped, since `omit`
   * never copies them.
   */
  lemma OmitUndoesExtend(v: Validator, extra: seq<Field>)
    requires WellFormed(v) && Distinct(SchemaKeys(extra)) && Extend(v, extra).Success?
    ensures Omit(Extend(v, extra).value, SchemaKeys(extra)) == v.(kind := ObjectK(v.kind.inner.(excluded := {})))
    ensures FieldNames(Omit(Extend(v, extra).value, SchemaKeys(extra))) == FieldNames(v)
  {
    var d := v.kind.inner;
    OmitExtendValue(v, extra);
    assert v.(kind := ObjectK(d.(excluded := {}))).kind.inner.schema == d.schema;
  }

  lemma OmitExtendValue(v: Validator, extra: seq<Field>)
    requires WellFormed(v) && Distinct(SchemaKeys(extra)) && Extend(v, extra).Success?
    ensures Omit(Extend(v, extra).value, SchemaKeys(extra)) == v.(kind := ObjectK(v.kind.inner.(excluded := {})))
  {
    var d := v.kind.inner;
    var drop := set k | k in SchemaKeys(extra);
    ExtendAppends(v, extra);
    var w := v.(kind := ObjectK(d.(schema := d.schema + extra)));
    OmitUnfold(w, SchemaKeys(extra));
    SchemaRestored(d.schema, extra, drop);
    RequiredSurvives(v, extra, drop);
  }

  /** Without conflicts, `extend` appends the extra fields to the schema. */
  lemma ExtendAppends(v: Validator, extra: seq<Field>)
    requires v.kind.ObjectK? && Distinct(SchemaKeys(extra)) && Extend(v, extra).Success?
    ensures Extend(v, extra).value == v.(kind := ObjectK(v.kind.inner.(schema := v.kind.inner.schema + extra)))
  {
    var d := v.kind.inner;
    ApartOfNoConflicts(d.schema, extra);
    UpdateDisjoint(d.schema, extra);
  }

  lemma OmitUnfold(w: Validator, fields: seq<string>)
    requires w.kind.ObjectK?
    ensures Omit(w, fields) == w.(kind := ObjectK(w.kind.inner.(
      schema := KeepFields(w.kind.inner.schema, set k | k in fields),
      required := Keep(w.kind.inner.required, set k | k in fields),
      excluded := {})))
  {
  }

  /** A well-formed receiver's required keys are schema keys, so none of them is dropped. */
  lemma RequiredSurvives(v: Validator, extra: seq<Field>, drop: set<string>)
    requires WellFormed(v) && Conflicts(v.kind.inner.schema, extra) == {}
    requires drop == set k | k in SchemaKeys(extra)
    ensures Keep(v.kind.inner.required, drop) == v.kind.inner.required
  {
    forall k | k in v.kind.inner.required
      ensures k !in drop
    {
      assert k !in Conflicts(v.kind.inner.schema, extra);
    }
  }

  /** Dropping the extra keys from `schema + extra` leaves `schema`, when no key is shared. */
  lemma SchemaRestored(schema: seq<Field>, extra: seq<Field>, drop: set<string>)
    requires drop == set k | k in SchemaKeys(extra)
    requires Conflicts(schema, extra) == {}
    ensures KeepFields(schema + extra, drop) == schema
  {
    KeepAppend(schema, extra, drop);
    KeepNone(extra, drop);
    KeepFieldsKeys(schema, drop);
    assert KeepFields(schema, drop) == schema;
    assert schema + [] == schema;
  }


  /** Filtering a concatenation filters each part. */
  lemma {:induction false} KeepAppend(a: seq<Field>, b: seq<Field>, drop: set<string>)
    ensures KeepFields(a + b, drop) == KeepFields(a, drop) + KeepFields(b, drop)
    decreases |a|
  {
    if |a| == 0 {
      assert a + b == b;
    } else {
      var h := if a[0].key in drop then [] else [a[0]];
      ConsAppend(a, b);
      assert KeepFields(a + b, drop) == h + KeepFields(a[1..] + b, drop);
      assert KeepFields(a, drop) == h + KeepFields(a[1..], drop);
      KeepAppend(a[1..], b, drop);
      AppendAssoc(h, KeepFields(a[1..], drop), KeepFields(b, drop));
    }
  }

  lemma ConsAppend<T>(a: seq<T>, b: seq<T>)
    requires |a| > 0
    ensures (a + b)[0] == a[0] && (a + b)[1..] == a[1..] + b
  {
  }

  lemma AppendAssoc<T>(x: seq<T>, y: seq<T>, z: seq<T>)
    ensures x + (y + z) == (x + y) + z
  {
  }


  /** Dropping every key leaves no field. */
  lemma {:induction false} KeepNone(schema: seq<Field>, drop: set<string>)
    requires forall k :: k in SchemaKeys(schema) ==> k in drop
    ensures KeepFields(schema, drop) == []
    decreases |schema|
  {
    if |schema| > 0 {
      assert SchemaKeys(schema) == [schema[0].key] + SchemaKeys(schema[1..]);
      KeepNone(schema[1..], drop);
    }
  }

  /** Exclusions made before `extend` are still there after it. */
  lemma ExclusionsSurviveExtend(v: Validator, fields: seq<string>, extra: seq<Field>)
    requires v.kind.ObjectK? && Extend(Exclude(v, fields), extra).Success?
    ensures forall k :: k in fields ==> k in Extend(Exclude(v, fields), extra).value.kind.inner.excluded
  {
  }

  /** Under `exclude`, a dict input that validates keeps the excluded keys' values as they came. */
  lemma ExcludedPassThrough(m: Mode, v: Validator, fields: seq<string>, env: Env, data: Value, path: Path)
    requires v.kind.ObjectK? && data.Map?
    ensures var r := Run(m, Exclude(v, fields), env, data, path);
      r.Ok? ==> r.value.Map? && forall k :: k in fields ==> Lookup(r.value.entries, k) == Lookup(data.entries, k)
  {
    var w := Exclude(v, fields);
    ObjectRunsInner(m, w, env, data, path);
    ExcludedKept(m, w.kind.inner, fields, env, data, path);
  }

  /** Under a parent an object runs its inner dict, with that dict's own unset flags. */
  lemma ObjectRunsInner(m: Mode, w: Validator, env: Env, data: Value, path: Path)
    requires w.kind.ObjectK?
    ensures Run(m, w, env, data, path) == RunDict(m, false, None, w.kind.inner, env, data, path)
  {
    ObjectRunsDict(m, w, w.kind.inner, env, data, path);
  }

  /** The dict-level form of `ExcludedPassThrough`. */
  lemma ExcludedKept(m: Mode, d: DictSpec, fields: seq<string>, env: Env, data: Value, path: Path)
    requires data.Map? && forall k :: k in fields ==> k in d.excluded
    ensures var r := RunDict(m, false, None, d, env, data, path);
      r.Ok? ==> r.value.Map? && forall k :: k in fields ==> Lookup(r.value.entries, k) == Lookup(data.entries, k)
  {
    DictOutput(m, false, None, d, env, data, path);
    assert forall k :: k in fields ==> PassesThrough(env, d, k);
  }

  /** Under `exclude`, an excluded key is never reported missing. */
  lemma ExcludedNotRequired(v: Validator, fields: seq<string>, es: seq<Entry>)
    requires v.kind.ObjectK?
    ensures forall k :: k in fields ==> k !in Missing(Exclude(v, fields).kind.inner.required, es)
  {
  }



  /**
   * An object runs exactly as a fresh `Dict` with its settings: under a
   * parent its own flags are never consulted.
   */
  lemma ObjectDelegates(m: Mode, v: Validator, env: Env, data: Value, path: Path)
    requires v.kind.ObjectK?
    ensures Run(m, v, env, data, path) == Run(m, Fresh(DictK(v.kind.inner)), env, data, path)
  {
    ObjectRunsInner(m, v, env, data, path);
    FreshDictRuns(m, v.kind.inner, env, data, path);
  }

  /** A fresh `Dict` runs its spec with no flags of its own. */
  lemma FreshDictRuns(m: Mode, d: DictSpec, env: Env, data: Value, path: Path)
    ensures Run(m, Fresh(DictK(d)), env, data, path) == RunDict(m, false, None, d, env, data, path)
  {
  }

  /**
   * `Object(...).nullable()` accepts `None` at the root, where `validate`
   * consults its flags, but refuses it as a child, where the inner dict's
   * own (unset) `nullable` decides.
   */
  lemma NestedNullableRefusesNone(m: Mode, schema: seq<Field>, env: Env, path: Path)
    ensures Validate(m, ObjectOf(schema).(nullable := true), env, Null) == Ok(Null)
    ensures Run(m, ObjectOf(schema).(nullable := true), env, Null, path) ==
      Err(ValidationError("Expected object/dict, got NoneType", path))
  {
  }
}
