/**
 * The checks sift's `Dict` makes on the input as a whole, and their order:
 * the property counts, then the required keys, then the children, and last
 * the unexpected keys when additional properties are forbidden.
 */
module DictChecks {
  import opened Wrappers
  import opened Text
  import opened Values
  import opened Failures
  import opened Config
  import opened Engine
  import opened Collections
  import opened DictProps

  /** The count bounds hold for the deduplicated input. */
  predicate CountsOk(d: DictSpec, es: seq<Entry>)
  {
    !(d.minProps.Some? && |es| < d.minProps.value) && !(d.maxProps.Some? && |es| > d.maxProps.value)
  }

  /** Nothing about the children: no schema, rules or additional validator, no required keys. */
  function Bare(d: DictSpec): (r: DictSpec)
    ensures r.minProps == d.minProps && r.maxProps == d.maxProps
    ensures r.schema == [] && r.patterns == [] && r.required == [] && r.additional == AllowAll
  {
    d.(schema := [], required := [], patterns := [], additional := AllowAll)
  }

  /**
   * A dict outside its property-count bounds fails at its own path before
   * any key is looked at: the schema, the rules and the required keys do not
   * matter.
   */
  lemma CountsFirst(m: Mode, nullable: bool, custom: Option<string>, d: DictSpec, env: Env, data: Value, path: Path)
    requires data.Map? && !CountsOk(d, Normalize(data.entries))
    ensures var r := RunDict(m, nullable, custom, d, env, data, path);
      r.Err? && r.error.path == path && r == RunDict(m, nullable, custom, Bare(d), env, data, path)
  {
  }

  /**
   * Within the bounds, a dict lacking a required key fails at its own path
   * naming exactly the absent required keys, in declaration order, before
   * any child runs: the schema and rules do not matter.
   */
  lemma MissingBeforeChildren(m: Mode, nullable: bool, custom: Option<string>, d: DictSpec, env: Env, data: Value, path: Path)
    requires data.Map? && CountsOk(d, Normalize(data.entries))
    requires exists k :: k in d.required && !HasKey(data.entries, k)
    ensures var missing := Missing(d.required, Normalize(data.entries));
      && (forall k :: k in missing <==> k in d.required && !HasKey(data.entries, k))
      && RunDict(m, nullable, custom, d, env, data, path) == Fail(custom, "Missing required properties: " + Join(missing, ", "), path)
      && RunDict(m, nullable, custom, d, env, data, path) == RunDict(m, nullable, custom, Bare(d).(required := d.required), env, data, path)
  {
    var es := Normalize(data.entries);
    var k :| k in d.required && !HasKey(data.entries, k);
    assert k in Missing(d.required, es);
  }

  /**
   * With every required key present and the counts met, the checks before
   * the children pass: what happens next is up to the mode's loops.
   */
  lemma RequiredPresent(m: Mode, nullable: bool, custom: Option<string>, d: DictSpec, env: Env, data: Value, path: Path)
    requires data.Map? && CountsOk(d, Normalize(data.entries))
    requires forall k :: k in d.required ==> HasKey(data.entries, k)
    ensures RunDict(m, nullable, custom, d, env, data, path) ==
      if m == Sync then DictSync(m, custom, d, env, Normalize(data.entries), path)
      else DictAsync(m, custom, d, env, Normalize(data.entries), path)
  {
    NoneMissing(d.required, Normalize(data.entries));
  }

  /** No required key is reported missing when all are present. */
  lemma {:induction false} NoneMissing(required: seq<string>, es: seq<Entry>)
    requires forall k :: k in required ==> HasKey(es, k)
    ensures Missing(required, es) == []
  {
    if |required| > 0 {
      assert required[0] in required;
      NoneMissing(required[1..], es);
    }
  }

  /**
   * `Dict(schema)` requires exactly the schema keys whose validator is
   * neither optional nor nullable: within the bounds, it reports missing
   * keys exactly when one of those is absent.
   */
  lemma SchemaRequired(m: Mode, schema: seq<Field>, env: Env, data: Value, path: Path)
    requires data.Map?
    ensures var r := RunDict(m, false, None, DictSpecOf(schema), env, data, path);
      var missing := Missing(DictSpecOf(schema).required, Normalize(data.entries));
      && (|missing| > 0 <==> exists k :: RequiredField(schema, k) && !HasKey(data.entries, k))
      && (|missing| > 0 ==> r == Fail(None, "Missing required properties: " + Join(missing, ", "), path))
  {
    var missing := Missing(DictSpecOf(schema).required, Normalize(data.entries));
    if |missing| > 0 {
      assert missing[0] in missing;
    }
  }

  /* ---------------------------------------------------------------- additional properties forbidden */

  /**
   * `additional_properties(False)`: a dict that validates has no key other
   * than the schema keys and the keys some rule matches (and the excluded
   * ones), in either mode.
   */
  lemma ForbidAccepted(m: Mode, custom: Option<string>, d: DictSpec, env: Env, es: seq<Entry>, path: Path)
    requires d.additional.Forbid?
    ensures var r := if m == Sync then DictSync(m, custom, d, env, es, path) else DictAsync(m, custom, d, env, es, path);
      r.Ok? ==> forall k :: HasKey(es, k) ==> Validated(env, d, es, k) || k in d.excluded
  {
    UnvalidatedKeys(env, d, es);
    var rest := Unvalidated(d, KeysOf(es), KeySet(SyncJobs(env, d, es)));
    if |rest| > 0 {
      assert rest[0] in rest;
    }
  }

  /**
   * Once every child has passed, a dict with additional properties forbidden
   * fails at its own path naming, in key order, exactly the present keys
   * that are neither excluded, schema keys, nor matched by a rule.
   */
  lemma ForbidMessage(m: Mode, custom: Option<string>, d: DictSpec, env: Env, es: seq<Entry>, path: Path)
    requires d.additional.Forbid?
    requires m == Sync ==> RunSeq(m, d, env, SyncJobs(env, d, es), es, path).Success?
    requires m == Async ==> Collect(RunEach(m, d, env, AsyncJobs(env, d, es), es, path)).Success?
    requires exists k :: HasKey(es, k) && k !in d.excluded && k !in SchemaKeys(d.schema) && !MatchedFrom(env, d, 0, k)
    ensures var rest := Unvalidated(d, KeysOf(es), KeySet(SyncJobs(env, d, es)));
      && (forall k :: k in rest <==> HasKey(es, k) && k !in d.excluded && k !in SchemaKeys(d.schema) && !MatchedFrom(env, d, 0, k))
      && (if m == Sync then DictSync(m, custom, d, env, es, path) else DictAsync(m, custom, d, env, es, path))
        == Fail(custom, UnexpectedMessage(rest), path)
  {
    UnvalidatedKeys(env, d, es);
    var k :| HasKey(es, k) && k !in d.excluded && k !in SchemaKeys(d.schema) && !MatchedFrom(env, d, 0, k);
    assert k in Unvalidated(d, KeysOf(es), KeySet(SyncJobs(env, d, es)));
    if m == Async {
      assert (if d.additional.ValidateWith? then AdditionalJobs(Unvalidated(d, KeysOf(es), KeySet(AsyncJobs(env, d, es)))) else []) == [];
      assert AsyncJobs(env, d, es) + [] == AsyncJobs(env, d, es);
    }
  }
}
