/**
 * What sift's `Dict` does with the keys of its input: which keys reach a
 * child validator (the same set in both modes, whatever the rules overlap),
 * which keys come back untouched, and that the output has exactly the
 * input's keys.
 */
module DictProps {
  import opened Wrappers
  import opened Text
  import opened Values
  import opened Failures
  import opened Config
  import opened Engine

  /** Some pattern rule from `p` on matches `k`. */
  ghost predicate MatchedFrom(env: Env, d: DictSpec, p: nat, k: string)
  {
    exists q :: p <= q < |d.patterns| && env.patternMatch(d.patterns[q].pattern, k)
  }

  /** Some schema field from `j` on is keyed `k`. */
  ghost predicate InSchemaFrom(d: DictSpec, j: nat, k: string)
  {
    exists i :: j <= i < |d.schema| && d.schema[i].key == k
  }

  /** A key of the input that the schema loop or the pattern loop hands to a child. */
  ghost predicate Validated(env: Env, d: DictSpec, es: seq<Entry>, k: string)
  {
    HasKey(es, k) && k !in d.excluded && (k in SchemaKeys(d.schema) || MatchedFrom(env, d, 0, k))
  }

  /** A key whose value no child ever sees: excluded, or unclaimed while additional properties are not validated. */
  ghost predicate PassesThrough(env: Env, d: DictSpec, k: string)
  {
    k in d.excluded || (!d.additional.ValidateWith? && k !in SchemaKeys(d.schema) && !MatchedFrom(env, d, 0, k))
  }

  lemma KeySetAppend(a: seq<Job>, b: seq<Job>)
    ensures KeySet(a + b) == KeySet(a) + KeySet(b)
  {
    var ab := a + b;
    forall k | k in KeySet(ab)
      ensures k in KeySet(a) + KeySet(b)
    {
      var i :| 0 <= i < |ab| && ab[i].key == k;
      if i < |a| {
        assert ab[i] == a[i];
      } else {
        assert ab[i] == b[i - |a|];
      }
    }
    forall k | k in KeySet(a) + KeySet(b)
      ensures k in KeySet(ab)
    {
      if k in KeySet(a) {
        var i :| 0 <= i < |a| && a[i].key == k;
        assert ab[i] == a[i];
      } else {
        var i :| 0 <= i < |b| && b[i].key == k;
        assert ab[|a| + i] == b[i];
      }
    }
  }

  lemma KeySetAppendAt(a: seq<Job>, b: seq<Job>, k: string)
    ensures k in KeySet(a + b) <==> k in KeySet(a) || k in KeySet(b)
  {
    KeySetAppend(a, b);
  }

  lemma KeySetOne(job: Job)
    ensures KeySet([job]) == {job.key}
  {
    assert [job][0].key == job.key;
  }

  /** The schema loop from field `j` on visits exactly the present, non-excluded keys of those fields. */
  lemma {:induction false} SchemaJobKeys(d: DictSpec, es: seq<Entry>, j: nat)
    ensures forall k :: k in KeySet(SchemaJobs(d, es, j)) <==> HasKey(es, k) && k !in d.excluded && InSchemaFrom(d, j, k)
    decreases |d.schema| - j
  {
    if j < |d.schema| {
      var k := d.schema[j].key;
      var head := if HasKey(es, k) && k !in d.excluded then [Job(k, FromSchema(j))] else [];
      var rest := SchemaJobs(d, es, j + 1);
      assert SchemaJobs(d, es, j) == head + rest;
      SchemaJobKeys(d, es, j + 1);
      KeySetAppend(head, rest);
      assert KeySet(head) == if HasKey(es, k) && k !in d.excluded then {k} else {} by {
        if |head| == 1 {
          KeySetOne(head[0]);
        }
      }
      InSchemaSplit(d, j);
    }
  }

  lemma InSchemaSplit(d: DictSpec, j: nat)
    requires j < |d.schema|
    ensures forall x :: InSchemaFrom(d, j, x) <==> x == d.schema[j].key || InSchemaFrom(d, j + 1, x)
  {
    forall x | InSchemaFrom(d, j, x)
      ensures x == d.schema[j].key || InSchemaFrom(d, j + 1, x)
    {
      var i :| j <= i < |d.schema| && d.schema[i].key == x;
    }
  }

  /** One pass of rule `p` picks exactly the unseen, non-excluded keys it matches. */
  lemma {:induction false} RuleJobKeys(env: Env, d: DictSpec, p: nat, keys: seq<string>, seen: set<string>)
    requires p < |d.patterns|
    ensures forall k :: k in KeySet(RuleJobs(env, d, p, keys, seen)) <==>
      k in keys && k !in seen && k !in d.excluded && env.patternMatch(d.patterns[p].pattern, k)
    decreases |keys|
  {
    if |keys| > 0 {
      var k := keys[0];
      var head := if k !in seen && k !in d.excluded && env.patternMatch(d.patterns[p].pattern, k) then [Job(k, FromPattern(p))] else [];
      assert RuleJobs(env, d, p, keys, seen) == head + RuleJobs(env, d, p, keys[1..], seen);
      RuleJobKeys(env, d, p, keys[1..], seen);
      KeySetAppend(head, RuleJobs(env, d, p, keys[1..], seen));
      if |head| == 1 {
        KeySetOne(head[0]);
      }
      assert forall x :: x in keys <==> x == k || x in keys[1..];
    }
  }

  /** The sync pattern loop from rule `p` on visits exactly the non-excluded keys some later rule matches. */
  lemma AllRuleJobKeys(env: Env, d: DictSpec, p: nat, keys: seq<string>)
    ensures forall k :: k in KeySet(AllRuleJobs(env, d, p, keys)) <==> k in keys && k !in d.excluded && MatchedFrom(env, d, p, k)
  {
    forall k
      ensures k in KeySet(AllRuleJobs(env, d, p, keys)) <==> k in keys && k !in d.excluded && MatchedFrom(env, d, p, k)
    {
      AllRuleJobKey(env, d, p, keys, k);
    }
  }

  /** `AllRuleJobKeys` for one key, by induction on the rules left. */
  lemma {:induction false} AllRuleJobKey(env: Env, d: DictSpec, p: nat, keys: seq<string>, k: string)
    ensures k in KeySet(AllRuleJobs(env, d, p, keys)) <==> k in keys && k !in d.excluded && MatchedFrom(env, d, p, k)
    decreases |d.patterns| - p
  {
    if p < |d.patterns| {
      var now := RuleJobs(env, d, p, keys, {});
      var later := AllRuleJobs(env, d, p + 1, keys);
      AllRuleJobsUnfold(env, d, p, keys);
      RuleJobHas(env, d, p, keys, k);
      AllRuleJobKey(env, d, p + 1, keys, k);
      KeySetAppendAt(now, later, k);
      MatchedSplitAt(env, d, p, k);
    } else {
      assert !MatchedFrom(env, d, p, k);
    }
  }

  lemma RuleJobHas(env: Env, d: DictSpec, p: nat, keys: seq<string>, k: string)
    requires p < |d.patterns|
    ensures k in KeySet(RuleJobs(env, d, p, keys, {})) <==> k in keys && k !in d.excluded && env.patternMatch(d.patterns[p].pattern, k)
  {
    RuleJobKeys(env, d, p, keys, {});
  }

  lemma AllRuleJobsUnfold(env: Env, d: DictSpec, p: nat, keys: seq<string>)
    requires p < |d.patterns|
    ensures AllRuleJobs(env, d, p, keys) == RuleJobs(env, d, p, keys, {}) + AllRuleJobs(env, d, p + 1, keys)
  {
  }

  lemma MatchedSplitAt(env: Env, d: DictSpec, p: nat, k: string)
    requires p < |d.patterns|
    ensures MatchedFrom(env, d, p, k) <==> env.patternMatch(d.patterns[p].pattern, k) || MatchedFrom(env, d, p + 1, k)
  {
    if MatchedFrom(env, d, p, k) {
      var q :| p <= q < |d.patterns| && env.patternMatch(d.patterns[q].pattern, k);
    }
  }

  lemma MatchedSplit(env: Env, d: DictSpec, p: nat)
    requires p < |d.patterns|
    ensures forall k :: MatchedFrom(env, d, p, k) <==> env.patternMatch(d.patterns[p].pattern, k) || MatchedFrom(env, d, p + 1, k)
  {
    forall k | MatchedFrom(env, d, p, k)
      ensures env.patternMatch(d.patterns[p].pattern, k) || MatchedFrom(env, d, p + 1, k)
    {
      var q :| p <= q < |d.patterns| && env.patternMatch(d.patterns[q].pattern, k);
    }
  }

  /**
   * The async pattern loop from rule `p` on, together with the keys already
   * seen, covers exactly the seen keys and the non-excluded keys some later
   * rule matches.
   */
  lemma {:induction false} FreshRuleJobKeys(env: Env, d: DictSpec, p: nat, keys: seq<string>, seen: set<string>)
    ensures forall k :: k in KeySet(FreshRuleJobs(env, d, p, keys, seen)) + seen <==>
      k in seen || (k in keys && k !in d.excluded && MatchedFrom(env, d, p, k))
    decreases |d.patterns| - p
  {
    if p < |d.patterns| {
      assert FreshRuleJobs(env, d, p, keys, seen) ==
        RuleJobs(env, d, p, keys, seen) + FreshRuleJobs(env, d, p + 1, keys, seen + KeySet(RuleJobs(env, d, p, keys, seen)));
      FreshStepKeys(env, d, p, keys, seen, RuleJobs(env, d, p, keys, seen));
    } else {
      assert FreshRuleJobs(env, d, p, keys, seen) == [];
    }
  }

  /** One step of `FreshRuleJobKeys`, with this rule's jobs `now` named. */
  lemma {:induction false} FreshStepKeys(env: Env, d: DictSpec, p: nat, keys: seq<string>, seen: set<string>, now: seq<Job>)
    requires p < |d.patterns| && now == RuleJobs(env, d, p, keys, seen)
    ensures forall k :: k in KeySet(now + FreshRuleJobs(env, d, p + 1, keys, seen + KeySet(now))) + seen <==>
      k in seen || (k in keys && k !in d.excluded && MatchedFrom(env, d, p, k))
    decreases |d.patterns| - p, 0
  {
    var later := FreshRuleJobs(env, d, p + 1, keys, seen + KeySet(now));
    RuleJobKeys(env, d, p, keys, seen);
    FreshRuleJobKeys(env, d, p + 1, keys, seen + KeySet(now));
    KeySetAppend(now, later);
    MatchedSplit(env, d, p);
  }

  lemma SchemaFromStart(d: DictSpec)
    ensures forall k :: InSchemaFrom(d, 0, k) <==> k in SchemaKeys(d.schema)
  {
    var keys := SchemaKeys(d.schema);
    forall k | k in keys
      ensures InSchemaFrom(d, 0, k)
    {
      var i :| 0 <= i < |keys| && keys[i] == k;
      assert d.schema[i].key == k;
    }
  }

  /**
   * Both modes hand the same keys to children: the present, non-excluded keys
   * that are schema keys or matched by some rule. Only how often and by which
   * rule differs.
   */
  lemma ValidatedKeys(env: Env, d: DictSpec, es: seq<Entry>)
    ensures forall k :: k in KeySet(SyncJobs(env, d, es)) <==> Validated(env, d, es, k)
    ensures forall k :: k in KeySet(AsyncJobs(env, d, es)) <==> Validated(env, d, es, k)
  {
    var s := SchemaJobs(d, es, 0);
    SchemaJobKeys(d, es, 0);
    SchemaFromStart(d);
    AllRuleJobKeys(env, d, 0, KeysOf(es));
    FreshRuleJobKeys(env, d, 0, KeysOf(es), KeySet(s));
    KeySetAppend(s, AllRuleJobs(env, d, 0, KeysOf(es)));
    KeySetAppend(s, FreshRuleJobs(env, d, 0, KeysOf(es), KeySet(s)));
  }

  /**
   * The keys left for the additional-properties step, in either mode: the
   * present keys that are neither excluded, nor schema keys, nor matched by
   * any rule.
   */
  lemma UnvalidatedKeys(env: Env, d: DictSpec, es: seq<Entry>)
    ensures Unvalidated(d, KeysOf(es), KeySet(SyncJobs(env, d, es))) == Unvalidated(d, KeysOf(es), KeySet(AsyncJobs(env, d, es)))
    ensures forall k :: k in Unvalidated(d, KeysOf(es), KeySet(SyncJobs(env, d, es))) <==>
      HasKey(es, k) && k !in d.excluded && k !in SchemaKeys(d.schema) && !MatchedFrom(env, d, 0, k)
  {
    ValidatedKeys(env, d, es);
    assert KeySet(SyncJobs(env, d, es)) == KeySet(AsyncJobs(env, d, es));
  }

  /** The sync loops leave the value of a key no job names as it was. */
  lemma {:induction false} RunSeqKeeps(m: Mode, d: DictSpec, env: Env, jobs: seq<Job>, es: seq<Entry>, path: Path, k: string)
    requires AllFit(d, es, jobs)
    requires forall i :: 0 <= i < |jobs| ==> jobs[i].key != k
    ensures RunSeq(m, d, env, jobs, es, path).Success? ==> Lookup(RunSeq(m, d, env, jobs, es, path).value, k) == Lookup(es, k)
    decreases |jobs|
  {
    if |jobs| > 0 {
      var job := jobs[0];
      var o := RunJob(m, d, env, job, Lookup(es, job.key).value, path);
      if o.Ok? {
        var es' := Assign(es, job.key, o.value);
        assert KeysOf(es') == KeysOf(es);
        assert RunSeq(m, d, env, jobs, es, path) == RunSeq(m, d, env, jobs[1..], es', path);
        forall i | 0 <= i < |jobs| - 1
          ensures jobs[1..][i].key != k && Fits(d, jobs[1..][i]) && HasKey(es', jobs[1..][i].key)
        {
          assert jobs[1..][i] == jobs[i + 1];
        }
        RunSeqKeeps(m, d, env, jobs[1..], es', path, k);
      }
    }
  }

  /** Storing the gathered results leaves the value of a key no job names as it was. */
  lemma {:induction false} StoreKeeps(es: seq<Entry>, jobs: seq<Job>, ys: seq<Value>, k: string)
    requires |jobs| == |ys|
    requires forall i :: 0 <= i < |jobs| ==> HasKey(es, jobs[i].key) && jobs[i].key != k
    ensures Lookup(Store(es, jobs, ys), k) == Lookup(es, k)
    decreases |jobs|
  {
    if |jobs| > 0 {
      var es' := Assign(es, jobs[0].key, ys[0]);
      assert KeysOf(es') == KeysOf(es);
      forall i | 0 <= i < |jobs| - 1
        ensures HasKey(es', jobs[1..][i].key) && jobs[1..][i].key != k
      {
        assert jobs[1..][i] == jobs[i + 1];
      }
      StoreKeeps(es', jobs[1..], ys[1..], k);
    }
  }

  /** No job of either mode, additional ones included, names a key that passes through. */
  lemma PassingKeyUnnamed(env: Env, d: DictSpec, es: seq<Entry>, k: string)
    requires PassesThrough(env, d, k)
    ensures k !in KeySet(SyncJobs(env, d, es)) && k !in KeySet(AsyncJobs(env, d, es))
    ensures d.additional.ValidateWith? ==> k !in Unvalidated(d, KeysOf(es), KeySet(SyncJobs(env, d, es)))
  {
    ValidatedKeys(env, d, es);
  }

  /** The sync loops on a normalised input: same keys out, and every passing key's value unchanged. */
  lemma DictSyncOutput(m: Mode, custom: Option<string>, d: DictSpec, env: Env, es: seq<Entry>, path: Path)
    ensures var r := DictSync(m, custom, d, env, es, path);
      r.Ok? ==> r.value.Map? && KeysOf(r.value.entries) == KeysOf(es)
    ensures var r := DictSync(m, custom, d, env, es, path);
      r.Ok? ==> forall k :: PassesThrough(env, d, k) ==> Lookup(r.value.entries, k) == Lookup(es, k)
  {
    var r := DictSync(m, custom, d, env, es, path);
    if r.Ok? {
      forall k | PassesThrough(env, d, k)
        ensures Lookup(r.value.entries, k) == Lookup(es, k)
      {
        DictSyncKeeps(m, custom, d, env, es, path, k);
      }
    }
  }

  /** One passing key of the sync loops: neither the first loops nor the additional step touch it. */
  lemma DictSyncKeeps(m: Mode, custom: Option<string>, d: DictSpec, env: Env, es: seq<Entry>, path: Path, k: string)
    requires PassesThrough(env, d, k)
    ensures var r := DictSync(m, custom, d, env, es, path);
      r.Ok? ==> Lookup(r.value.entries, k) == Lookup(es, k)
  {
    var jobs := SyncJobs(env, d, es);
    var first := RunSeq(m, d, env, jobs, es, path);
    PassingKeyUnnamed(env, d, es, k);
    RunSeqKeeps(m, d, env, jobs, es, path, k);
    if first.Success? {
      var rest := Unvalidated(d, KeysOf(es), KeySet(jobs));
      DictSyncSteps(m, custom, d, env, es, path);
      if d.additional.ValidateWith? {
        AdditionalKeeps(m, d, env, rest, first.value, path, k);
      }
    }
  }

  /** What the sync loops return once the first loops succeed: their entries, after the additional step if there is one. */
  lemma DictSyncSteps(m: Mode, custom: Option<string>, d: DictSpec, env: Env, es: seq<Entry>, path: Path)
    requires RunSeq(m, d, env, SyncJobs(env, d, es), es, path).Success?
    ensures var es1 := RunSeq(m, d, env, SyncJobs(env, d, es), es, path).value;
      var rest := Unvalidated(d, KeysOf(es), KeySet(SyncJobs(env, d, es)));
      var r := DictSync(m, custom, d, env, es, path);
      && (r.Ok? && !d.additional.ValidateWith? ==> r == Ok(Map(es1)))
      && (r.Ok? && d.additional.ValidateWith? ==> r == Ok(Map(RunSeq(m, d, env, AdditionalJobs(rest), es1, path).value)))
  {
  }

  /** The additional-properties step leaves a key it does not name as it was. */
  lemma AdditionalKeeps(m: Mode, d: DictSpec, env: Env, rest: seq<string>, es1: seq<Entry>, path: Path, k: string)
    requires d.additional.ValidateWith? && forall x :: x in rest ==> HasKey(es1, x)
    requires k !in rest
    ensures var o := RunSeq(m, d, env, AdditionalJobs(rest), es1, path);
      o.Success? ==> Lookup(o.value, k) == Lookup(es1, k)
  {
    var extra := AdditionalJobs(rest);
    assert forall i :: 0 <= i < |extra| ==> extra[i].key == rest[i];
    RunSeqKeeps(m, d, env, extra, es1, path, k);
  }

  /** Every job of the async run, the additional ones included. */
  function AsyncAll(env: Env, d: DictSpec, es: seq<Entry>): (r: seq<Job>)
    ensures AllFit(d, es, r)
  {
    var first := AsyncJobs(env, d, es);
    var rest := Unvalidated(d, KeysOf(es), KeySet(first));
    var r := first + (if d.additional.ValidateWith? then AdditionalJobs(rest) else []);
    assert forall i :: |first| <= i < |r| ==> r[i] == Job(rest[i - |first|], FromAdditional);
    r
  }

  /** No async job names a key that passes through. */
  lemma AsyncAllAvoids(env: Env, d: DictSpec, es: seq<Entry>, k: string)
    requires PassesThrough(env, d, k)
    ensures forall i :: 0 <= i < |AsyncAll(env, d, es)| ==> AsyncAll(env, d, es)[i].key != k
  {
    var first := AsyncJobs(env, d, es);
    var rest := Unvalidated(d, KeysOf(es), KeySet(first));
    var extra := if d.additional.ValidateWith? then AdditionalJobs(rest) else [];
    assert AsyncAll(env, d, es) == first + extra;
    PassingKeyUnnamed(env, d, es, k);
    UnvalidatedKeys(env, d, es);
    if d.additional.ValidateWith? {
      assert k !in rest;
    }
    AvoidsAppend(first, extra, k);
  }

  lemma AvoidsAppend(a: seq<Job>, b: seq<Job>, k: string)
    requires k !in KeySet(a) && forall i :: 0 <= i < |b| ==> b[i].key != k
    ensures forall i :: 0 <= i < |a + b| ==> (a + b)[i].key != k
  {
    forall i | 0 <= i < |a + b|
      ensures (a + b)[i].key != k
    {
      if i < |a| {
        assert (a + b)[i] == a[i];
      } else {
        assert (a + b)[i] == b[i - |a|];
      }
    }
  }

  /** The async gathering on a normalised input: same keys out, and every passing key's value unchanged. */
  lemma DictAsyncOutput(m: Mode, custom: Option<string>, d: DictSpec, env: Env, es: seq<Entry>, path: Path)
    ensures var r := DictAsync(m, custom, d, env, es, path);
      r.Ok? ==> r.value.Map? && KeysOf(r.value.entries) == KeysOf(es)
    ensures var r := DictAsync(m, custom, d, env, es, path);
      r.Ok? ==> forall k :: PassesThrough(env, d, k) ==> Lookup(r.value.entries, k) == Lookup(es, k)
  {
    var jobs := AsyncAll(env, d, es);
    var r := DictAsync(m, custom, d, env, es, path);
    if r.Ok? {
      var ys := Collect(RunEach(m, d, env, jobs, es, path)).value;
      assert r == Ok(Map(Store(es, jobs, ys)));
      forall k | PassesThrough(env, d, k)
        ensures Lookup(r.value.entries, k) == Lookup(es, k)
      {
        AsyncAllAvoids(env, d, es, k);
        StoreKeeps(es, jobs, ys, k);
      }
    }
  }


  /**
   * A dict that validates returns exactly the keys of its input (each once),
   * and an excluded key, or an unclaimed key while additional properties are
   * allowed, keeps the value it came with.
   */
  lemma DictOutput(m: Mode, nullable: bool, custom: Option<string>, d: DictSpec, env: Env, data: Value, path: Path)
    requires data.Map?
    ensures var r := RunDict(m, nullable, custom, d, env, data, path);
      r.Ok? ==> r.value.Map? && KeysOf(r.value.entries) == KeysOf(Normalize(data.entries))
    ensures var r := RunDict(m, nullable, custom, d, env, data, path);
      r.Ok? ==> forall k :: PassesThrough(env, d, k) ==> Lookup(r.value.entries, k) == Lookup(data.entries, k)
  {
    var es := Normalize(data.entries);
    LoopsDecide(m, nullable, custom, d, env, data, path);
    if m == Sync {
      DictSyncOutput(m, custom, d, env, es, path);
    } else {
      DictAsyncOutput(m, custom, d, env, es, path);
    }
  }

  /** A dict input that passes the count and required-key checks gets the result of the mode's loops. */
  lemma LoopsDecide(m: Mode, nullable: bool, custom: Option<string>, d: DictSpec, env: Env, data: Value, path: Path)
    requires data.Map?
    ensures var r := RunDict(m, nullable, custom, d, env, data, path);
      r.Ok? ==> r == if m == Sync then DictSync(m, custom, d, env, Normalize(data.entries), path)
                     else DictAsync(m, custom, d, env, Normalize(data.entries), path)
  {
  }

}
