/**
 * When `validate_async` gives the same result as `validate`.
 *
 * With pure children the async form of a collection differs from the sync
 * form in two places only: a `Tuple` shorter than its positional validators
 * raises before any child runs, and the async `Dict` pattern loop skips keys
 * that the schema or an earlier rule already validated, where the sync loop
 * validates them again. A validator tree that avoids both (`Safe`) validates
 * identically in the two modes, at every depth; at the root, `Null`'s own
 * `validate` is the only other difference.
 */
module Modes {
  import opened Wrappers
  import opened Text
  import opened Values
  import opened Failures
  import opened Config
  import opened Primitives
  import opened Engine

  /** `w` gives the same outcome in both modes on every input. */
  ghost predicate Agrees(env: Env, w: Validator)
  {
    forall data, path :: Run(Sync, w, env, data, path) == Run(Async, w, env, data, path)
  }

  /** Every validator a dict may run on a child agrees in both modes. */
  ghost predicate JobsAgree(env: Env, d: DictSpec)
  {
    && (forall j :: 0 <= j < |d.schema| ==> Agrees(env, d.schema[j].validator))
    && (forall p :: 0 <= p < |d.patterns| ==> Agrees(env, d.patterns[p].validator))
    && (d.additional.ValidateWith? ==> Agrees(env, d.additional.validator))
  }

  /**
   * No key is claimed twice: schema keys are distinct (a Python dict), no
   * pattern matches a schema key, and no key matches two patterns.
   */
  ghost predicate DictShape(env: Env, d: DictSpec)
  {
    && Distinct(SchemaKeys(d.schema))
    && (forall j, p :: 0 <= j < |d.schema| && 0 <= p < |d.patterns| ==>
          !env.patternMatch(d.patterns[p].pattern, d.schema[j].key))
    && (forall p, q, k :: 0 <= p < q < |d.patterns| ==>
          !(env.patternMatch(d.patterns[p].pattern, k) && env.patternMatch(d.patterns[q].pattern, k)))
  }

  /** The validator tree avoids both mode-dependent behaviours, at every depth. */
  ghost predicate Safe(env: Env, v: Validator)
    decreases v, 1
  {
    match v.kind
    case ListK(item, _, _, _, _) => item.Some? ==> Safe(env, item.value)
    case DictK(d) => DictSafe(env, d)
    case ObjectK(d) => DictSafe(env, d)
    case TupleK(items, rest, minLength, _) =>
      && minLength >= |items|
      && (forall i :: 0 <= i < |items| ==> Safe(env, items[i]))
      && (rest.Some? ==> Safe(env, rest.value))
    case UnionK(options, _, mapping) =>
      && (forall i :: 0 <= i < |options| ==> Safe(env, options[i]))
      && (forall i :: 0 <= i < |mapping| ==> Safe(env, mapping[i].validator))
    case _ => true
  }

  ghost predicate DictSafe(env: Env, d: DictSpec)
    decreases d, 0
  {
    && DictShape(env, d)
    && (forall j :: 0 <= j < |d.schema| ==> Safe(env, d.schema[j].validator))
    && (forall p :: 0 <= p < |d.patterns| ==> Safe(env, d.patterns[p].validator))
    && (d.additional.ValidateWith? ==> Safe(env, d.additional.validator))
  }

  /* ---------------------------------------------------------------- gathering */

  /** Gathering one more outcome in front: its failure comes first, its value heads the list. */
  lemma CollectCons(rs: seq<Outcome>)
    requires |rs| > 0
    ensures Collect(rs) ==
      match rs[0]
      case Err(e) => Failure(e)
      case Ok(y) =>
        match Collect(rs[1..])
        case Failure(e) => Failure(e)
        case Success(ys) => Success([y] + ys)
  {
    if rs[0].Ok? {
      match FirstErr(rs[1..])
      case None =>
      case Some(k) =>
    }
  }

  /* ---------------------------------------------------------------- List */

  /** The sync item loop from `i` gives what gathering the async item tasks from `i` gives. */
  lemma {:induction false} ListSeqEach(env: Env, v: Validator, xs: seq<Value>, path: Path, i: nat)
    requires v.kind.ListK? && v.kind.item.Some? && i <= |xs|
    requires Agrees(env, v.kind.item.value)
    ensures ListSync(Sync, v, env, xs, path, i) == Collect(ListEach(Async, v, env, xs, path)[i..])
    decreases |xs| - i
  {
    var rs := ListEach(Async, v, env, xs, path);
    if i < |xs| {
      ListSeqEach(env, v, xs, path, i + 1);
      assert rs[i..][1..] == rs[i + 1..];
      assert rs[i..][0] == Run(Sync, v.kind.item.value, env, xs[i], path + [Index(i)]);
      CollectCons(rs[i..]);
    }
  }

  /* ---------------------------------------------------------------- Tuple */

  /** With every positional item present, the sync loop from `i` gives the gathered tasks from `i`. */
  lemma {:induction false} TupleSeqEach(env: Env, v: Validator, xs: seq<Value>, path: Path, i: nat)
    requires v.kind.TupleK? && |xs| >= |v.kind.items| && i <= |xs|
    requires forall j :: 0 <= j < |v.kind.items| ==> Agrees(env, v.kind.items[j])
    requires v.kind.rest.Some? ==> Agrees(env, v.kind.rest.value)
    ensures TupleSync(Sync, v, env, xs, path, i) == Collect(TupleEach(Async, v, env, xs, path)[i..])
    decreases |xs| - i
  {
    var rs := TupleEach(Async, v, env, xs, path);
    if i < |xs| {
      TupleSeqEach(env, v, xs, path, i + 1);
      assert rs[i..][1..] == rs[i + 1..];
      assert rs[i..][0] == TupleItem(Sync, v, env, xs, path, i);
      CollectCons(rs[i..]);
      if i >= |v.kind.items| && v.kind.rest.None? {
        assert xs[i..] == [xs[i]] + xs[i + 1..];
      }
    }
  }

  /* ---------------------------------------------------------------- Union */

  /** Trying the outcomes in order from `i`: the first success, or the list of every failure. */
  function UnionFrom(custom: Option<string>, rs: seq<Outcome>, i: nat, lines: seq<string>, path: Path): Outcome
    decreases |rs| - i
  {
    if i >= |rs| then Fail(custom, NoMatch(lines), path)
    else if rs[i].Ok? then rs[i]
    else UnionFrom(custom, rs, i + 1, lines + [OptionLine(i, rs[i].error)], path)
  }

  lemma {:induction false} UnionSyncFrom(env: Env, v: Validator, data: Value, path: Path, i: nat, lines: seq<string>)
    requires v.kind.UnionK?
    requires forall j :: 0 <= j < |v.kind.options| ==> Agrees(env, v.kind.options[j])
    ensures UnionSync(Sync, v, env, data, path, i, lines) == UnionFrom(v.custom, UnionEach(Async, v, env, data, path), i, lines, path)
    decreases |v.kind.options| - i
  {
    if i < |v.kind.options| {
      var o := Run(Sync, v.kind.options[i], env, data, path);
      assert o == Run(Async, v.kind.options[i], env, data, path);
      if o.Err? {
        UnionSyncFrom(env, v, data, path, i + 1, lines + [OptionLine(i, o.error)]);
      }
    }
  }

  /** The option lines from `i` start with the line of option `i`. */
  lemma OptionLinesCons(rs: seq<Outcome>, i: nat)
    requires i < |rs| && forall j :: i <= j < |rs| ==> rs[j].Err?
    ensures OptionLines(rs, i) == [OptionLine(i, rs[i].error)] + OptionLines(rs, i + 1)
  {
  }

  lemma Associative<T>(a: seq<T>, b: seq<T>, c: seq<T>)
    ensures a + b + c == a + (b + c)
  {
  }

  /** After failures only, a success at `i` is the first success. */
  lemma FirstOkAt(rs: seq<Outcome>, i: nat)
    requires i < |rs| && rs[i].Ok? && forall j :: 0 <= j < i ==> rs[j].Err?
    ensures FirstOk(rs) == Some(i)
  {
  }

  /** Trying in order from `i`, after failures only, is taking the first success overall. */
  lemma {:induction false} UnionFromFirstOk(custom: Option<string>, rs: seq<Outcome>, i: nat, lines: seq<string>, path: Path)
    requires i <= |rs| && forall j :: 0 <= j < i ==> rs[j].Err?
    ensures FirstOk(rs).Some? ==> UnionFrom(custom, rs, i, lines, path) == rs[FirstOk(rs).value]
    ensures FirstOk(rs).None? ==> UnionFrom(custom, rs, i, lines, path) == Fail(custom, NoMatch(lines + OptionLines(rs, i)), path)
    decreases |rs| - i
  {
    if i == |rs| {
      assert OptionLines(rs, i) == [];
      assert lines + [] == lines;
    } else if rs[i].Ok? {
      FirstOkAt(rs, i);
      assert UnionFrom(custom, rs, i, lines, path) == rs[i];
    } else {
      var line := OptionLine(i, rs[i].error);
      assert UnionFrom(custom, rs, i, lines, path) == UnionFrom(custom, rs, i + 1, lines + [line], path);
      UnionFromFirstOk(custom, rs, i + 1, lines + [line], path);
      if FirstOk(rs).None? {
        OptionLinesCons(rs, i);
        Associative(lines, [line], OptionLines(rs, i + 1));
      }
    }
  }

  /* ---------------------------------------------------------------- Dict */

  /** No two jobs validate the same key. */
  predicate UniqueKeys(jobs: seq<Job>)
  {
    forall i, j :: 0 <= i < j < |jobs| ==> jobs[i].key != jobs[j].key
  }

  /** Joining two job lists with unique keys and no key in common keeps keys unique. */
  lemma UniqueAppend(a: seq<Job>, b: seq<Job>)
    requires UniqueKeys(a) && UniqueKeys(b)
    requires forall i, j :: 0 <= i < |a| && 0 <= j < |b| ==> a[i].key != b[j].key
    ensures UniqueKeys(a + b)
  {
    var c := a + b;
    forall i, j | 0 <= i < j < |c|
      ensures c[i].key != c[j].key
    {
      if j < |a| {
      } else if i >= |a| {
        assert c[i] == b[i - |a|] && c[j] == b[j - |a|];
      } else {
        assert c[j] == b[j - |a|];
      }
    }
  }

  /** One more job in front, on a key no later job has, keeps keys unique. */
  lemma ConsUnique(x: Job, t: seq<Job>)
    requires UniqueKeys(t)
    requires forall b :: 0 <= b < |t| ==> t[b].key != x.key
    ensures UniqueKeys([x] + t)
  {
    var c := [x] + t;
    forall i, j | 0 <= i < j < |c|
      ensures c[i].key != c[j].key
    {
      assert c[j] == t[j - 1];
      if i > 0 {
        assert c[i] == t[i - 1];
      }
    }
  }

  lemma {:induction false} SchemaJobsUnique(d: DictSpec, es: seq<Entry>, j: nat)
    requires Distinct(SchemaKeys(d.schema))
    ensures UniqueKeys(SchemaJobs(d, es, j))
    decreases |d.schema| - j
  {
    if j < |d.schema| {
      var k := d.schema[j].key;
      var tail := SchemaJobs(d, es, j + 1);
      SchemaJobsUnique(d, es, j + 1);
      if HasKey(es, k) && k !in d.excluded {
        assert SchemaJobs(d, es, j) == [Job(k, FromSchema(j))] + tail;
        LaterSchemaKeys(d, es, j, j + 1);
        ConsUnique(Job(k, FromSchema(j)), tail);
      } else {
        assert SchemaJobs(d, es, j) == tail;
      }
    }
  }

  /** The schema jobs from entry `j` on are for keys other than that of an earlier entry `i`. */
  lemma LaterSchemaKeys(d: DictSpec, es: seq<Entry>, i: nat, j: nat)
    requires Distinct(SchemaKeys(d.schema)) && i < j && i < |d.schema|
    ensures forall b :: 0 <= b < |SchemaJobs(d, es, j)| ==> SchemaJobs(d, es, j)[b].key != d.schema[i].key
  {
    var tail := SchemaJobs(d, es, j);
    forall b | 0 <= b < |tail|
      ensures tail[b].key != d.schema[i].key
    {
      var f := tail[b].src.field;
      assert SchemaKeys(d.schema)[f] == tail[b].key;
      assert SchemaKeys(d.schema)[i] == d.schema[i].key;
    }
  }



  lemma {:induction false} RuleJobsUnique(env: Env, d: DictSpec, p: nat, keys: seq<string>, seen: set<string>)
    requires p < |d.patterns| && Distinct(keys)
    ensures UniqueKeys(RuleJobs(env, d, p, keys, seen))
    decreases |keys|
  {
    if |keys| > 0 {
      var k := keys[0];
      var tail := RuleJobs(env, d, p, keys[1..], seen);
      RuleJobsUnique(env, d, p, keys[1..], seen);
      if k !in seen && k !in d.excluded && env.patternMatch(d.patterns[p].pattern, k) {
        HeadNotInTail(keys);
        ConsUnique(Job(k, FromPattern(p)), tail);
      }
    }
  }

  /** The first key of a sequence of distinct keys does not recur. */
  lemma HeadNotInTail(keys: seq<string>)
    requires |keys| > 0 && Distinct(keys)
    ensures keys[0] !in keys[1..]
  {
    forall n | 0 <= n < |keys| - 1
      ensures keys[1..][n] != keys[0]
    {
      assert keys[1..][n] == keys[n + 1];
    }
  }

  lemma {:induction false} AllRuleJobsUnique(env: Env, d: DictSpec, p: nat, keys: seq<string>)
    requires DictShape(env, d) && Distinct(keys)
    ensures UniqueKeys(AllRuleJobs(env, d, p, keys))
    decreases |d.patterns| - p
  {
    if p < |d.patterns| {
      var head := RuleJobs(env, d, p, keys, {});
      var tail := AllRuleJobs(env, d, p + 1, keys);
      RuleJobsUnique(env, d, p, keys, {});
      AllRuleJobsUnique(env, d, p + 1, keys);
      RulesDisjoint(env, d, p, keys);
      UniqueAppend(head, tail);
    }
  }

  /** What rule `p` claims and what the later rules claim share no key. */
  lemma RulesDisjoint(env: Env, d: DictSpec, p: nat, keys: seq<string>)
    requires DictShape(env, d) && p < |d.patterns|
    ensures var head, tail := RuleJobs(env, d, p, keys, {}), AllRuleJobs(env, d, p + 1, keys);
      forall a, b :: 0 <= a < |head| && 0 <= b < |tail| ==> head[a].key != tail[b].key
  {
    var head, tail := RuleJobs(env, d, p, keys, {}), AllRuleJobs(env, d, p + 1, keys);
    forall a, b | 0 <= a < |head| && 0 <= b < |tail|
      ensures head[a].key != tail[b].key
    {
      NoDoubleMatch(env, d, p, tail[b].src.rule, tail[b].key);
    }
  }

  /** In a shaped dict no key matches two different rules. */
  lemma NoDoubleMatch(env: Env, d: DictSpec, p: nat, q: nat, k: string)
    requires DictShape(env, d) && p < q < |d.patterns|
    ensures !(env.patternMatch(d.patterns[p].pattern, k) && env.patternMatch(d.patterns[q].pattern, k))
  {
  }


  /** The sync jobs validate each key at most once when the dict is shaped. */
  lemma SyncJobsUnique(env: Env, d: DictSpec, es: seq<Entry>)
    requires DictShape(env, d) && DistinctKeys(es)
    ensures UniqueKeys(SyncJobs(env, d, es))
  {
    var s := SchemaJobs(d, es, 0);
    var a := AllRuleJobs(env, d, 0, KeysOf(es));
    SchemaJobsUnique(d, es, 0);
    AllRuleJobsUnique(env, d, 0, KeysOf(es));
    forall i, j | 0 <= i < |s| && 0 <= j < |a|
      ensures s[i].key != a[j].key
    {
      var f := s[i].src.field;
      var q := a[j].src.rule;
      assert env.patternMatch(d.patterns[q].pattern, a[j].key);
      assert !env.patternMatch(d.patterns[q].pattern, d.schema[f].key);
    }
    UniqueAppend(s, a);
  }

  /** A rule pass is unaffected by `seen` when the rule matches none of the seen keys. */
  lemma {:induction false} RuleJobsIgnoreSeen(env: Env, d: DictSpec, p: nat, keys: seq<string>, seen: set<string>)
    requires p < |d.patterns| && Unmatched(env, d, seen, p)
    ensures RuleJobs(env, d, p, keys, seen) == RuleJobs(env, d, p, keys, {})
    decreases |keys|
  {
    if |keys| > 0 {
      RuleJobsIgnoreSeen(env, d, p, keys[1..], seen);
    }
  }

  /** No key of `seen` matches rule `p` or a later one. */
  ghost predicate Unmatched(env: Env, d: DictSpec, seen: set<string>, p: nat)
  {
    forall k, q :: k in seen && p <= q < |d.patterns| ==> !env.patternMatch(d.patterns[q].pattern, k)
  }

  /**
   * One step of the async pattern loop: rule `p` claims what it would claim
   * with nothing seen, and the keys it claims match no later rule.
   */
  lemma FreshStep(env: Env, d: DictSpec, p: nat, keys: seq<string>, seen: set<string>)
    requires DictShape(env, d) && p < |d.patterns| && Unmatched(env, d, seen, p)
    ensures RuleJobs(env, d, p, keys, seen) == RuleJobs(env, d, p, keys, {})
    ensures Unmatched(env, d, seen + KeySet(RuleJobs(env, d, p, keys, seen)), p + 1)
  {
    var now := RuleJobs(env, d, p, keys, seen);
    RuleJobsIgnoreSeen(env, d, p, keys, seen);
    forall k, q | k in seen + KeySet(now) && p + 1 <= q < |d.patterns|
      ensures !env.patternMatch(d.patterns[q].pattern, k)
    {
      if k !in seen {
        var i :| 0 <= i < |now| && now[i].key == k;
        NoDoubleMatch(env, d, p, q, k);
      }
    }
  }

  /** In a shaped dict the async pattern loop runs the very jobs of the sync one. */
  lemma {:induction false} FreshIsAll(env: Env, d: DictSpec, p: nat, keys: seq<string>, seen: set<string>)
    requires DictShape(env, d) && Unmatched(env, d, seen, p)
    ensures FreshRuleJobs(env, d, p, keys, seen) == AllRuleJobs(env, d, p, keys)
    decreases |d.patterns| - p
  {
    if p < |d.patterns| {
      FreshStep(env, d, p, keys, seen);
      FreshIsAll(env, d, p + 1, keys, seen + KeySet(RuleJobs(env, d, p, keys, seen)));
      assert FreshRuleJobs(env, d, p, keys, seen) ==
        RuleJobs(env, d, p, keys, seen) + FreshRuleJobs(env, d, p + 1, keys, seen + KeySet(RuleJobs(env, d, p, keys, seen)));
      assert AllRuleJobs(env, d, p, keys) == RuleJobs(env, d, p, keys, {}) + AllRuleJobs(env, d, p + 1, keys);
    } else {
      assert FreshRuleJobs(env, d, p, keys, seen) == [];
    }
  }

  lemma AsyncJobsAreSync(env: Env, d: DictSpec, es: seq<Entry>)
    requires DictShape(env, d)
    ensures AsyncJobs(env, d, es) == SyncJobs(env, d, es)
  {
    var s := SchemaJobs(d, es, 0);
    forall k, q | k in KeySet(s) && 0 <= q < |d.patterns|
      ensures !env.patternMatch(d.patterns[q].pattern, k)
    {
      var i :| 0 <= i < |s| && s[i].key == k;
      var f := s[i].src.field;
      assert d.schema[f].key == k;
    }
    assert Unmatched(env, d, KeySet(s), 0);
    FreshIsAll(env, d, 0, KeysOf(es), KeySet(s));
  }

  /** The unvalidated keys of a dict with distinct keys are distinct. */
  lemma {:induction false} UnvalidatedDistinct(d: DictSpec, keys: seq<string>, validated: set<string>)
    requires Distinct(keys)
    ensures Distinct(Unvalidated(d, keys, validated))
    decreases |keys|
  {
    if |keys| > 0 {
      UnvalidatedDistinct(d, keys[1..], validated);
      HeadNotInTail(keys);
      var tail := Unvalidated(d, keys[1..], validated);
      assert keys[0] !in tail;
    }
  }

  /** Running `a + b` in sequence is running `a`, then `b` on what `a` stored. */
  lemma {:induction false} RunSeqAppend(m: Mode, d: DictSpec, env: Env, a: seq<Job>, b: seq<Job>, es: seq<Entry>, path: Path)
    requires AllFit(d, es, a) && AllFit(d, es, b)
    ensures AllFit(d, es, a + b)
    ensures RunSeq(m, d, env, a + b, es, path) ==
      match RunSeq(m, d, env, a, es, path)
      case Failure(e) => Failure(e)
      case Success(es1) => RunSeq(m, d, env, b, es1, path)
    decreases |a|
  {
    if |a| == 0 {
      assert a + b == b;
    } else {
      var job := a[0];
      assert (a + b)[0] == job && (a + b)[1..] == a[1..] + b;
      var o := RunJob(m, d, env, job, Lookup(es, job.key).value, path);
      if o.Err? {
        assert RunSeq(m, d, env, a + b, es, path) == Failure(o.error);
        assert RunSeq(m, d, env, a, es, path) == Failure(o.error);
      } else {
        var es' := Assign(es, job.key, o.value);
        FitAfterAssign(d, es, a[1..], job.key, o.value);
        FitAfterAssign(d, es, b, job.key, o.value);
        RunSeqAppend(m, d, env, a[1..], b, es', path);
        assert RunSeq(m, d, env, a + b, es, path) == RunSeq(m, d, env, a[1..] + b, es', path);
        assert RunSeq(m, d, env, a, es, path) == RunSeq(m, d, env, a[1..], es', path);
      }
    }
  }

  /** Storing a value under a key the entries already have keeps every job fitting. */
  lemma FitAfterAssign(d: DictSpec, es: seq<Entry>, jobs: seq<Job>, k: string, y: Value)
    requires AllFit(d, es, jobs) && HasKey(es, k)
    ensures AllFit(d, Assign(es, k, y), jobs)
  {
    assert KeysOf(Assign(es, k, y)) == KeysOf(es);
  }


  /** What the async dict does with its gathered results: store them, or pass the first failure on. */
  function Stored(es: seq<Entry>, jobs: seq<Job>, c: Result<seq<Value>, ValidationError>): Result<seq<Entry>, ValidationError>
    requires c.Success? ==> |c.value| == |jobs|
    requires forall i :: 0 <= i < |jobs| ==> HasKey(es, jobs[i].key)
  {
    match c
    case Failure(e) => Failure(e)
    case Success(ys) => Success(Store(es, jobs, ys))
  }

  /** A dict child gives the same outcome in both modes when every validator of the dict agrees. */
  lemma JobAgrees(env: Env, d: DictSpec, job: Job, value: Value, path: Path)
    requires JobsAgree(env, d) && Fits(d, job)
    ensures RunJob(Sync, d, env, job, value, path) == RunJob(Async, d, env, job, value, path)
  {
    match job.src
    case FromSchema(j) => assert Agrees(env, d.schema[j].validator);
    case FromPattern(p) => assert Agrees(env, d.patterns[p].validator);
    case FromAdditional => assert Agrees(env, d.additional.validator);
  }

  /**
   * Storing the first job's result changes no value a later job reads, since
   * no later job has its key.
   */
  lemma EachAfterAssign(env: Env, d: DictSpec, jobs: seq<Job>, es: seq<Entry>, path: Path, y: Value)
    requires |jobs| > 0 && AllFit(d, es, jobs) && UniqueKeys(jobs)
    ensures AllFit(d, Assign(es, jobs[0].key, y), jobs[1..])
    ensures UniqueKeys(jobs[1..])
    ensures RunEach(Async, d, env, jobs[1..], Assign(es, jobs[0].key, y), path) == RunEach(Async, d, env, jobs, es, path)[1..]
  {
    TailFits(d, es, jobs);
    FitAfterAssign(d, es, jobs[1..], jobs[0].key, y);
    var es' := Assign(es, jobs[0].key, y);
    var rs := RunEach(Async, d, env, jobs, es, path);
    var rs' := RunEach(Async, d, env, jobs[1..], es', path);
    forall i | 0 <= i < |rs'|
      ensures rs'[i] == rs[1..][i]
    {
      var job := jobs[i + 1];
      assert jobs[1..][i] == job;
      assert Lookup(es', job.key) == Lookup(es, job.key);
      assert rs'[i] == RunJob(Async, d, env, job, Lookup(es', job.key).value, path);
      assert rs[i + 1] == RunJob(Async, d, env, job, Lookup(es, job.key).value, path);
    }
  }

  /** Dropping the first job keeps the others fitting, with unique keys none equal to the first's. */
  lemma TailFits(d: DictSpec, es: seq<Entry>, jobs: seq<Job>)
    requires |jobs| > 0 && AllFit(d, es, jobs) && UniqueKeys(jobs)
    ensures AllFit(d, es, jobs[1..]) && UniqueKeys(jobs[1..])
    ensures forall i :: 1 <= i < |jobs| ==> jobs[i].key != jobs[0].key
  {
    forall i, j | 0 <= i < j < |jobs| - 1
      ensures jobs[1..][i].key != jobs[1..][j].key
    {
      assert jobs[1..][i] == jobs[i + 1] && jobs[1..][j] == jobs[j + 1];
    }
  }


  /**
   * When no two jobs share a key, running them in sequence (each seeing the
   * results stored before it) gives what running them all on the input and
   * storing the results gives.
   */
  lemma {:induction false} SeqIsEach(env: Env, d: DictSpec, jobs: seq<Job>, es: seq<Entry>, path: Path)
    requires AllFit(d, es, jobs) && UniqueKeys(jobs) && JobsAgree(env, d)
    ensures RunSeq(Sync, d, env, jobs, es, path) == Stored(es, jobs, Collect(RunEach(Async, d, env, jobs, es, path)))
    decreases |jobs|
  {
    var rs := RunEach(Async, d, env, jobs, es, path);
    if |jobs| == 0 {
      assert rs == [];
    } else {
      var job := jobs[0];
      var o := RunJob(Sync, d, env, job, Lookup(es, job.key).value, path);
      JobAgrees(env, d, job, Lookup(es, job.key).value, path);
      assert rs[0] == o;
      CollectCons(rs);
      if o.Ok? {
        var es' := Assign(es, job.key, o.value);
        EachAfterAssign(env, d, jobs, es, path, o.value);
        SeqIsEach(env, d, jobs[1..], es', path);
        if Collect(rs[1..]).Success? {
          var ys := Collect(rs[1..]).value;
          assert ([o.value] + ys)[1..] == ys;
        }
      }
    }
  }

  /** The keys left for the additional-properties step are distinct and claimed by no earlier job. */
  lemma ExtraJobsFresh(env: Env, d: DictSpec, es: seq<Entry>)
    requires DictShape(env, d) && DistinctKeys(es)
    ensures var jobs := SyncJobs(env, d, es);
      UniqueKeys(jobs + AdditionalJobs(Unvalidated(d, KeysOf(es), KeySet(jobs))))
  {
    var jobs := SyncJobs(env, d, es);
    var rest := Unvalidated(d, KeysOf(es), KeySet(jobs));
    var extra := AdditionalJobs(rest);
    SyncJobsUnique(env, d, es);
    UnvalidatedDistinct(d, KeysOf(es), KeySet(jobs));
    forall i, j | 0 <= i < j < |extra|
      ensures extra[i].key != extra[j].key
    {
      assert extra[i].key == rest[i] && extra[j].key == rest[j];
    }
    forall i, j | 0 <= i < |jobs| && 0 <= j < |extra|
      ensures jobs[i].key != extra[j].key
    {
      assert extra[j].key == rest[j];
      assert rest[j] in rest;
    }
    UniqueAppend(jobs, extra);
  }

  /** A shaped dict whose children agree gives the same outcome from its sync and its async loops. */
  lemma DictSyncAsync(env: Env, custom: Option<string>, d: DictSpec, es: seq<Entry>, path: Path)
    requires DictShape(env, d) && JobsAgree(env, d) && DistinctKeys(es)
    ensures DictSync(Sync, custom, d, env, es, path) == DictAsync(Async, custom, d, env, es, path)
  {
    AsyncJobsAreSync(env, d, es);
    if d.additional.ValidateWith? {
      AdditionalAgree(env, custom, d, es, path);
    } else {
      NoAdditionalAgree(env, custom, d, es, path);
    }
  }

  /** Without an additional-properties validator, both forms run the same jobs and then the same check. */
  lemma NoAdditionalAgree(env: Env, custom: Option<string>, d: DictSpec, es: seq<Entry>, path: Path)
    requires DictShape(env, d) && JobsAgree(env, d) && DistinctKeys(es) && !d.additional.ValidateWith?
    requires AsyncJobs(env, d, es) == SyncJobs(env, d, es)
    ensures DictSync(Sync, custom, d, env, es, path) == DictAsync(Async, custom, d, env, es, path)
  {
    var jobs := SyncJobs(env, d, es);
    var rest := Unvalidated(d, KeysOf(es), KeySet(jobs));
    assert jobs + [] == jobs;
    SyncJobsUnique(env, d, es);
    SeqIsEach(env, d, jobs, es, path);
    assert DictAsync(Async, custom, d, env, es, path) ==
      match Collect(RunEach(Async, d, env, jobs, es, path))
      case Failure(e) => Err(e)
      case Success(ys) =>
        if |rest| > 0 && d.additional.Forbid? then Fail(custom, UnexpectedMessage(rest), path)
        else Ok(Map(Store(es, jobs, ys)));
  }

  /** With an additional-properties validator, the sync form's two loops are the async form's one gathering. */
  lemma AdditionalAgree(env: Env, custom: Option<string>, d: DictSpec, es: seq<Entry>, path: Path)
    requires DictShape(env, d) && JobsAgree(env, d) && DistinctKeys(es) && d.additional.ValidateWith?
    requires AsyncJobs(env, d, es) == SyncJobs(env, d, es)
    ensures DictSync(Sync, custom, d, env, es, path) == DictAsync(Async, custom, d, env, es, path)
  {
    var jobs := SyncJobs(env, d, es);
    var extra := AdditionalJobs(Unvalidated(d, KeysOf(es), KeySet(jobs)));
    assert AllFit(d, es, extra);
    ExtraJobsFresh(env, d, es);
    RunSeqAppend(Sync, d, env, jobs, extra, es, path);
    SeqIsEach(env, d, jobs + extra, es, path);
  }

  /* ---------------------------------------------------------------- the whole tree */

  /** A safe validator gives the same outcome from `_validate` and `_validate_async`, at every depth. */
  lemma RunModes(env: Env, v: Validator, data: Value, path: Path)
    requires Safe(env, v)
    ensures Run(Sync, v, env, data, path) == Run(Async, v, env, data, path)
    decreases v, 3
  {
    match v.kind
    case ListK(_, _, _, _, _) => ListModes(env, v, data, path);
    case DictK(d) => DictModes(env, v.nullable, v.custom, d, data, path);
    case ObjectK(d) => DictModes(env, false, None, d, data, path);
    case TupleK(_, _, _, _) => TupleModes(env, v, data, path);
    case UnionK(_, _, _) => UnionModes(env, v, data, path);
    case _ =>
  }

  lemma ListModes(env: Env, v: Validator, data: Value, path: Path)
    requires v.kind.ListK? && Safe(env, v)
    ensures RunList(Sync, v, env, data, path) == RunList(Async, v, env, data, path)
    decreases v, 2
  {
    if v.kind.item.Some? && IsSequence(data) {
      var w := v.kind.item.value;
      forall data', path'
        ensures Run(Sync, w, env, data', path') == Run(Async, w, env, data', path')
      {
        RunModes(env, w, data', path');
      }
      var xs := Elements(data);
      ListSeqEach(env, v, xs, path, 0);
      assert ListEach(Async, v, env, xs, path)[0..] == ListEach(Async, v, env, xs, path);
    }
  }

  lemma TupleModes(env: Env, v: Validator, data: Value, path: Path)
    requires v.kind.TupleK? && Safe(env, v)
    ensures RunTuple(Sync, v, env, data, path) == RunTuple(Async, v, env, data, path)
    decreases v, 2
  {
    var k := v.kind;
    forall j, data', path' | 0 <= j < |k.items|
      ensures Run(Sync, k.items[j], env, data', path') == Run(Async, k.items[j], env, data', path')
    {
      RunModes(env, k.items[j], data', path');
    }
    if k.rest.Some? {
      forall data', path'
        ensures Run(Sync, k.rest.value, env, data', path') == Run(Async, k.rest.value, env, data', path')
      {
        RunModes(env, k.rest.value, data', path');
      }
    }
    if IsSequence(data) && |Elements(data)| >= k.minLength {
      var xs := Elements(data);
      TupleSeqEach(env, v, xs, path, 0);
      assert TupleEach(Async, v, env, xs, path)[0..] == TupleEach(Async, v, env, xs, path);
    }
  }

  lemma UnionModes(env: Env, v: Validator, data: Value, path: Path)
    requires v.kind.UnionK? && Safe(env, v)
    ensures RunUnion(Sync, v, env, data, path) == RunUnion(Async, v, env, data, path)
    decreases v, 2
  {
    var k := v.kind;
    match Dispatch(k, data)
    case Some(c) =>
      RunModes(env, k.mapping[c].validator, data, path);
    case None =>
      forall j, data', path' | 0 <= j < |k.options|
        ensures Run(Sync, k.options[j], env, data', path') == Run(Async, k.options[j], env, data', path')
      {
        RunModes(env, k.options[j], data', path');
      }
      UnionTryAgree(env, v, data, path);
  }

  /** Without dispatch, trying the options in turn gives what taking the first gathered success gives. */
  lemma UnionTryAgree(env: Env, v: Validator, data: Value, path: Path)
    requires v.kind.UnionK? && Dispatch(v.kind, data).None?
    requires forall j :: 0 <= j < |v.kind.options| ==> Agrees(env, v.kind.options[j])
    ensures RunUnion(Sync, v, env, data, path) == RunUnion(Async, v, env, data, path)
  {
    UnionSyncFrom(env, v, data, path, 0, []);
    UnionAsyncFrom(env, v, data, path);
  }

  /** The async union, read as the scan `UnionFrom` over the gathered outcomes. */
  lemma UnionAsyncFrom(env: Env, v: Validator, data: Value, path: Path)
    requires v.kind.UnionK? && Dispatch(v.kind, data).None?
    ensures RunUnion(Async, v, env, data, path) == UnionFrom(v.custom, UnionEach(Async, v, env, data, path), 0, [], path)
  {
    var rs := UnionEach(Async, v, env, data, path);
    UnionFromFirstOk(v.custom, rs, 0, [], path);
    match FirstOk(rs)
    case Some(i) =>
      assert RunUnion(Async, v, env, data, path) == rs[i];
    case None =>
      assert RunUnion(Async, v, env, data, path) == Fail(v.custom, NoMatch(OptionLines(rs, 0)), path);
      assert [] + OptionLines(rs, 0) == OptionLines(rs, 0);
  }


  lemma DictModes(env: Env, nullable: bool, custom: Option<string>, d: DictSpec, data: Value, path: Path)
    requires DictSafe(env, d)
    ensures RunDict(Sync, nullable, custom, d, env, data, path) == RunDict(Async, nullable, custom, d, env, data, path)
    decreases d, 4
  {
    DictChildrenAgree(env, d);
    DictRunsAgree(env, nullable, custom, d, data, path);
  }

  /** Once the children agree, the two dict loops do too. */
  lemma DictRunsAgree(env: Env, nullable: bool, custom: Option<string>, d: DictSpec, data: Value, path: Path)
    requires DictShape(env, d) && JobsAgree(env, d)
    ensures RunDict(Sync, nullable, custom, d, env, data, path) == RunDict(Async, nullable, custom, d, env, data, path)
  {
    if data.Map? {
      DictSyncAsync(env, custom, d, Normalize(data.entries), path);
    }
  }

  lemma DictChildrenAgree(env: Env, d: DictSpec)
    requires DictSafe(env, d)
    ensures JobsAgree(env, d)
    decreases d, 3
  {
    forall j, data', path' | 0 <= j < |d.schema|
      ensures Run(Sync, d.schema[j].validator, env, data', path') == Run(Async, d.schema[j].validator, env, data', path')
    {
      RunModes(env, d.schema[j].validator, data', path');
    }
    forall p, data', path' | 0 <= p < |d.patterns|
      ensures Run(Sync, d.patterns[p].validator, env, data', path') == Run(Async, d.patterns[p].validator, env, data', path')
    {
      RunModes(env, d.patterns[p].validator, data', path');
    }
    if d.additional.ValidateWith? {
      forall data', path'
        ensures Run(Sync, d.additional.validator, env, data', path') == Run(Async, d.additional.validator, env, data', path')
      {
        RunModes(env, d.additional.validator, data', path');
      }
    }
  }


  /* ---------------------------------------------------------------- entry points */

  /**
   * For a safe validator, `validate` and `validate_async` disagree exactly in
   * the two places where `Null` overrides `validate`: on `None` with a default
   * other than `None` (the sync form ignores the default), and on any other
   * value when the custom message is the empty string (the sync form skips
   * the wrapping that would blank the message).
   */
  lemma ValidateModes(env: Env, v: Validator, data: Value)
    requires Safe(env, v)
    ensures Validate(Sync, v, env, data) != Validate(Async, v, env, data) <==>
      && v.kind.NullK?
      && ((data == Null && HasDefault(v.dflt) && ResolveDefault(v.dflt, env) != Null)
          || (data != Null && v.custom == Some("")))
  {
    if data != Null && !v.kind.NullK? {
      RunModes(env, v, data, []);
    }
  }

  /* ------------------------------------------------- Where the loops differ */

  const UpperString := Fresh(StringK(PlainString.(uppercase := true)))
  const LowerString := Fresh(StringK(PlainString.(lowercase := true)))

  /** A dict whose schema field `k` is also matched by the pattern rule `pat`. */
  function Overlapping(pat: string): (d: DictSpec)
    ensures SchemaKeys(d.schema) == ["k"] && PatternKeys(d.patterns) == [pat]
  {
    DictSpec([Field("k", UpperString)], [], AllowAll, [PatternRule(pat, LowerString)], None, None, {})
  }

  /** The job lists for the one-key input `{"k": x}`. */
  lemma OverlapJobs(env: Env, pat: string, x: Value)
    requires env.patternMatch(pat, "k")
    ensures SyncJobs(env, Overlapping(pat), [Entry("k", x)]) == [Job("k", FromSchema(0)), Job("k", FromPattern(0))]
    ensures AsyncJobs(env, Overlapping(pat), [Entry("k", x)]) == [Job("k", FromSchema(0))]
    ensures Unvalidated(Overlapping(pat), ["k"], {"k"}) == []
  {
    var d := Overlapping(pat);
    var es := [Entry("k", x)];
    assert KeysOf(es) == ["k"];
    assert SchemaJobs(d, es, 1) == [];
    assert SchemaJobs(d, es, 0) == [Job("k", FromSchema(0))];
    assert RuleJobs(env, d, 0, ["k"][1..], {}) == [];
    assert RuleJobs(env, d, 0, ["k"], {}) == [Job("k", FromPattern(0))];
    assert AllRuleJobs(env, d, 1, ["k"]) == [];
    assert AllRuleJobs(env, d, 0, ["k"]) == [Job("k", FromPattern(0))];
    KeySetOne(Job("k", FromSchema(0)));
    assert RuleJobs(env, d, 0, ["k"][1..], {"k"}) == [];
    assert RuleJobs(env, d, 0, ["k"], {"k"}) == [];
    assert FreshRuleJobs(env, d, 1, ["k"], {"k"}) == [];
    assert FreshRuleJobs(env, d, 0, ["k"], {"k"}) == [];
    assert Unvalidated(d, ["k"][1..], {"k"}) == [];
  }

  lemma KeySetOne(job: Job)
    ensures KeySet([job]) == {job.key}
  {
    assert [job][0].key == job.key;
  }

  /** The schema validator upper-cases, the pattern validator lower-cases. */
  lemma OverlapRuns(pat: string, env: Env, m: Mode)
    ensures RunJob(m, Overlapping(pat), env, Job("k", FromSchema(0)), Str("x"), []) == Ok(Str("X"))
    ensures RunJob(m, Overlapping(pat), env, Job("k", FromPattern(0)), Str("X"), []) == Ok(Str("x"))
  {
    assert Upper("x") == "X" && Lower("X") == "x";
    assert Transform(UpperString.kind.str, "x") == "X";
    assert Transform(LowerString.kind.str, "X") == "x";
  }

  /** The sync loops: `k` upper-cased by the schema, then lower-cased by the rule. */
  lemma OverlapSync(pat: string, env: Env)
    ensures AllFit(Overlapping(pat), [Entry("k", Str("x"))], [Job("k", FromSchema(0)), Job("k", FromPattern(0))])
    ensures RunSeq(Sync, Overlapping(pat), env, [Job("k", FromSchema(0)), Job("k", FromPattern(0))], [Entry("k", Str("x"))], []) ==
      Success([Entry("k", Str("x"))])
  {
    var d := Overlapping(pat);
    var sync := [Job("k", FromSchema(0)), Job("k", FromPattern(0))];
    var es1 := [Entry("k", Str("X"))];
    OverlapRuns(pat, env, Sync);
    assert sync[1..] == [Job("k", FromPattern(0))] && sync[1..][1..] == [];
    assert Assign([Entry("k", Str("x"))], "k", Str("X")) == es1;
    assert Assign(es1, "k", Str("x")) == [Entry("k", Str("x"))];
    assert RunSeq(Sync, d, env, [], [Entry("k", Str("x"))], []) == Success([Entry("k", Str("x"))]);
    assert RunSeq(Sync, d, env, sync[1..], es1, []) == Success([Entry("k", Str("x"))]);
  }

  /** The async gathering: only the schema's job runs. */
  lemma OverlapAsync(pat: string, env: Env)
    ensures AllFit(Overlapping(pat), [Entry("k", Str("x"))], [Job("k", FromSchema(0))])
    ensures RunEach(Async, Overlapping(pat), env, [Job("k", FromSchema(0))], [Entry("k", Str("x"))], []) == [Ok(Str("X"))]
  {
    OverlapRuns(pat, env, Async);
  }

  /** The sync dict run on `{"k": "x"}`. */
  lemma OverlapDictSync(env: Env, pat: string)
    requires env.patternMatch(pat, "k")
    ensures DictSync(Sync, None, Overlapping(pat), env, [Entry("k", Str("x"))], []) == Ok(Map([Entry("k", Str("x"))]))
  {
    var both := [Job("k", FromSchema(0)), Job("k", FromPattern(0))];
    OverlapJobs(env, pat, Str("x"));
    OverlapSync(pat, env);
    assert both[0].key == "k" && both[1].key == "k";
    assert KeySet(both) == {"k"};
    assert KeysOf([Entry("k", Str("x"))]) == ["k"];
  }

  /** The async dict run on `{"k": "x"}`. */
  lemma OverlapDictAsync(env: Env, pat: string)
    requires env.patternMatch(pat, "k")
    ensures DictAsync(Async, None, Overlapping(pat), env, [Entry("k", Str("x"))], []) == Ok(Map([Entry("k", Str("X"))]))
  {
    var es := [Entry("k", Str("x"))];
    OverlapJobs(env, pat, Str("x"));
    OverlapAsync(pat, env);
    KeySetOne(Job("k", FromSchema(0)));
    assert KeysOf(es) == ["k"];
    CollectOne(Str("X"));
    assert Store(es, [Job("k", FromSchema(0))], [Str("X")]) == [Entry("k", Str("X"))];
  }

  lemma CollectOne(y: Value)
    ensures Collect([Ok(y)]) == Success([y])
  {
    var c := Collect([Ok(y)]);
    assert c.Success? && |c.value| == 1 && c.value[0] == y;
    assert c.value == [y];
  }

  /**
   * Without `DictShape` the two loops part ways: the sync pattern loop
   * validates `k` a second time, on the value the schema loop stored,
   * while the async loop skips a key the schema already covered.
   */
  lemma OverlapSplitsModes(env: Env, pat: string)
    requires env.patternMatch(pat, "k")
    ensures !DictShape(env, Overlapping(pat))
    ensures DictSync(Sync, None, Overlapping(pat), env, [Entry("k", Str("x"))], []) == Ok(Map([Entry("k", Str("x"))]))
    ensures DictAsync(Async, None, Overlapping(pat), env, [Entry("k", Str("x"))], []) == Ok(Map([Entry("k", Str("X"))]))
  {
    OverlapDictSync(env, pat);
    OverlapDictAsync(env, pat);
    assert SchemaKeys(Overlapping(pat).schema)[0] == "k";
  }
}
