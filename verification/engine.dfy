/**
 * The validation engine: `_validate` and `_validate_async` of every validator
 * kind, dispatched on the validator tree, and the public `validate` and
 * `validate_async` with their `None` handling.
 *
 * Children are pure here, so the async form of a collection is "evaluate every
 * child, then report the failure at the lowest position" — the order in which
 * the source awaits its gathered tasks. The sync form stops at the first
 * failing child.
 */
module Engine {
  import opened Wrappers
  import opened Text
  import opened Values
  import opened Failures
  import opened Config
  import opened Email
  import opened Primitives

  datatype Mode = Sync | Async

  /** A `ValidationError` carrying the validator's custom message or the default one. */
  function Fail(custom: Option<string>, message: string, path: Path): (r: Outcome)
    ensures r.Err? && r.error.path == path && r.error.message == Msg(custom, message)
  {
    Err(ValidationError(Msg(custom, message), path))
  }

  /** Where the first failure among the children's outcomes is, if any. */
  function FirstErr(rs: seq<Outcome>): (r: Option<nat>)
    ensures r.Some? ==> r.value < |rs| && rs[r.value].Err?
    ensures r.Some? ==> forall j :: 0 <= j < r.value ==> rs[j].Ok?
    ensures r.None? ==> forall j :: 0 <= j < |rs| ==> rs[j].Ok?
  {
    if |rs| == 0 then None
    else if rs[0].Err? then Some(0)
    else match FirstErr(rs[1..])
      case None => None
      case Some(k) => Some(k + 1)
  }

  /** Where the first success among the children's outcomes is, if any. */
  function FirstOk(rs: seq<Outcome>): (r: Option<nat>)
    ensures r.Some? ==> r.value < |rs| && rs[r.value].Ok?
    ensures r.Some? ==> forall j :: 0 <= j < r.value ==> rs[j].Err?
    ensures r.None? ==> forall j :: 0 <= j < |rs| ==> rs[j].Err?
  {
    if |rs| == 0 then None
    else if rs[0].Ok? then Some(0)
    else match FirstOk(rs[1..])
      case None => None
      case Some(k) => Some(k + 1)
  }

  function OkValues(rs: seq<Outcome>): (r: seq<Value>)
    requires forall j :: 0 <= j < |rs| ==> rs[j].Ok?
    ensures |r| == |rs| && forall j :: 0 <= j < |rs| ==> r[j] == rs[j].value
  {
    if |rs| == 0 then [] else [rs[0].value] + OkValues(rs[1..])
  }

  /** `asyncio.gather(..., return_exceptions=True)`, then raise the first exception in task order. */
  function Collect(rs: seq<Outcome>): (r: Result<seq<Value>, ValidationError>)
    ensures r.Success? <==> forall j :: 0 <= j < |rs| ==> rs[j].Ok?
    ensures r.Success? ==> |r.value| == |rs| && forall j :: 0 <= j < |rs| ==> r.value[j] == rs[j].value
    ensures r.Failure? ==> exists j :: 0 <= j < |rs| && rs[j] == Err(r.error) && forall i :: 0 <= i < j ==> rs[i].Ok?
  {
    match FirstErr(rs)
    case Some(k) => Failure(rs[k].error)
    case None => Success(OkValues(rs))
  }

  function FromEmail(o: EmailOutcome): (r: Outcome)
    ensures r.Ok? <==> o.Accepted?
    ensures o.Accepted? ==> r.value == Str(o.email)
    ensures o.Rejected? ==> r.error == o.error
  {
    match o
    case Accepted(e) => Ok(Str(e))
    case Rejected(_, e) => Err(e)
  }

  /** `v._validate(data, path)` in the sync mode, `v._validate_async(data, path)` in the async one. */
  function Run(m: Mode, v: Validator, env: Env, data: Value, path: Path): Outcome
    decreases v, 3
  {
    match v.kind
    case StringK(spec) => CheckString(v.nullable, v.custom, spec, env, data, path)
    case NumberK(spec) => CheckNumber(v.nullable, v.custom, spec, data, path)
    case BooleanK(truthy) => CheckBoolean(v.nullable, v.custom, truthy, data, path)
    case AnyK => Ok(data)
    case NullK => CheckNull(v.custom, data, path)
    case EmailK(spec) => FromEmail(ValidateEmail(v.custom, spec, data, path))
    case ListK(_, _, _, _, _) => RunList(m, v, env, data, path)
    case DictK(d) => RunDict(m, v.nullable, v.custom, d, env, data, path)
    case TupleK(_, _, _, _) => RunTuple(m, v, env, data, path)
    case UnionK(_, _, _) => RunUnion(m, v, env, data, path)
    // An `Object` hands the data to its inner `Dict`, whose own flags are the fresh ones.
    case ObjectK(inner) => RunDict(m, false, None, inner, env, data, path)
    case CustomK(id) => env.custom(id, data, path)
  }

  /** An object's run is its inner dict's run with that dict's unset flags. */
  lemma ObjectRunsDict(m: Mode, w: Validator, inner: DictSpec, env: Env, data: Value, path: Path)
    requires w.kind == ObjectK(inner)
    ensures Run(m, w, env, data, path) == RunDict(m, false, None, inner, env, data, path)
  {
  }

  /* ---------------------------------------------------------------- List */

  function RunList(m: Mode, v: Validator, env: Env, data: Value, path: Path): Outcome
    requires v.kind.ListK?
    decreases v, 2
  {
    var k := v.kind;
    if data == Null && v.nullable then Ok(Null)
    else if !IsSequence(data) then Fail(v.custom, "Expected list, got " + TypeName(data), path)
    else
      var xs := Elements(data);
      if k.nonemptyList && |xs| == 0 then
        Fail(v.custom, "List cannot be empty", path)
      else if k.minItems.Some? && |xs| < k.minItems.value then
        Fail(v.custom, "List must have at least " + IntToString(k.minItems.value) + " items", path)
      else if k.maxItems.Some? && |xs| > k.maxItems.value then
        Fail(v.custom, "List must have at most " + IntToString(k.maxItems.value) + " items", path)
      else if k.unique && !Distinct(xs) then
        Fail(v.custom, "List items must be unique", path)
      else if k.item.None? then
        Ok(List(xs))
      else
        var items := if m == Sync then ListSync(m, v, env, xs, path, 0) else Collect(ListEach(m, v, env, xs, path));
        match items
        case Failure(e) => Err(e)
        case Success(ys) => Ok(List(ys))
  }

  /** The sync item loop from position `i`: stop at the first failing item. */
  function ListSync(m: Mode, v: Validator, env: Env, xs: seq<Value>, path: Path, i: nat): Result<seq<Value>, ValidationError>
    requires v.kind.ListK? && v.kind.item.Some? && i <= |xs|
    decreases v, 1, |xs| - i
  {
    if i == |xs| then Success([])
    else match Run(m, v.kind.item.value, env, xs[i], path + [Index(i)])
      case Err(e) => Failure(e)
      case Ok(y) =>
        match ListSync(m, v, env, xs, path, i + 1)
        case Failure(e) => Failure(e)
        case Success(ys) => Success([y] + ys)
  }

  /** The async item tasks: every item validated at its own index. */
  function ListEach(m: Mode, v: Validator, env: Env, xs: seq<Value>, path: Path): seq<Outcome>
    requires v.kind.ListK? && v.kind.item.Some?
    decreases v, 1
  {
    seq(|xs|, i requires 0 <= i < |xs| => Run(m, v.kind.item.value, env, xs[i], path + [Index(i)]))
  }

  /* ---------------------------------------------------------------- Dict */

  /** Which validator a dict child runs: a schema entry, a pattern rule, or the additional-properties one. */
  datatype Source = FromSchema(field: nat) | FromPattern(rule: nat) | FromAdditional

  /** One child validation of a dict: the key whose value it checks and the validator it runs. */
  datatype Job = Job(key: string, src: Source)

  predicate Fits(d: DictSpec, job: Job)
  {
    match job.src
    case FromSchema(j) => j < |d.schema| && d.schema[j].key == job.key
    case FromPattern(p) => p < |d.patterns|
    case FromAdditional => d.additional.ValidateWith?
  }

  /** Every job names a validator of `d` and a key of the entries. */
  predicate AllFit(d: DictSpec, es: seq<Entry>, jobs: seq<Job>)
  {
    forall i :: 0 <= i < |jobs| ==> Fits(d, jobs[i]) && HasKey(es, jobs[i].key)
  }

  function KeySet(jobs: seq<Job>): (r: set<string>)
    ensures forall i :: 0 <= i < |jobs| ==> jobs[i].key in r
    ensures forall k :: k in r ==> exists i :: 0 <= i < |jobs| && jobs[i].key == k
  {
    set i | 0 <= i < |jobs| :: jobs[i].key
  }

  /** The schema loop's children: each schema key present in the input and not excluded, in schema order. */
  function SchemaJobs(d: DictSpec, es: seq<Entry>, j: nat): (r: seq<Job>)
    ensures AllFit(d, es, r)
    ensures forall i :: 0 <= i < |r| ==> r[i].src.FromSchema? && j <= r[i].src.field && r[i].key !in d.excluded
    decreases |d.schema| - j
  {
    if j >= |d.schema| then []
    else
      var k := d.schema[j].key;
      (if HasKey(es, k) && k !in d.excluded then [Job(k, FromSchema(j))] else []) + SchemaJobs(d, es, j + 1)
  }

  /** One pass of pattern rule `p` over `keys`: the keys it matches, skipping excluded ones and those in `seen`. */
  function RuleJobs(env: Env, d: DictSpec, p: nat, keys: seq<string>, seen: set<string>): (r: seq<Job>)
    requires p < |d.patterns|
    ensures forall i :: 0 <= i < |r| ==>
      && r[i].src == FromPattern(p) && r[i].key in keys
      && r[i].key !in seen && r[i].key !in d.excluded
      && env.patternMatch(d.patterns[p].pattern, r[i].key)
  {
    if |keys| == 0 then []
    else
      var k := keys[0];
      (if k !in seen && k !in d.excluded && env.patternMatch(d.patterns[p].pattern, k) then [Job(k, FromPattern(p))] else [])
      + RuleJobs(env, d, p, keys[1..], seen)
  }

  /** The sync pattern loop from rule `p` on: every rule over every key, validated before or not. */
  function AllRuleJobs(env: Env, d: DictSpec, p: nat, keys: seq<string>): (r: seq<Job>)
    ensures forall i :: 0 <= i < |r| ==>
      && r[i].src.FromPattern? && p <= r[i].src.rule < |d.patterns| && r[i].key in keys && r[i].key !in d.excluded
      && env.patternMatch(d.patterns[r[i].src.rule].pattern, r[i].key)
    decreases |d.patterns| - p
  {
    if p >= |d.patterns| then [] else RuleJobs(env, d, p, keys, {}) + AllRuleJobs(env, d, p + 1, keys)
  }

  /** The async pattern loop from rule `p` on: a key validated by the schema or an earlier rule is skipped. */
  function FreshRuleJobs(env: Env, d: DictSpec, p: nat, keys: seq<string>, seen: set<string>): (r: seq<Job>)
    ensures forall i :: 0 <= i < |r| ==>
      && r[i].src.FromPattern? && p <= r[i].src.rule < |d.patterns| && r[i].key in keys
      && r[i].key !in seen && r[i].key !in d.excluded
      && env.patternMatch(d.patterns[r[i].src.rule].pattern, r[i].key)
    decreases |d.patterns| - p
  {
    if p >= |d.patterns| then []
    else
      var now := RuleJobs(env, d, p, keys, seen);
      now + FreshRuleJobs(env, d, p + 1, keys, seen + KeySet(now))
  }

  /** `set(result.keys()) - validated_keys`, in key order, leaving excluded keys alone. */
  function Unvalidated(d: DictSpec, keys: seq<string>, validated: set<string>): (r: seq<string>)
    ensures forall k :: k in r <==> k in keys && k !in validated && k !in d.excluded
  {
    if |keys| == 0 then []
    else
      (if keys[0] !in validated && keys[0] !in d.excluded then [keys[0]] else [])
      + Unvalidated(d, keys[1..], validated)
  }

  function AdditionalJobs(keys: seq<string>): (r: seq<Job>)
    ensures |r| == |keys| && forall i :: 0 <= i < |keys| ==> r[i] == Job(keys[i], FromAdditional)
  {
    if |keys| == 0 then [] else [Job(keys[0], FromAdditional)] + AdditionalJobs(keys[1..])
  }

  /** Run one dict child on `value`, at the path of its key. */
  function RunJob(m: Mode, d: DictSpec, env: Env, job: Job, value: Value, path: Path): Outcome
    requires Fits(d, job)
    decreases d, 1
  {
    var at := path + [Key(job.key)];
    match job.src
    case FromSchema(j) => Run(m, d.schema[j].validator, env, value, at)
    case FromPattern(p) => Run(m, d.patterns[p].validator, env, value, at)
    case FromAdditional => Run(m, d.additional.validator, env, value, at)
  }

  /** The sync loops: the jobs in order, each on its key's current value, storing its result before the next runs. */
  function RunSeq(m: Mode, d: DictSpec, env: Env, jobs: seq<Job>, es: seq<Entry>, path: Path): (r: Result<seq<Entry>, ValidationError>)
    requires AllFit(d, es, jobs)
    ensures r.Success? ==> KeysOf(r.value) == KeysOf(es)
    decreases d, 2, |jobs|
  {
    if |jobs| == 0 then Success(es)
    else
      var job := jobs[0];
      match RunJob(m, d, env, job, Lookup(es, job.key).value, path)
      case Err(e) => Failure(e)
      case Ok(y) => RunSeq(m, d, env, jobs[1..], Assign(es, job.key, y), path)
  }

  /** The async tasks: every job on its key's value in the input. */
  function RunEach(m: Mode, d: DictSpec, env: Env, jobs: seq<Job>, es: seq<Entry>, path: Path): seq<Outcome>
    requires AllFit(d, es, jobs)
    decreases d, 2
  {
    seq(|jobs|, i requires 0 <= i < |jobs| => RunJob(m, d, env, jobs[i], Lookup(es, jobs[i].key).value, path))
  }

  /** `result[key] = value` for each awaited task, in task order. */
  function Store(es: seq<Entry>, jobs: seq<Job>, ys: seq<Value>): (r: seq<Entry>)
    requires |jobs| == |ys|
    requires forall i :: 0 <= i < |jobs| ==> HasKey(es, jobs[i].key)
    ensures KeysOf(r) == KeysOf(es)
    decreases |jobs|
  {
    if |jobs| == 0 then es
    else
      var es' := Assign(es, jobs[0].key, ys[0]);
      assert KeysOf(es') == KeysOf(es);
      forall i | 0 <= i < |jobs| - 1
        ensures HasKey(es', jobs[1..][i].key)
      {
        assert jobs[1..][i] == jobs[i + 1];
        assert HasKey(es, jobs[i + 1].key);
      }
      Store(es', jobs[1..], ys[1..])
  }

  /** The required keys the input lacks, in the order they were declared. */
  function Missing(required: seq<string>, es: seq<Entry>): (r: seq<string>)
    ensures forall k :: k in r <==> k in required && !HasKey(es, k)
  {
    if |required| == 0 then []
    else (if HasKey(es, required[0]) then [] else [required[0]]) + Missing(required[1..], es)
  }

  function RunDict(m: Mode, nullable: bool, custom: Option<string>, d: DictSpec, env: Env, data: Value, path: Path): Outcome
    decreases d, 4
  {
    if data == Null && nullable then Ok(Null)
    else if !data.Map? then Fail(custom, "Expected object/dict, got " + TypeName(data), path)
    else
      var es := Normalize(data.entries);
      if d.minProps.Some? && |es| < d.minProps.value then
        Fail(custom, "Object must have at least " + IntToString(d.minProps.value) + " properties", path)
      else if d.maxProps.Some? && |es| > d.maxProps.value then
        Fail(custom, "Object must have at most " + IntToString(d.maxProps.value) + " properties", path)
      else
        var missing := Missing(d.required, es);
        if |missing| > 0 then
          Fail(custom, "Missing required properties: " + Join(missing, ", "), path)
        else if m == Sync then DictSync(m, custom, d, env, es, path)
        else DictAsync(m, custom, d, env, es, path)
  }

  /** The sync jobs before the additional-properties step: the schema loop, then the pattern loop. */
  function SyncJobs(env: Env, d: DictSpec, es: seq<Entry>): (r: seq<Job>)
    ensures AllFit(d, es, r)
  {
    var r := SchemaJobs(d, es, 0) + AllRuleJobs(env, d, 0, KeysOf(es));
    assert forall i :: 0 <= i < |r| ==> HasKey(es, r[i].key);
    r
  }

  /** The async jobs before the additional-properties step: the schema tasks, then the pattern tasks. */
  function AsyncJobs(env: Env, d: DictSpec, es: seq<Entry>): (r: seq<Job>)
    ensures AllFit(d, es, r)
  {
    var s := SchemaJobs(d, es, 0);
    var r := s + FreshRuleJobs(env, d, 0, KeysOf(es), KeySet(s));
    assert forall i :: 0 <= i < |r| ==> HasKey(es, r[i].key);
    r
  }

  function UnexpectedMessage(rest: seq<string>): string
  {
    "Unexpected additional properties: " + Join(rest, ", ")
  }

  function DictSync(m: Mode, custom: Option<string>, d: DictSpec, env: Env, es: seq<Entry>, path: Path): Outcome
    decreases d, 3
  {
    var jobs := SyncJobs(env, d, es);
    match RunSeq(m, d, env, jobs, es, path)
    case Failure(e) => Err(e)
    case Success(es1) =>
      var rest := Unvalidated(d, KeysOf(es), KeySet(jobs));
      if |rest| > 0 && d.additional.Forbid? then Fail(custom, UnexpectedMessage(rest), path)
      else if d.additional.ValidateWith? then
        match RunSeq(m, d, env, AdditionalJobs(rest), es1, path)
        case Failure(e) => Err(e)
        case Success(es2) => Ok(Map(es2))
      else Ok(Map(es1))
  }

  function DictAsync(m: Mode, custom: Option<string>, d: DictSpec, env: Env, es: seq<Entry>, path: Path): Outcome
    decreases d, 3
  {
    var first := AsyncJobs(env, d, es);
    var rest := Unvalidated(d, KeysOf(es), KeySet(first));
    var jobs := first + (if d.additional.ValidateWith? then AdditionalJobs(rest) else []);
    match Collect(RunEach(m, d, env, jobs, es, path))
    case Failure(e) => Err(e)
    case Success(ys) =>
      if |rest| > 0 && d.additional.Forbid? then Fail(custom, UnexpectedMessage(rest), path)
      else Ok(Map(Store(es, jobs, ys)))
  }

  /* ---------------------------------------------------------------- Tuple */

  function MissingItem(custom: Option<string>, i: int, path: Path): ValidationError
  {
    ValidationError(Msg(custom, "Missing item at position " + IntToString(i)), path)
  }

  function RunTuple(m: Mode, v: Validator, env: Env, data: Value, path: Path): Outcome
    requires v.kind.TupleK?
    decreases v, 2
  {
    var k := v.kind;
    if data == Null && v.nullable then Ok(Null)
    else if !IsSequence(data) then Fail(v.custom, "Expected tuple, got " + TypeName(data), path)
    else
      var xs := Elements(data);
      if |xs| < k.minLength then
        Fail(v.custom, "Tuple must have at least " + IntToString(k.minLength) + " items", path)
      else if k.maxLength.Some? && |xs| > k.maxLength.value then
        Fail(v.custom, "Tuple must have at most " + IntToString(k.maxLength.value) + " items", path)
      else
        var items :=
          if m == Sync then TupleSync(m, v, env, xs, path, 0)
          // The async path raises before awaiting any task.
          else if |xs| < |k.items| then Failure(MissingItem(v.custom, |xs|, path))
          else Collect(TupleEach(m, v, env, xs, path));
        match items
        case Failure(e) => Err(e)
        case Success(ys) => Ok(Tuple(ys))
  }

  /** Position `i` on: the positional validators first, then the rest validator, if any, on the items beyond. */
  function TupleSync(m: Mode, v: Validator, env: Env, xs: seq<Value>, path: Path, i: nat): Result<seq<Value>, ValidationError>
    requires v.kind.TupleK?
    decreases v, 1, |v.kind.items| + |xs| - i
  {
    var k := v.kind;
    if i < |k.items| then
      if i < |xs| then
        match Run(m, k.items[i], env, xs[i], path + [Index(i)])
        case Err(e) => Failure(e)
        case Ok(y) =>
          match TupleSync(m, v, env, xs, path, i + 1)
          case Failure(e) => Failure(e)
          case Success(ys) => Success([y] + ys)
      else Failure(MissingItem(v.custom, i, path))
    else if i < |xs| then
      if k.rest.None? then Success(xs[i..])
      else match Run(m, k.rest.value, env, xs[i], path + [Index(i)])
        case Err(e) => Failure(e)
        case Ok(y) =>
          match TupleSync(m, v, env, xs, path, i + 1)
          case Failure(e) => Failure(e)
          case Success(ys) => Success([y] + ys)
    else Success([])
  }

  /** The validator of position `i` run on item `i`; an item beyond the positions without a rest validator passes. */
  function TupleItem(m: Mode, v: Validator, env: Env, xs: seq<Value>, path: Path, i: nat): Outcome
    requires v.kind.TupleK? && i < |xs|
    decreases v, 1, 0
  {
    if i < |v.kind.items| then Run(m, v.kind.items[i], env, xs[i], path + [Index(i)])
    else if v.kind.rest.Some? then Run(m, v.kind.rest.value, env, xs[i], path + [Index(i)])
    else Ok(xs[i])
  }

  function TupleEach(m: Mode, v: Validator, env: Env, xs: seq<Value>, path: Path): seq<Outcome>
    requires v.kind.TupleK?
    decreases v, 1, 1
  {
    seq(|xs|, i requires 0 <= i < |xs| => TupleItem(m, v, env, xs, path, i))
  }

  /* ---------------------------------------------------------------- Union */

  /** The mapping entry the discriminator selects, when every condition of the dispatch holds. */
  function Dispatch(k: Kind, data: Value): (r: Option<nat>)
    requires k.UnionK?
    ensures r.Some? ==> r.value < |k.mapping|
    ensures r.Some? ==> k.discriminator.Some? && k.discriminator.value != "" && data.Map?
  {
    if k.discriminator.Some? && k.discriminator.value != "" && data.Map?
      && HasKey(data.entries, k.discriminator.value) && |k.mapping| > 0
    then CaseIndex(k.mapping, Lookup(data.entries, k.discriminator.value).value)
    else None
  }

  /** `f"Option {i+1}: {str(e)}"` */
  function OptionLine(i: nat, e: ValidationError): string
  {
    "Option " + IntToString(i + 1) + ": " + Render(e)
  }

  function NoMatch(lines: seq<string>): string
  {
    "Value does not match any of the expected types:\n" + Join(lines, "\n")
  }

  function RunUnion(m: Mode, v: Validator, env: Env, data: Value, path: Path): Outcome
    requires v.kind.UnionK?
    decreases v, 2
  {
    var k := v.kind;
    match Dispatch(k, data)
    case Some(c) => Run(m, k.mapping[c].validator, env, data, path)
    case None =>
      if m == Sync then UnionSync(m, v, env, data, path, 0, [])
      else
        var rs := UnionEach(m, v, env, data, path);
        match FirstOk(rs)
        case Some(i) => rs[i]
        case None => Fail(v.custom, NoMatch(OptionLines(rs, 0)), path)
  }

  /** Try the options from `i` on, in order; `lines` holds the failures of the earlier ones. */
  function UnionSync(m: Mode, v: Validator, env: Env, data: Value, path: Path, i: nat, lines: seq<string>): Outcome
    requires v.kind.UnionK?
    decreases v, 1, |v.kind.options| - i
  {
    if i >= |v.kind.options| then Fail(v.custom, NoMatch(lines), path)
    else match Run(m, v.kind.options[i], env, data, path)
      case Ok(y) => Ok(y)
      case Err(e) => UnionSync(m, v, env, data, path, i + 1, lines + [OptionLine(i, e)])
  }

  function UnionEach(m: Mode, v: Validator, env: Env, data: Value, path: Path): seq<Outcome>
    requires v.kind.UnionK?
    decreases v, 1
  {
    seq(|v.kind.options|, i requires 0 <= i < |v.kind.options| => Run(m, v.kind.options[i], env, data, path))
  }

  /** The option lines for failed outcomes from position `i` on: one per outcome, each numbered by its position. */
  function OptionLines(rs: seq<Outcome>, i: nat): (r: seq<string>)
    requires forall j :: i <= j < |rs| ==> rs[j].Err?
    ensures |r| == if i <= |rs| then |rs| - i else 0
    ensures forall k :: 0 <= k < |r| ==> r[k] == OptionLine(i + k, rs[i + k].error)
    decreases |rs| - i
  {
    if i >= |rs| then [] else [OptionLine(i, rs[i].error)] + OptionLines(rs, i + 1)
  }

  /* ---------------------------------------------------------------- entry points */

  /**
   * `validate(data)` (sync) and `validate_async(data)` (async). `Null` overrides
   * the sync `validate` only: `None` passes before any default is consulted, and
   * any other value fails without the custom-message wrapping.
   */
  function Validate(m: Mode, v: Validator, env: Env, data: Value): Outcome
  {
    if data == Null then
      if m == Sync && v.kind.NullK? then Ok(Null)
      else if HasDefault(v.dflt) then Ok(ResolveDefault(v.dflt, env))
      else if v.nullable || InherentlyNullable(v.kind) then Ok(Null)
      else if v.optional then Ok(Null)
      else Fail(v.custom, "Value is required", [])
    else if m == Sync && v.kind.NullK? then CheckNull(v.custom, data, [])
    else WrapOutcome(v.custom, Run(m, v, env, data, []))
  }
}
