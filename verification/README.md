# sift / voltar validators in Dafny

A model of the validator engine shared by the `sift` and `voltar` packages.
A caller builds an immutable tree of validator configurations with
copy-on-write builder methods. `validate` or `validate_async` then walks an
input value and returns either a normalised value or one path-qualified
error. The model covers:

- **Error and base classes.** sift's `ValidationError` and its rendering.
  The `Validator` base class: builders, `None` handling, `_wrap_error` and
  default resolution, in both the sift and the voltar variants.
- **voltar's richer `ValidationError`.** Its field-keyed error map, path
  formatter and parser, `add_error`, `add_issue` and text rendering.
- **The primitive leaves.** `String` transforms and lengths, the integer
  checks of `Number`, `Boolean` with `truthy`, `Any` and `Null`.
- **The collections.** `List`, `Dict`, `Tuple` and `Union`, each with a sync
  and an async path.
- **The `Object` composer.** Its delegation, and voltar's `extend`,
  `exclude` and `omit`.
- **The syntactic checks of `EmailValidator`.**
- **The two OpenAPI serialisers.** `sift/openapi/schema.py`, with target
  versions 3.0 and 3.1, and the older `sift/openapi/generator.py`.

Layout:

- **Values and results.** `Values` holds a JSON-like input datatype (`Null`,
  `Bool`, `Int`, `Str`, `List`, `Tuple` and an ordered `Map`). A result is
  `Ok(value)` or `Err(ValidationError(message, path))`.
- **Validators.** `Config` holds one `Validator` datatype: the common flags
  (`optional`, `nullable`, default, custom message) and a kind-specific
  payload. Builders are pure functions returning the modified copy.
- **The engine.** `Engine` is `_validate` / `_validate_async` of every kind,
  plus the public `validate` / `validate_async`.
- **Async.** With pure children, the async form of a collection is "evaluate
  every child, then report the failure at the lowest position". That is the
  order in which the source awaits its gathered tasks.
- **Sync and async agreement.** `Modes` proves that the two forms agree
  (`RunModes`) on every validator tree avoiding the two places where they
  differ. `OverlapSplitsModes` exhibits one of those places.
- **Opaque operations.** The `Env` datatype carries, as total functions:
  regular-expression matching, URL/UUID/date parsing, callable defaults and
  custom validator classes.
- **OpenAPI.** `JsonValues` is an insertion-ordered JSON object, as a Python
  dict behaves. `OpenApiSchema` and `OpenApiGenerator` are the two
  serialisers. `OpenApiProps` and `GeneratorProps` state the exact shape of
  every schema they emit and how the two relate.

## Model

| member | source | states |
|---|---|---|
| Failures.Render | sift/validators/base.py:22-26 | the error text is the message, prefixed by the dot-joined path and `": "` exactly when that path text is non-empty |
| Failures.RenderShowsPath | sift/validators/base.py:22-26 | a path with a non-empty first segment shows that segment first, and the text always ends with `": "` and the message |
| Failures.EmptyKeyRendersBare | sift/validators/base.py:25-26 | a path made only of the empty key renders as the bare message, although the path is not empty |
| Failures.RenderedPathSplits | sift/validators/base.py:25 | the dotted path text splits back into the segments' texts when no segment contains a dot |
| Failures.Msg | sift/validators/base.py:82-84 | the custom message wins when it is set and non-empty; otherwise the default message is used |
| Failures.Wrap | sift/validators/base.py:86-94 | without a custom message the error is passed on unchanged; with one, the message is replaced and the path kept |
| Failures.WrapOutcome | sift/validators/base.py:172-177 | a success passes through, and a failure is wrapped as `_wrap_error` does |
| Config.Fresh | sift/validators/base.py:37-41 | a new validator is neither optional nor nullable, and has no default and no custom message |
| Base.Optional | sift/validators/base.py:51-55 | `optional()` sets `optional` and changes nothing else |
| Base.Nullable | sift/validators/base.py:57-61 | `nullable()` sets `nullable` and changes nothing else |
| Base.SiftDefault | sift/validators/base.py:63-68 | sift's `default(v)` sets the default and leaves every other attribute, `optional` included, as it was |
| Base.VoltarDefault | voltar/validators/base.py:388-403 | voltar's `default(v)` sets the default and `optional`, and nothing else |
| Base.WithError | sift/validators/base.py:70-74 | `error(m)` sets the custom message and changes nothing else |
| BaseProps.NoneResolution | sift/validators/base.py:155-170 | `validate(None)` gives the resolved default if one is set (a callable default's product when callable), else `None` when nullable (declared or inherent) or optional, else fails exactly then with "Value is required" at the root |
| BaseProps.NoneDefaultIsNoDefault | sift/validators/base.py:96-103 | a default of `None` behaves exactly as no default at all |
| BaseProps.CustomMessageKeepsPath | sift/validators/base.py:172-177 | for a non-`None` input, `validate` fails exactly when `_validate` does; a failure keeps its path and carries the custom message when set, and is unchanged otherwise |
| BaseProps.EmptyCustomMessage | sift/validators/base.py:82-94 | `error("")` blanks the message of a wrapped failure, while the "Value is required" failure still shows its own text |
| BaseProps.DefaultsAgree | voltar/validators/base.py:388-403 | with a real default, sift's and voltar's `default` validate every input alike |
| BaseProps.NoneDefaultDiffers | voltar/validators/base.py:399-401 | on `default(None)` the variants part: sift still demands a value, voltar's copy accepts `None` |
| BaseProps.RunIgnoresResolution | sift/validators/base.py:105-140 | `_validate` depends only on the kind, `nullable` and the custom message, never on `optional` or the default |
| BaseProps.ChildDefaultUnused | sift/validators/collections.py:164-167 | a default or `optional` on a child changes nothing, because children run through `_validate` |
| BaseProps.AnyIdentity | voltar/validators/primitives.py:549-558 | `Any` returns its input unchanged, `None` included unless a default replaces it |
| BaseProps.NullValidate | voltar/validators/primitives.py:578-597 | `Null.validate` accepts exactly `None`, even when a default is set, and any other value fails with "Expected null/None" |
| Modes.RunModes | sift/validators/base.py:122-140 | for a validator tree with no short tuple and no pattern/schema overlap, `_validate` and `_validate_async` give the same outcome at every depth |
| Modes.ValidateModes | sift/validators/base.py:142-216 | on such a tree, `validate` and `validate_async` differ exactly for `Null`: on `None` with a non-`None` default, and on other values when the custom message is empty |
| Modes.OverlapSplitsModes | sift/validators/collections.py:413-419 | a key that is both a schema key and matched by a rule is validated twice by the sync loops and once by the async ones, so the two results differ |
| Modes.DictSyncAsync | sift/validators/collections.py:406-566 | on a dict where no key is claimed twice and whose children agree, the sync loops and the async gathering give the same outcome |
| Modes.DictModes | sift/validators/collections.py:367-566 | a dict whose children agree and that claims no key twice validates alike in both modes |
| Modes.SyncJobsUnique | sift/validators/collections.py:406-419 | on such a dict, the sync loops validate each key at most once |
| Modes.AsyncJobsAreSync | sift/validators/collections.py:481-503 | on such a dict, the async tasks are the sync loops' jobs, in the same order |
| Modes.OverlapSync | sift/validators/collections.py:406-419 | the sync loops upper-case `k` by its schema validator, then lower-case it by the matching rule |
| Modes.OverlapAsync | sift/validators/collections.py:493-503 | the async tasks skip the already-claimed key, so only the schema's upper-casing runs |
| Modes.FreshIsAll | sift/validators/collections.py:494-503 | on such a dict, the async pattern loop, which skips seen keys, runs the very jobs of the sync one |
| Modes.SeqIsEach | sift/validators/collections.py:516-531 | jobs on distinct keys give the same result run in sequence, each seeing earlier results, or all run on the input and then stored |
| Modes.UnionTryAgree | sift/validators/collections.py:800-850 | without dispatch, trying the options in turn gives what taking the first gathered success gives |
| Modes.ListModes | sift/validators/collections.py:112-250 | a list with an agreeing item validator gives the same outcome in both modes |
| Modes.TupleModes | sift/validators/collections.py:627-736 | a tuple at least as long as its positions, with agreeing validators, gives the same outcome in both modes |
| Modes.UnionModes | sift/validators/collections.py:785-850 | a union whose options and mapped validators agree gives the same outcome in both modes |
| Primitives.Transform | voltar/validators/primitives.py:218-226 | trim, then lowercase, then uppercase, with ASCII case maps: the result is the trimmed input with only letter case changed (same length), upper-case when `uppercase` is set and lower-case when only `lowercase` is |
| Primitives.CheckString | voltar/validators/primitives.py:205-309 | non-strings fail with "Expected string, got T", `None` passes when nullable, and an accepted string is returned transformed and within its length bounds |
| PrimitiveProps.UppercaseWins | voltar/validators/primitives.py:218-226 | with both case transforms the result is the upper-cased trimmed input, under the ASCII case maps |
| PrimitiveProps.LengthChecksIff | voltar/validators/primitives.py:229-245 | with only length settings, a string passes exactly when its transformed form meets them |
| PrimitiveProps.ExactLength | voltar/validators/primitives.py:74-87 | `String().length(n)` accepts exactly the strings of length `n` |
| PrimitiveProps.EmptinessReportedFirst | voltar/validators/primitives.py:229-233 | an empty transformed string under `nonempty` reports emptiness whatever the minimum |
| Primitives.PyMod | voltar/validators/primitives.py:462-467 | Python's `%`: the remainder has the divisor's sign, and is zero exactly when the absolute divisor divides the value |
| Primitives.CheckNumber | voltar/validators/primitives.py:406-470 | non-numbers fail with "Expected number, got T"; an integer passes exactly when it meets the sign, inclusive bound and divisibility settings, and is returned unchanged |
| PrimitiveProps.MultipleOfIff | voltar/validators/primitives.py:462-467 | `multiple_of(m)` accepts an integer exactly when it is `k * m` for some integer `k` |
| PrimitiveProps.NumberBoundsInclusive | voltar/validators/primitives.py:447-460 | `min` and `max` are inclusive: the bound passes and the next integer beyond fails |
| PrimitiveProps.PositiveAndNegativeExclusive | voltar/validators/primitives.py:436-445 | `positive()` with `negative()` rejects every integer |
| Primitives.CheckBoolean | voltar/validators/primitives.py:500-529 | booleans pass unchanged, `None` passes when nullable, every result is a boolean, and without `truthy` any other value fails with "Expected boolean" |
| PrimitiveProps.TruthyStrings | voltar/validators/primitives.py:510-524 | with `truthy`, a string converts exactly when its lower-cased form is one of the eight words, to `True` for `true`, `yes`, `1` and `y` |
| PrimitiveProps.TruthyNumbers | voltar/validators/primitives.py:506-508 | with `truthy`, an integer converts to `bool(n)` |
| PrimitiveProps.TruthyStrOfBool | voltar/validators/primitives.py:510-524 | `str(b)` converts back to `b` |
| PrimitiveProps.StrictBoolean | voltar/validators/primitives.py:500-505 | without `truthy`, exactly the booleans (and `None` when nullable) pass |
| PrimitiveProps.TruthyRejectsContainers | voltar/validators/primitives.py:526-528 | containers never convert, and fail with "Cannot convert T to boolean" |
| Primitives.CheckNull | voltar/validators/primitives.py:591-599 | `Null._validate` accepts exactly `None` and reports any other value as "Expected null/None" |
| Primitives.StringMin | voltar/validators/primitives.py:46-58 | `min(n)` sets the minimum length and nothing else |
| Primitives.StringMax | voltar/validators/primitives.py:60-72 | `max(n)` sets the maximum length and nothing else |
| Primitives.StringLength | voltar/validators/primitives.py:74-87 | `length(n)` sets both bounds to `n` and nothing else |
| Primitives.StringPattern | voltar/validators/primitives.py:89-104 | `pattern(p)` sets the pattern and nothing else |
| Primitives.StringEmail | voltar/validators/primitives.py:106-115 | `email()` sets its flag and nothing else |
| Primitives.StringUrl | voltar/validators/primitives.py:117-126 | `url()` sets its flag and nothing else |
| Primitives.StringUuid | voltar/validators/primitives.py:128-137 | `uuid()` sets its flag and nothing else |
| Primitives.StringDateTime | voltar/validators/primitives.py:139-148 | `datetime()` sets its flag and nothing else |
| Primitives.StringDate | voltar/validators/primitives.py:150-159 | `date()` sets its flag and nothing else |
| Primitives.StringTrim | voltar/validators/primitives.py:161-170 | `trim()` sets its flag and nothing else |
| Primitives.StringLowercase | voltar/validators/primitives.py:172-181 | `lowercase()` sets its flag and nothing else |
| Primitives.StringUppercase | voltar/validators/primitives.py:183-192 | `uppercase()` sets its flag and nothing else |
| Primitives.StringNonempty | voltar/validators/primitives.py:194-203 | `nonempty()` sets its flag and nothing else |
| Primitives.NumberMin | voltar/validators/primitives.py:331-343 | `min(x)` sets the minimum and nothing else |
| Primitives.NumberMax | voltar/validators/primitives.py:345-357 | `max(x)` sets the maximum and nothing else |
| Primitives.NumberInt | voltar/validators/primitives.py:359-368 | `int()` sets its flag and nothing else |
| Primitives.NumberPositive | voltar/validators/primitives.py:370-379 | `positive()` sets its flag and nothing else |
| Primitives.NumberNegative | voltar/validators/primitives.py:381-390 | `negative()` sets its flag and nothing else |
| Primitives.NumberMultipleOf | voltar/validators/primitives.py:392-404 | `multiple_of(m)` sets the divisor and nothing else |
| Primitives.BooleanTruthy | voltar/validators/primitives.py:486-498 | `truthy()` sets its flag and nothing else |
| Collections.ListOf | sift/validators/collections.py:32-45 | a new `List` has the given item validator, no bounds, and neither `unique` nor `nonempty` |
| Collections.ListMin | sift/validators/collections.py:47-59 | `min(n)` sets the minimum and nothing else |
| Collections.ListMax | sift/validators/collections.py:61-73 | `max(n)` sets the maximum and nothing else |
| Collections.ListLength | sift/validators/collections.py:75-88 | `length(n)` sets both bounds to `n` and nothing else |
| Collections.ListUnique | sift/validators/collections.py:90-99 | `unique()` sets its flag and nothing else |
| Collections.ListNonempty | sift/validators/collections.py:101-110 | `nonempty()` sets its flag and nothing else |
| ListProps.ChecksBeforeItems | sift/validators/collections.py:125-161 | a list failing `nonempty`, a bound or `unique` fails whatever its item validator: no item is validated |
| ListProps.BoundsBeforeUnique | sift/validators/collections.py:131-143 | a size failure hides a repeat: the outcome is the same with or without `unique` |
| ListProps.EmptyFirst | sift/validators/collections.py:125-129 | an empty list under `nonempty()` fails with "List cannot be empty" whatever the minimum |
| ListProps.UniqueIff | sift/validators/collections.py:143-161 | within the bounds, the uniqueness check fails exactly when two positions hold equal items, whatever the item validator |
| ListProps.SetSizeDistinct | sift/validators/collections.py:143-149 | the hashable path: the set of the items is smaller than the list exactly when two positions hold equal items |
| ListProps.SeenScan | sift/validators/collections.py:150-161 | the unhashable fallback, comparing each item with the earlier ones, finds a repeat exactly when the list is not distinct |
| ListProps.ExactLength | sift/validators/collections.py:75-88 | `List().length(n)` accepts exactly the lists of `n` items and returns them unchanged |
| ListProps.ListItems | sift/validators/collections.py:163-250 | item `i` runs at `path + [i]`; in either mode the list passes exactly when every item does, giving each item's result at its position, and fails with the lowest failing item's error |
| ListProps.ListSyncIsCollect | sift/validators/collections.py:164-169 | the sync item loop is the async gather of the item tasks |
| Engine.Collect | sift/validators/collections.py:235-248 | gathering succeeds exactly when every outcome is a success, with the values in task order, and otherwise raises the error of the first failing task in task order |
| Engine.FirstErr | sift/validators/collections.py:240-243 | the first failure in task order, with every earlier outcome a success |
| Engine.FirstOk | sift/validators/collections.py:839-845 | the first success in option order, with every earlier outcome a failure |
| Engine.OptionLines | sift/validators/collections.py:800-810 | one line per failed option, numbered by its position, in declared order |
| Collections.DefaultRequired | sift/validators/collections.py:280-286 | the default required keys are exactly the schema keys whose validator is neither optional nor nullable |
| Collections.DictSpecOf | sift/validators/collections.py:265-286 | a new `Dict` allows additional properties, has no rules and no bounds, and requires the default keys |
| Collections.DictOf | sift/validators/collections.py:265-286 | `Dict(schema)` is a new validator over those settings |
| Collections.DictAdditional | sift/validators/collections.py:288-301 | `additional_properties(a)` sets that setting and nothing else |
| Collections.SetRule | sift/validators/collections.py:318-320 | assigning a rule keeps an existing pattern in place, appends a new one, and stores the validator |
| Collections.DictPatternProperty | sift/validators/collections.py:303-321 | `pattern_property(p, w)` assigns the rule and changes nothing else |
| Collections.Dedup | sift/validators/collections.py:335-336 | `set(keys)`: each key once, exactly the given keys |
| Collections.DictRequired | sift/validators/collections.py:323-337 | `required(*keys)` replaces the required keys by exactly the given ones, each once |
| Collections.DictMinProps | sift/validators/collections.py:339-351 | `min_properties(n)` sets that bound and nothing else |
| Collections.DictMaxProps | sift/validators/collections.py:353-365 | `max_properties(n)` sets that bound and nothing else |
| Values.Normalize | sift/validators/collections.py:378 | `dict(data)`: one entry per distinct key, with the same lookups |
| Values.KeysOf | sift/validators/collections.py:422 | `result.keys()`: the keys of the entries, in order |
| Values.Lookup | sift/validators/collections.py:407-409 | `key in result` holds exactly when the lookup finds a value |
| Values.Without | sift/validators/collections.py:394 | removing a key keeps exactly the other keys, with their values |
| Values.Assign | sift/validators/collections.py:409 | `result[key] = value`: an existing key keeps its place and a new one goes last; the key then holds the value and every other key what it held |
| Engine.Missing | sift/validators/collections.py:393-400 | the missing keys are exactly the required keys the input lacks |
| Config.SchemaLookup | sift/validators/collections.py:406-407 | the schema gives a validator for a key exactly when the key is one of its keys |
| Engine.SchemaJobs | sift/validators/collections.py:406-411 | the schema loop visits present, non-excluded schema keys in schema order |
| Engine.RuleJobs | sift/validators/collections.py:413-419 | one rule's pass visits the unseen, non-excluded keys it matches |
| Engine.FreshRuleJobs | sift/validators/collections.py:494-503 | the async pattern loop skips keys that the schema or an earlier rule already took |
| Engine.AllRuleJobs | sift/validators/collections.py:413-419 | the sync pattern loop: every job is a later rule's, on a present, non-excluded key the rule matches, validated before or not |
| Engine.SyncJobs | sift/validators/collections.py:406-419 | every sync job names a present key and a schema entry or a matching rule |
| Engine.AsyncJobs | sift/validators/collections.py:481-503 | every async job names a present key and a schema entry or a matching rule |
| Engine.AdditionalJobs | sift/validators/collections.py:430-433 | one additional-validator job per left-over key, in order |
| Engine.Unvalidated | sift/validators/collections.py:421-423 | the keys left over are exactly those present, not validated and not excluded |
| Engine.RunSeq | sift/validators/collections.py:406-419 | the sync loops keep the input's keys when they succeed |
| Engine.Store | sift/validators/collections.py:516-531 | storing the gathered results keeps the input's keys |
| Engine.Fail | sift/validators/base.py:82-84 | a failure at the given path whose message is the custom one when set and non-empty, else the given one |
| Engine.FromEmail | sift/validators/email_validator.py:130-183 | the email check's verdict as an outcome: the accepted address as a string, or the rejection's error |
| DictChecks.CountsFirst | sift/validators/collections.py:381-391 | a dict outside its property-count bounds fails at its own path whatever its schema, rules and required keys |
| DictChecks.MissingBeforeChildren | sift/validators/collections.py:393-400 | within the bounds, a dict lacking a required key fails at its own path, naming exactly the absent required keys, before any child runs |
| DictChecks.RequiredPresent | sift/validators/collections.py:402-436 | with the counts met and every required key present, the result is the mode's loops |
| DictChecks.SchemaRequired | sift/validators/collections.py:280-286 | `Dict(schema)` reports missing keys exactly when a key whose validator is neither optional nor nullable is absent |
| DictChecks.ForbidAccepted | sift/validators/collections.py:421-428 | with additional properties forbidden, a dict that validates has only schema keys, rule-matched keys and excluded keys |
| DictChecks.ForbidMessage | sift/validators/collections.py:421-428 | once the children pass, a forbidden extra key fails at the dict's path, naming exactly the present keys that are neither excluded, schema keys, nor matched |
| DictProps.ValidatedKeys | sift/validators/collections.py:402-503 | both modes hand children the same keys: the present, non-excluded keys that are schema keys or matched by a rule |
| DictProps.UnvalidatedKeys | sift/validators/collections.py:421-423 | the keys for the additional step are the present keys that are neither excluded, schema keys nor matched |
| DictProps.DictOutput | sift/validators/collections.py:378-436 | a dict that validates returns exactly the keys of its input, each once, and an excluded key, or an unclaimed one under `additional_properties(True)`, keeps its value |
| DictProps.DictSyncOutput | sift/validators/collections.py:378-436 | the sync loops return exactly the input's keys, and every key no step validates keeps its value |
| DictProps.DictAsyncOutput | sift/validators/collections.py:438-566 | the async gathering returns exactly the input's keys, and every key no step validates keeps its value |
| DictProps.PassingKeyUnnamed | sift/validators/collections.py:406-433 | an excluded key, or an unclaimed one under `additional_properties(True)`, is named by no job of either mode |
| DictProps.LoopsDecide | sift/validators/collections.py:402-436 | an input passing the count and required checks gets the result of the mode's loops |
| Collections.TupleOf | sift/validators/collections.py:580-592 | `Tuple(items, rest)` has minimum length `len(items)`, and that maximum too unless there is a rest validator |
| Collections.TupleMin | sift/validators/collections.py:594-606 | `min(n)` never lowers the minimum below the number of positions, and changes nothing else |
| Collections.TupleMax | sift/validators/collections.py:608-625 | `max(n)` fails with the `ValueError` text exactly when there is no rest validator, and otherwise sets the maximum only |
| TupleProps.ConstructedLengths | sift/validators/collections.py:580-592 | a constructed tuple admits exactly the lengths from `len(items)` up, and only that length without a rest validator |
| TupleProps.BuildersKeepFloor | sift/validators/collections.py:580-625 | the constructor and both builders keep the minimum at or above the number of positions |
| TupleProps.LengthFirst | sift/validators/collections.py:640-652 | a length out of bounds fails at the tuple's path before any position is checked |
| TupleProps.PositionValidator | sift/validators/collections.py:654-671 | position `i` uses validator `i`, a later one uses the rest validator, and without one it is kept as it is |
| TupleProps.TupleItems | sift/validators/collections.py:627-736 | within bounds, either mode passes exactly when every position does, gives a tuple of the input's length with each position's result, and fails with the lowest failing position's error |
| TupleProps.TupleSyncIsCollect | sift/validators/collections.py:654-671 | the sync position loop is the gather of the position tasks |
| TupleProps.MissingItemAsync | sift/validators/collections.py:703-714 | below the number of positions, async raises "Missing item" before any task runs |
| Collections.UnionOf | sift/validators/collections.py:752-763 | `Union(options, discriminator)` starts with no mapping |
| Collections.UnionMapping | sift/validators/collections.py:765-783 | `discriminator_mapping` fails with the `ValueError` text exactly when no non-empty discriminator field is set, and otherwise stores the dict the given items build and changes nothing else |
| Config.CaseIndex | sift/validators/collections.py:795-796 | `value in self._discriminator_map`: the first entry whose key equals the value under Python's `==` (`True == 1`, `False == 0`), and none exactly when no key equals it |
| Engine.Dispatch | sift/validators/collections.py:787-797 | a dispatch only happens for a non-empty discriminator on a dict input |
| UnionProps.DispatchIff | sift/validators/collections.py:787-797 | the discriminator decides exactly when it is a non-empty field the dict holds and its value equals a mapping key under Python's `==`, and then picks the first entry with such a key |
| Config.AssignCase | sift/validators/collections.py:782 | a dict assignment on the cases: an equal key keeps its place and spelling, and a new key is appended |
| UnionProps.AssignCaseGet | sift/validators/collections.py:782 | after assigning `w` to a key, a value equal to that key finds `w`, and any other value finds what it found before |
| UnionProps.CaseDictGet | sift/validators/collections.py:782 | the stored mapping finds, for every value, the validator of the last given item whose key equals it |
| UnionProps.CaseDictOneEntry | sift/validators/collections.py:782 | the stored mapping holds one entry per key, `True` and `1` counting as one key |
| UnionProps.BoolKeyMerges | sift/validators/collections.py:782 | `{1: a, True: b}` is stored as the one entry `{1: b}` |
| UnionProps.BoolFindsIntKey | sift/validators/collections.py:795-796 | `True` finds the key `1` and `1` finds the key `True`, while `"1"` finds neither |
| UnionProps.MappingLastWins | sift/validators/collections.py:765-797 | after `discriminator_mapping(items)`, the map has one entry per key, and a dict dispatches exactly when its discriminator value equals some item's key, to the last such item's validator |
| UnionProps.DispatchOnly | sift/validators/collections.py:787-797 | a dispatched value is validated by the mapped validator alone, at the union's path; the options never matter |
| UnionProps.UnmappedNeverDispatches | sift/validators/collections.py:752-763 | a freshly built union never dispatches |
| UnionProps.OptionOutcomes | sift/validators/collections.py:800-805 | option `i` is run on the value at the union's own path |
| UnionProps.FirstOkWins | sift/validators/collections.py:800-850 | without dispatch, both modes return the first success in declared order, or fail listing every option's error |
| UnionProps.SyncFirstOkWins | sift/validators/collections.py:800-810 | the sync loop returns the first option's success, or fails listing every option's error |
| UnionProps.SomeOptionPasses | sift/validators/collections.py:800-850 | without dispatch, the union passes exactly when some option does |
| UnionProps.EmptyUnion | sift/validators/collections.py:806-810 | a union of no options rejects every undispatched value, with the bare heading |
| UnionProps.UnionSyncIsFrom | sift/validators/collections.py:800-810 | the sync loop is trying the option outcomes in order |
| Objects.ObjectOf | voltar/validators/objects.py:47-55 | `Object(schema)` is a new validator around a fresh `Dict` of that schema |
| Objects.FieldNames | voltar/validators/objects.py:212-220 | `field_names` is exactly the schema's keys |
| Objects.ObjectDelegates | sift/validators/objects.py:54-58 | an object runs exactly as a fresh `Dict` with its settings |
| Objects.ObjectRunsInner | voltar/validators/objects.py:205-209 | under a parent an object runs its inner dict, with that dict's own unset flags |
| Objects.FreshDictRuns | sift/validators/objects.py:54-58 | a fresh `Dict` runs its settings with no flags or message of its own |
| Objects.NestedNullableRefusesNone | sift/validators/objects.py:54-55 | `Object(...).nullable()` accepts `None` at the root but refuses it as a child |
| Objects.Conflicts | voltar/validators/objects.py:71-77 | the conflicting keys are exactly those both schemas define |
| Objects.PutField | voltar/validators/objects.py:79-82 | assigning a field keeps an existing key in place and appends a new one |
| Objects.Extend | voltar/validators/objects.py:57-103 | `extend` fails naming the shared keys when there are any; otherwise it gives the updated schema and copies every setting, the required keys included |
| Objects.ExtendAppends | voltar/validators/objects.py:79-82 | without conflicts, `extend` appends the extra fields |
| Objects.ExclusionsSurviveExtend | voltar/validators/objects.py:100-101 | exclusions made before `extend` are still there after it |
| Objects.Exclude | voltar/validators/objects.py:105-124 | `exclude` keeps the fields in the schema, excludes them and drops them from the required keys |
| Objects.ExcludedPassThrough | voltar/validators/objects.py:105-124 | under `exclude`, a dict that validates keeps the excluded keys' values as they came |
| Objects.ExcludedNotRequired | voltar/validators/objects.py:105-124 | an excluded key is never reported missing |
| Objects.Omit | voltar/validators/objects.py:126-174 | `omit` drops those fields (ignoring absent names) and their required keys, copies the settings, and excludes nothing |
| Objects.KeepFieldsKeys | voltar/validators/objects.py:148-156 | the kept fields are exactly those outside the dropped names |
| Objects.ObjectOfWellFormed | voltar/validators/objects.py:47-55 | a fresh object's required keys are schema keys |
| Objects.OperationsKeepWellFormed | voltar/validators/objects.py:57-174 | `extend`, `exclude` and `omit` keep every required key a schema key |
| Objects.OmitUndoesExtend | voltar/validators/objects.py:79-165 | `extend(S)` then `omit(keys(S))` gives back the receiver's schema, required keys and settings; only exclusions are dropped |
| Objects.SchemaRestored | voltar/validators/objects.py:148-156 | dropping the extra keys from the extended schema gives back the original schema, when no key is shared |
| Email.RunEnd | sift/validators/email_validator.py:139-144 | the end of the run of characters of one class starting at `i` |
| Email.ValidateEmail | sift/validators/email_validator.py:130-183 | a non-string fails as `EmailNotValidError`, an accepted address is the stripped input, and every failure is at the given path |
| Email.ValidateEmailPublic | sift/validators/email_validator.py:54-59 | `validate_email` accepts exactly what `_validate` accepts at the root and re-raises failures as `EmailValidationError` |
| EmailProps.AcceptedAddress | sift/validators/email_validator.py:137-183 | an accepted address has the quick shape, its domain after the first `@` is not blacklisted and passes the domain rules, and in strict mode it has the RFC 5322 shape |
| EmailProps.SimpleShapeAt | sift/validators/email_validator.py:146-153 | the `@` of the quick shape is the first `@`, where `split('@', 1)` cuts |
| Text.Split | sift/validators/email_validator.py:199 | `split(sep)` returns at least one part |
| Text.Lower | sift/validators/email_validator.py:156 | `lower()` restricted to ASCII: each character is lower-cased on its own, so the length is kept |
| Text.Upper | voltar/validators/primitives.py:225-226 | `upper()` restricted to ASCII: each character is upper-cased on its own, so the length is kept |
| EmailProps.BlacklistFirst | sift/validators/email_validator.py:155-160 | a blacklisted domain fails with "Email domain 'd' is not allowed" whatever the strict and domain settings |
| EmailProps.MxSettingIrrelevant | sift/validators/email_validator.py:219-224 | the MX setting never changes the verdict |
| EmailProps.PublicKeepsMessage | sift/validators/email_validator.py:54-59 | `validate_email` keeps the failure's message word for word |
| EmailProps.LabelsNonEmpty | sift/validators/email_validator.py:200-204 | `split('.')` gives no empty label exactly when the domain has no leading, trailing or doubled dot |
| EmailProps.DomainRule | sift/validators/email_validator.py:189-207 | outside the bracketed case, a domain passes exactly when it has a dot, no empty label and a last label of two or more characters |
| EmailProps.IpLiteralAccepted | sift/validators/email_validator.py:191-217 | with IP domains allowed, `[a.b.c.d]` is accepted for any four octets |
| EmailProps.QuadIsValidIp | sift/validators/email_validator.py:209-217 | four octets in range joined by dots form a valid IP domain |
| EmailProps.ThreePartIpRejected | sift/validators/email_validator.py:209-217 | a literal of only three parts is refused |
| EmailProps.MixedCaseEntryNeverMatches | sift/validators/email_validator.py:116-128 | as written, a blacklist entry holding an ASCII capital letter refuses nothing: every input gets the verdict it gets without that entry |
| EmailProps.LowerNeverCapital | sift/validators/email_validator.py:156 | a lowered domain never equals a text holding an ASCII capital letter |
| EmailProps.SameRefusals | sift/validators/email_validator.py:155-160 | two blacklists that refuse the same lowered domains give every input the same verdict |
| EmailProps.LoweredEntryMatches | sift/validators/email_validator.py:155-160 | with lowered entries, `Spam.com` refuses every spelling of that domain |
| Email.EmailStrict | sift/validators/email_validator.py:60-72 | `strict(b)` sets that setting and nothing else |
| Email.EmailCheckMx | sift/validators/email_validator.py:74-86 | `check_mx(b)` sets that setting and nothing else |
| Email.EmailAllowIp | sift/validators/email_validator.py:88-100 | `allow_ip_domain(b)` sets that setting and nothing else |
| Email.EmailAllowUnicode | sift/validators/email_validator.py:102-114 | `allow_unicode(b)` sets that setting and nothing else |
| Email.EmailBlacklist | sift/validators/email_validator.py:116-128 | `blacklist(domains)` stores the set as given and changes nothing else |
| Email.EmailBlacklistLowered | sift/validators/email_validator.py:155-160 | a domain is refused exactly when it equals some entry up to ASCII case |
| Text.Strip | sift/validators/email_validator.py:137 | `strip()` cuts exactly the surrounding whitespace |
| Text.SplitJoin | sift/validators/email_validator.py:211 | splitting a joined sequence on the separator gives the parts back when no part holds the separator's character |
| Text.ParseInt | sift/validators/email_validator.py:215 | what `int()` accepts: optional surrounding whitespace, one leading sign, then ASCII digits grouped by underscores, with at least one digit; a negative result comes only from a leading `-` |
| Text.ParseIntToString | sift/validators/email_validator.py:213-215 | `int(str(i)) == i` |
| Text.IndexFrom | sift/validators/email_validator.py:148 | the first occurrence of a substring at or after a position |
| VoltarErrorProps.PathRoundTrip | voltar/validators/base.py:219-278 | reading back a formatted path gives the path, for keys that are non-empty, not `_base` and free of the arrow character, `.`, `[` and `]` |
| VoltarErrorProps.LoneRoundTrip | voltar/validators/base.py:229-245 | a one-segment path is written without the arrow and read back in the legacy form |
| VoltarErrorProps.LongRoundTrip | voltar/validators/base.py:219-278 | a path of two or more safe segments is written with arrows and read back exactly |
| VoltarErrorProps.IndexLegacy | voltar/validators/base.py:236-245 | the legacy reading of `"[i]"` is the index `i` |
| VoltarErrorProps.ArrowKeyBreaksRoundTrip | voltar/validators/base.py:219-278 | a key ending in `" →"` fails to round-trip although it is free of `" → "`, `.`, `[` and `]` |
| VoltarErrorProps.MessageOnly | voltar/validators/base.py:195-214 | a message and a path give one entry keyed by the formatted path and one issue at that path; an empty message gives neither |
| VoltarErrorProps.MessageFieldNamesPath | voltar/validators/base.py:195-214 | the entry's field and the issue's path name the same place when the path can be read back |
| VoltarErrorProps.RenderedLines | voltar/validators/base.py:280-293 | the text is one `field: message` line per entry, with the description when present, in the map's order |
| VoltarErrorProps.RenderedEmpty | voltar/validators/base.py:280-293 | the text is "Validation failed" exactly when there are no entries |
| VoltarErrorProps.AddErrorOverwrites | voltar/validators/base.py:295-328 | `add_error` at an existing field overwrites it in place, the issue list grows by one and the text is unchanged |
| VoltarErrorProps.AddIssueOverwrites | voltar/validators/base.py:330-352 | `add_issue` at an existing field overwrites it in place and the issue list grows by one |
| VoltarErrorProps.AddErrorIsAddIssue | voltar/validators/base.py:295-352 | recording an issue directly is `add_error` at its formatted path with its message and code |
| VoltarErrorProps.EditsKeepWellKeyed | voltar/validators/base.py:295-352 | both edits keep the map's fields distinct |
| VoltarErrorProps.DetailsIssues | voltar/validators/base.py:121-193 | details dicts are stored as given; only the first gets an issue, and only when there was none |
| VoltarErrorProps.DetailsErrors | voltar/validators/base.py:121-193 | details dicts with distinct new fields are appended to the map in order |
| VoltarErrorProps.WrapNone | voltar/validators/base.py:454-458 | `_wrap_error` without a custom message returns the error itself |
| VoltarErrorProps.WrapSingle | voltar/validators/base.py:460-470 | with one entry or none, the wrapped error has the custom message at the same path |
| VoltarErrorProps.WrapMany | voltar/validators/base.py:471-482 | with several entries, every field is kept in order with the custom message, and the one issue is at the first field |
| VoltarErrorProps.WrapAgreesOnLifted | voltar/validators/base.py:454-482 | on an error built from a message and a path, voltar's `_wrap_error` agrees with sift's |
| VoltarErrors.Put | voltar/validators/base.py:318 | `errors[field] = d`: an existing field keeps its place and a new one goes last |
| VoltarErrors.Find | voltar/validators/base.py:318 | a field's entry is found exactly when the field is in the map |
| VoltarErrors.IfTruthy | voltar/validators/base.py:160-163 | an optional key is kept only when it is non-empty |
| VoltarErrors.OrCustom | voltar/validators/base.py:167-168 | the issue code is the given one when non-empty, else `custom` |
| VoltarErrors.Lines | voltar/validators/base.py:285-291 | one rendered line per entry, in the map's order |
| VoltarErrors.Rewritten | voltar/validators/base.py:468-475 | every field of the error, in order, with the custom message and the error's description |
| VoltarErrors.Construct | voltar/validators/base.py:121-217 | the constructor's map and issues, or the `ValueError` raised while parsing a field |
| VoltarErrors.AddError | voltar/validators/base.py:295-328 | the entry is written first, and a parse failure leaves it in place with no new issue |
| VoltarErrors.AddIssue | voltar/validators/base.py:330-352 | the issue is appended and its path's field is written with its message and code |
| JsonValues.Get | sift/openapi/schema.py:40-66 | a lookup succeeds exactly for the object's keys |
| JsonValues.PutGet | sift/openapi/schema.py:40-66 | after `d[k] = v`, `k` holds `v` and every other key what it held |
| JsonValues.PutNames | sift/openapi/schema.py:40-66 | an assigned existing key keeps its place, and a new one comes last |
| JsonValues.PutPut | sift/openapi/schema.py:40-66 | of two assignments to one key the later wins, at the first one's place |
| OpenApiSchema.Format | sift/openapi/schema.py:138-148 | `format` is the first of email, url, uuid, datetime and date that is set |
| OpenApiSchema.Schema | sift/openapi/schema.py:82-130 | every schema is a JSON object, and the walk only adds components: every registered name stays registered, under the same target version |
| OpenApiSchema.AdditionalSchema | sift/openapi/schema.py:270-276 | `additionalProperties` only adds components |
| OpenApiSchema.Mapping | sift/openapi/schema.py:360-381 | building the discriminator mapping only adds components |
| OpenApiSchema.GenerateSchema | sift/openapi/schema.py:40-66 | a non-empty name registers the returned schema under that name, and nothing registered is lost |
| OpenApiSchema.FullDocument | sift/openapi/schema.py:395-431 | the document is an object with `openapi`, `info`, `paths` and `components`, in that order |
| OpenApiProps.NullableForm | sift/openapi/schema.py:161-166 | a nullable schema gets `nullable: true` last under 3.0, or its type turned into `[t, "null"]` in place under 3.1 |
| OpenApiProps.StringSchema | sift/openapi/schema.py:133-168 | a string schema: the type, then `format`, `minLength`, `maxLength` and `pattern` each exactly when set, then the nullable form |
| OpenApiProps.NumberSchema | sift/openapi/schema.py:171-202 | a number schema: `integer` or `number`, the bounds and `multipleOf` exactly when set, an exclusive zero bound exactly for `positive` (`negative`) without a minimum (maximum), then the nullable form |
| OpenApiProps.BooleanSchema | sift/openapi/schema.py:205-216 | a boolean schema is the boolean type in the nullable form |
| OpenApiProps.ArraySchemaShape | sift/openapi/schema.py:219-248 | an array schema always has `items` (`{}` without an item validator), then each bound and `uniqueItems` exactly when set, then the nullable form |
| OpenApiProps.ObjectSchemaShape | sift/openapi/schema.py:251-295 | an object schema: `properties` and `required` only for a non-empty schema, always `additionalProperties`, `patternProperties` exactly when there are rules, the counts when set, then the nullable form |
| OpenApiProps.PropertiesNames | sift/openapi/schema.py:258-266 | every schema key becomes a property, and only those |
| OpenApiProps.TupleSchemaShape | sift/openapi/schema.py:298-343 | under 3.1 `prefixItems` with `items` for the rest validator, under 3.0 an `items` list with `additionalItems`; `minItems` always; `maxItems` when set or implied |
| OpenApiProps.UnionSchemaShape | sift/openapi/schema.py:346-392 | `anyOf` lists the variants in order (with the null schema last when nullable under 3.1), the discriminator exactly when used, then `nullable` under 3.0 |
| OpenApiProps.MappingRef | sift/openapi/schema.py:360-381 | every mapped value's text points at `#/components/schemas/{k}Schema` |
| OpenApiProps.MappingRegisters | sift/openapi/schema.py:360-381 | every mapped value's component is registered |
| OpenApiProps.UnionRegisters | sift/openapi/schema.py:346-392 | a discriminating union registers a component for each mapped value and points each value at it |
| OpenApiProps.GenerateRegisters | sift/openapi/schema.py:40-66 | `generate_schema` returns the walk's schema and registers it under a non-empty name |
| OpenApiProps.DocumentShape | sift/openapi/schema.py:395-431 | the document has the version text, info, empty paths and every registered component, with the root schema as `RootSchema` |
| OpenApiProps.SchemaIsObject | sift/openapi/schema.py:82-130 | the dispatch sends a dict validator to the object builder |
| OpenApiGenerator.RefsByValue | sift/openapi/generator.py:269-274 | every discriminator value's text maps to the reference `#/components/schemas/{k}`, and no other name is added or changed |
| OpenApiGenerator.GenerateOpenApiComponents | sift/openapi/generator.py:293-306 | the components are exactly `{name: schema}` for a non-empty name |
| OpenApiGenerator.Describe | sift/openapi/generator.py:59-106 | every schema the generator emits is a JSON object |
| GeneratorProps.DescribeNoNullForm | sift/openapi/generator.py:59-277 | no schema the generator produces carries `nullable` or a type array, at any depth |
| GeneratorProps.Agrees | sift/openapi/generator.py:59-277 | on a tree without nullable validators, empty-item arrays or discriminated unions, the generator and the 3.0 serialiser emit the same schema and register nothing |

## Left out

- asyncio scheduling, task creation and real concurrency: the async paths
  are modelled as "evaluate every child, then take the lowest failing
  position".
- Exceptions other than `ValidationError` in the async paths (the
  "Property validation failed" re-wrapping): the children here cannot raise
  them.
- Regular expressions, and the URL, UUID and ISO date parsers: these are
  total functions in `Env`. The email module's two regular expressions
  become explicit character-class scans, not full regex semantics.
- Floating-point numbers: `Number` is modelled on integers only, so
  `is_integer`, float coercion and the `1e-10` tolerance are not modelled.
- `multiple_of(0)`: Python raises `ZeroDivisionError`; the model's divisor
  type excludes zero.
- Python equality quirks in `unique` (`True == 1`, hash-based versus
  pairwise comparison): items compare structurally.
- The iteration order of Python sets. The model fixes one order:
  - missing required keys come in declaration order;
  - unexpected keys come in input order;
  - `required(*keys)` is deduplicated in argument order;
  - the additional validator runs over the left-over keys in input order.
    The source loops over the set `unvalidated_keys`
    (sift/validators/collections.py:421-433), and in sync mode that order
    decides which key's error is raised first.
- `Validator.apply`, `ValidationIssue.to_dict` and the error-code table:
  runtime method rebinding and cosmetic output.
- The sift `Object`'s exposed configuration properties and `fields`. The
  model's object holds its `Dict` settings directly, so reading them is the
  identity. Without mutation, the copy that `fields` returns is the schema
  itself.
- voltar's `DictValidator.exclude` is not part of this model. `exclude` is
  modelled from what the object tests assert: excluded keys are skipped by
  every step and are no longer required.
- voltar/openapi/schema.py and the pydantic converters: they probe
  arbitrary attributes or wrap a third-party library.
- Custom validator classes: their async form is taken to agree with their
  sync form.
- Union discriminator keys are strings, integers, booleans or `None`, and
  are compared with Python's `==` (`True == 1`). The 3.0/3.1 serialiser's
  mapping (sift/openapi/schema.py:379) keys them by Python's `str()`
  (`KeyText`), as the source does.
- Engine.Dispatch: a list or dict discriminator value (or a tuple holding
  one) makes Python's `in` raise `TypeError`, which escapes `validate`. The
  model has no outcome for exceptions other than `ValidationError`, so it
  finds no key and tries the options instead.
- Dict keys are strings only (`Values.Entry`). The source also accepts
  other keys: pattern rules skip them (sift/validators/collections.py:416
  and 497), and the unexpected-properties message prints them with
  `str()`.
- voltar's `expected` and `received` fields of error entries and issues
  are not modelled. They are copied through and never affect a decision or
  the rendered text.
- Text.Lower: changes the case of `A`-`Z` only. Python's `lower()` maps
  every cased letter and can change the length (`"İ".lower()` has two
  characters).
- Text.Upper: changes the case of `a`-`z` only. Python's `upper()` maps
  every cased letter and can change the length (`"ß".upper()` is `"SS"`).
- Primitives.Transform: uses those ASCII case maps, so its length-keeping
  contract holds of the model and not of Python.
  `String().uppercase().max(6)` accepts `"straße"` here, while Python
  upper-cases it to `"STRASSE"` and rejects it.
- PrimitiveProps.UppercaseWins: holds for the ASCII maps; with Python's
  maps it fails for the Kelvin sign U+212A, whose `lower()` is `"k"`.
- Email.ValidateEmail: the blacklist lookup lowers ASCII letters only, so
  `a@EXÄMPLE.DE` is not refused by the entry `exämple.de` as it is in
  Python.
- Email.EmailBlacklistLowered: compares domains up to ASCII case only.
- Text.ParseInt: accepts the ASCII digits `0`-`9` only. Python's `int()`
  accepts every Unicode decimal digit. So with `allow_ip_domain(True)` the
  model rejects `a@[١.٢.٣.٤]` with "Invalid email domain", while Python
  accepts it. And voltar's `_parse_field_to_path("a → [٣]")` gives
  `["a", 3]` in Python, while the model's `ArrowPart("[٣]")` finds no index,
  so `Construct` and `AddError` take the `ValueError` path.
- OpenApiGenerator.RefsByValue: the model's JSON objects have string keys,
  so the generator's mapping (sift/openapi/generator.py:269-274) is keyed by
  each value's `str()`. Python keeps the raw keys. Two values with the same
  text, such as `1` and `"1"`, share one entry in the model and keep two in
  Python. A key `True` is `"True"` in the model, while `json.dumps` writes
  it as `"true"`.
- A schema (`Dict(schema)`, `Object(schema)`) is a sequence of fields and may
  name a key twice, which no Python dict can. Such schemas are outside the
  model. For them the model's schema loop visits the key twice, while
  Python's dict holds it once, with the last validator given.
- Primitives.CheckString: `sift.validators.primitives` is not part of this
  model. sift's `String`, `Number`, `Boolean`, `Null` and `Any` are taken to
  be voltar's primitives raising sift's `ValidationError`. The email branch
  uses sift's `EmailValidator` and sift's `str()` of its error. voltar
  itself calls its own email module and renders its own error (a
  `_base: message` line).
- OpenApiGenerator.DescribeUnion: the generator's mapping points at
  components named after the bare value, which it never registers. The
  model emits them as the source does, without a claim that they resolve.
- VoltarErrorProps.PathRoundTrip: requires keys free of the arrow character
  itself, not just of `" → "`. `ArrowKeyBreaksRoundTrip` shows that a key
  ending in `" →"` breaks the round trip.
- Modes.RunModes: proved for trees whose dicts claim no key twice and whose
  tuples are at least as long as their positions. `OverlapSplitsModes` and
  `MissingItemAsync` show that the modes differ otherwise.
- GeneratorProps.Agrees: stated for trees without nullable flags,
  item-less arrays or discriminated unions, where the two serialisers are
  documented to differ.
- TupleProps.TupleItems: requires the minimum length to be at least the
  number of positions. Every builder keeps this (`BuildersKeepFloor`);
  `MissingItemAsync` covers the other case.

## Findings

| source | as written | input that shows it | evidently intended | confidence | as-written member | corrected member |
|---|---|---|---|---|---|---|
| sift/validators/email_validator.py:116-128 | `blacklist` stores the domains as given, while `_validate` looks up `domain.lower()` | `EmailValidator().blacklist({"Spam.com"})` never refuses `user@Spam.com`, or any other address | entries compared without regard to case, i.e. stored lower-cased | medium, not executed | EmailProps.MixedCaseEntryNeverMatches | Email.EmailBlacklistLowered |
