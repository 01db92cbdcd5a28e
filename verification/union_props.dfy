/**
 * sift's `Union`: when the discriminator decides, and otherwise that both
 * modes take the first option that passes, in declared order, or report every
 * option's failure.
 */
module UnionProps {
  import opened Wrappers
  import opened Text
  import opened Values
  import opened Failures
  import opened Config
  import opened Engine
  import opened Collections
  import opened Modes

  /* ---------------------------------------------------------------- the discriminator */

  /**
   * The discriminator decides exactly when it is a non-empty field name, the
   * value is a dict holding that field, and the field's value equals a key of
   * the mapping under Python's `==` (so `True` finds the key `1`); it then
   * picks the first entry with such a key.
   */
  lemma DispatchIff(k: Kind, data: Value)
    requires k.UnionK?
    ensures Dispatch(k, data).Some? <==>
      && k.discriminator.Some? && k.discriminator.value != "" && data.Map?
      && HasKey(data.entries, k.discriminator.value)
      && exists i :: 0 <= i < |k.mapping| && KeyEq(k.mapping[i].key, Lookup(data.entries, k.discriminator.value).value)
    ensures Dispatch(k, data).Some? ==>
      var c := Dispatch(k, data).value;
      && KeyEq(k.mapping[c].key, Lookup(data.entries, k.discriminator.value).value)
      && forall i :: 0 <= i < c ==> !KeyEq(k.mapping[i].key, Lookup(data.entries, k.discriminator.value).value)
  {
  }

  /**
   * A dispatched value is validated by the mapped validator alone, at the
   * union's path: the options are never tried, so replacing them changes
   * nothing, and the union's own custom message is not applied.
   */
  lemma DispatchOnly(m: Mode, v: Validator, others: seq<Validator>, env: Env, data: Value, path: Path)
    requires v.kind.UnionK? && Dispatch(v.kind, data).Some?
    ensures RunUnion(m, v, env, data, path) == Run(m, v.kind.mapping[Dispatch(v.kind, data).value].validator, env, data, path)
    ensures RunUnion(m, v.(kind := v.kind.(options := others)), env, data, path) == RunUnion(m, v, env, data, path)
  {
    assert Dispatch(v.kind.(options := others), data) == Dispatch(v.kind, data);
  }

  /** A union built by `Union(...)` without a mapping never dispatches, whatever its discriminator. */
  lemma UnmappedNeverDispatches(options: seq<Validator>, discriminator: Option<string>, data: Value)
    ensures Dispatch(UnionOf(options, discriminator).kind, data).None?
  {
  }

  /* ---------------------------------------------------------------- the mapping as a dict */

  /** The lookup either takes the first entry or looks further on. */
  lemma CaseGetCons(cases: seq<Case>, v: Value)
    requires |cases| > 0
    ensures CaseGet(cases, v) == if KeyEq(cases[0].key, v) then Some(cases[0].validator) else CaseGet(cases[1..], v)
  {
  }

  /** `d[key] = w`: a value equal to `key` now finds `w`, and any other value what it found before. */
  lemma {:induction false} AssignCaseGet(cases: seq<Case>, c: Case, v: Value)
    ensures CaseGet(AssignCase(cases, c), v) == if KeyEq(c.key, v) then Some(c.validator) else CaseGet(cases, v)
  {
    if |cases| > 0 {
      var r := AssignCase(cases, c);
      CaseGetCons(cases, v);
      CaseGetCons(r, v);
      if SameKey(cases[0].key, c.key) {
        assert r[1..] == cases[1..];
      } else {
        assert r[1..] == AssignCase(cases[1..], c);
        AssignCaseGet(cases[1..], c, v);
      }
    }
  }

  /** The dict a mapping literal builds finds, for each value, the last item whose key equals it. */
  lemma {:induction false} CaseDictGet(items: seq<Case>, v: Value)
    ensures CaseGet(CaseDict(items), v) == LastCase(items, v)
  {
    if |items| > 0 {
      CaseDictGet(items[..|items| - 1], v);
      AssignCaseGet(CaseDict(items[..|items| - 1]), items[|items| - 1], v);
    }
  }

  /** The dict a mapping literal builds holds one entry per key, `True` and `1` being one key. */
  lemma {:induction false} CaseDictOneEntry(items: seq<Case>)
    ensures OneEntryPerKey(CaseKeys(CaseDict(items)))
  {
    if |items| > 0 {
      var prev := CaseDict(items[..|items| - 1]);
      var c := items[|items| - 1];
      CaseDictOneEntry(items[..|items| - 1]);
      if forall i :: 0 <= i < |prev| ==> !SameKey(prev[i].key, c.key) {
        OneEntrySnoc(CaseKeys(prev), c.key);
      }
    }
  }

  /** A key equal to none of a dict's keys can be appended. */
  lemma OneEntrySnoc(keys: seq<DiscKey>, k: DiscKey)
    requires OneEntryPerKey(keys) && forall i :: 0 <= i < |keys| ==> !SameKey(keys[i], k)
    ensures OneEntryPerKey(keys + [k])
  {
    var r := keys + [k];
    forall i, j | 0 <= i < j < |r|
      ensures !SameKey(r[i], r[j])
    {
      if j == |keys| {
        assert r[i] == keys[i] && r[j] == k;
      } else {
        assert r[i] == keys[i] && r[j] == keys[j];
      }
    }
  }

  /** `True in {1: w}` and `1 in {True: w}` both hold, while `"1"` finds neither. */
  lemma BoolFindsIntKey(w: Validator)
    ensures CaseIndex([Case(DInt(1), w)], Bool(true)) == Some(0)
    ensures CaseIndex([Case(DBool(true), w)], Int(1)) == Some(0)
    ensures CaseIndex([Case(DInt(1), w)], Str("1")).None?
  {
  }

  /** `{1: a, True: b}` is the one-entry dict `{1: b}`. */
  lemma BoolKeyMerges(a: Validator, b: Validator)
    ensures CaseDict([Case(DInt(1), a), Case(DBool(true), b)]) == [Case(DInt(1), b)]
  {
    var items := [Case(DInt(1), a), Case(DBool(true), b)];
    assert items[..1] == [Case(DInt(1), a)];
    assert [Case(DInt(1), a)][..0] == [];
    assert CaseDict(items[..1]) == AssignCase([], Case(DInt(1), a)) == [Case(DInt(1), a)];
    assert SameKey(DInt(1), DBool(true));
    assert AssignCase([Case(DInt(1), a)], Case(DBool(true), b)) == [Case(DInt(1), b)];
  }

  /**
   * After `discriminator_mapping(items)`, a dict whose discriminator field
   * holds a value equal to some item's key is validated by the last such
   * item's validator alone, and any other input falls back to the options.
   */
  lemma MappingLastWins(m: Mode, v: Validator, items: seq<Case>, env: Env, data: Value, path: Path)
    requires v.kind.UnionK? && v.kind.discriminator.Some? && v.kind.discriminator.value != ""
    ensures UnionMapping(v, items).Success?
    ensures var w := UnionMapping(v, items).value;
      && OneEntryPerKey(CaseKeys(w.kind.mapping))
      && (Dispatch(w.kind, data).Some? <==>
            data.Map? && HasKey(data.entries, v.kind.discriminator.value)
            && LastCase(items, Lookup(data.entries, v.kind.discriminator.value).value).Some?)
      && (Dispatch(w.kind, data).Some? ==>
            RunUnion(m, w, env, data, path) == Run(m, LastCase(items, Lookup(data.entries, v.kind.discriminator.value).value).value, env, data, path))
  {
    var w := UnionMapping(v, items).value;
    CaseDictOneEntry(items);
    if data.Map? && HasKey(data.entries, v.kind.discriminator.value) {
      CaseDictGet(items, Lookup(data.entries, v.kind.discriminator.value).value);
    }
  }

  /* ---------------------------------------------------------------- trying the options */

  /** The sync loop from `i` is trying the option outcomes in order, in the same mode. */
  lemma {:induction false} UnionSyncIsFrom(m: Mode, v: Validator, env: Env, data: Value, path: Path, i: nat, lines: seq<string>)
    requires v.kind.UnionK?
    ensures UnionSync(m, v, env, data, path, i, lines) == UnionFrom(v.custom, UnionEach(m, v, env, data, path), i, lines, path)
    decreases |v.kind.options| - i
  {
    if i < |v.kind.options| {
      var o := Run(m, v.kind.options[i], env, data, path);
      assert UnionEach(m, v, env, data, path)[i] == o;
      if o.Err? {
        UnionSyncIsFrom(m, v, env, data, path, i + 1, lines + [OptionLine(i, o.error)]);
      }
    }
  }

  /** Without a dispatch, both modes return the first success in declared order, or list every failure. */
  lemma FirstOkWins(m: Mode, v: Validator, env: Env, data: Value, path: Path)
    requires v.kind.UnionK? && Dispatch(v.kind, data).None?
    ensures var rs := UnionEach(m, v, env, data, path);
      FirstOk(rs).Some? ==> RunUnion(m, v, env, data, path) == rs[FirstOk(rs).value]
    ensures var rs := UnionEach(m, v, env, data, path);
      FirstOk(rs).None? ==> RunUnion(m, v, env, data, path) == Fail(v.custom, NoMatch(OptionLines(rs, 0)), path)
  {
    if m == Sync {
      SyncFirstOkWins(v, env, data, path);
    }
  }

  lemma SyncFirstOkWins(v: Validator, env: Env, data: Value, path: Path)
    requires v.kind.UnionK? && Dispatch(v.kind, data).None?
    ensures var rs := UnionEach(Sync, v, env, data, path);
      FirstOk(rs).Some? ==> UnionSync(Sync, v, env, data, path, 0, []) == rs[FirstOk(rs).value]
    ensures var rs := UnionEach(Sync, v, env, data, path);
      FirstOk(rs).None? ==> UnionSync(Sync, v, env, data, path, 0, []) == Fail(v.custom, NoMatch(OptionLines(rs, 0)), path)
  {
    var rs := UnionEach(Sync, v, env, data, path);
    UnionSyncIsFrom(Sync, v, env, data, path, 0, []);
    UnionFromFirstOk(v.custom, rs, 0, [], path);
    if FirstOk(rs).None? {
      assert [] + OptionLines(rs, 0) == OptionLines(rs, 0);
    }
  }

  /** Option `i`'s outcome is that option run on the value at the union's own path. */
  lemma OptionOutcomes(m: Mode, v: Validator, env: Env, data: Value, path: Path)
    requires v.kind.UnionK?
    ensures var rs := UnionEach(m, v, env, data, path);
      && |rs| == |v.kind.options|
      && forall i :: 0 <= i < |rs| ==> rs[i] == Run(m, v.kind.options[i], env, data, path)
  {
  }

  /** Without a dispatch, in either mode, the union passes exactly when some option does. */
  lemma SomeOptionPasses(m: Mode, v: Validator, env: Env, data: Value, path: Path)
    requires v.kind.UnionK? && Dispatch(v.kind, data).None?
    ensures var rs := UnionEach(m, v, env, data, path);
      RunUnion(m, v, env, data, path).Ok? <==> exists i :: 0 <= i < |rs| && rs[i].Ok?
  {
    FirstOkWins(m, v, env, data, path);
    OkIffSomeOk(UnionEach(m, v, env, data, path), RunUnion(m, v, env, data, path), v.custom, path);
  }

  /** An outcome that is the first success, or else the summary failure, is a success exactly when some outcome is. */
  lemma OkIffSomeOk(rs: seq<Outcome>, r: Outcome, custom: Option<string>, path: Path)
    requires FirstOk(rs).Some? ==> r == rs[FirstOk(rs).value]
    requires FirstOk(rs).None? ==> r == Fail(custom, NoMatch(OptionLines(rs, 0)), path)
    ensures r.Ok? <==> exists i :: 0 <= i < |rs| && rs[i].Ok?
  {
  }

  /** A union of no options rejects every undispatched value, with the bare heading. */
  lemma EmptyUnion(m: Mode, v: Validator, env: Env, data: Value, path: Path)
    requires v.kind.UnionK? && v.kind.options == [] && Dispatch(v.kind, data).None?
    ensures RunUnion(m, v, env, data, path) == Fail(v.custom, "Value does not match any of the expected types:\n", path)
  {
    FirstOkWins(m, v, env, data, path);
    assert OptionLines(UnionEach(m, v, env, data, path), 0) == [];
  }
}
