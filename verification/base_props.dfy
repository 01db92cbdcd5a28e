/**
 * The shared `Validator` contract: how `validate` resolves `None`, what a
 * default of `None` means, where sift's and voltar's `default` part ways, how
 * a custom message replaces an error, and that `_validate` never looks at
 * `optional` or the default — which is why neither has any effect below the
 * root.
 */
module BaseProps {
  import opened Wrappers
  import opened Values
  import opened Failures
  import opened Config
  import opened Primitives
  import opened Engine
  import opened Base

  /* ------------------------------------------------------------ None at the root */

  /**
   * `validate(None)` tries the default first, then nullability (declared or
   * inherent), then `optional`, and only then fails with "Value is required"
   * at the root. A callable default is called on every such validation.
   */
  lemma NoneResolution(m: Mode, v: Validator, env: Env)
    requires !(m == Sync && v.kind.NullK?)
    ensures var r := Validate(m, v, env, Null);
      && (HasDefault(v.dflt) ==> r == Ok(ResolveDefault(v.dflt, env)))
      && (v.dflt.Producer? ==> r == Ok(env.produce(v.dflt.id)))
      && (!HasDefault(v.dflt) && (v.nullable || InherentlyNullable(v.kind) || v.optional) ==> r == Ok(Null))
      && (r.Err? <==> !HasDefault(v.dflt) && !v.nullable && !InherentlyNullable(v.kind) && !v.optional)
      && (r.Err? ==> r.error == ValidationError(Msg(v.custom, "Value is required"), []))
  {
  }

  /** voltar's `Null` overrides `validate`: `None` passes even when a default is set, anything else fails. */
  lemma NullValidate(v: Validator, env: Env, data: Value)
    requires v.kind.NullK?
    ensures Validate(Sync, v, env, data).Ok? <==> data == Null
    ensures data == Null ==> Validate(Sync, v, env, data) == Ok(Null)
    ensures data != Null ==>
      Validate(Sync, v, env, data).error == ValidationError(Msg(v.custom, "Expected null/None, got " + TypeName(data)), [])
  {
  }

  /** `Any` returns its input; `None` included, unless a default replaces it. */
  lemma AnyIdentity(m: Mode, v: Validator, env: Env, data: Value)
    requires v.kind.AnyK? && (data != Null || !HasDefault(v.dflt))
    ensures Validate(m, v, env, data) == Ok(data)
  {
  }

  /* ------------------------------------------------------------ what _validate reads */

  /**
   * `_validate` of any validator depends on its kind, `nullable` and custom
   * message only: two validators that differ in `optional` or the default
   * validate every value at every path alike.
   */
  lemma RunIgnoresResolution(m: Mode, v: Validator, w: Validator, env: Env, data: Value, path: Path)
    requires v.kind == w.kind && v.nullable == w.nullable && v.custom == w.custom
    ensures Run(m, v, env, data, path) == Run(m, w, env, data, path)
  {
    if v.kind.ListK? || v.kind.TupleK? || v.kind.UnionK? {
      CollectionSame(m, v, w, env, data, path);
    } else {
      LeafSame(m, v, w, env, data, path);
    }
  }

  lemma CollectionSame(m: Mode, v: Validator, w: Validator, env: Env, data: Value, path: Path)
    requires v.kind == w.kind && v.nullable == w.nullable && v.custom == w.custom
    requires v.kind.ListK? || v.kind.TupleK? || v.kind.UnionK?
    ensures Run(m, v, env, data, path) == Run(m, w, env, data, path)
  {
    match v.kind
    case ListK(_, _, _, _, _) => ListSame(m, v, w, env, data, path);
    case TupleK(_, _, _, _) => TupleSame(m, v, w, env, data, path);
    case UnionK(_, _, _) => UnionSame(m, v, w, env, data, path);
  }

  /** The leaves read nothing but their own settings, `nullable` and the custom message. */
  lemma LeafSame(m: Mode, v: Validator, w: Validator, env: Env, data: Value, path: Path)
    requires v.kind == w.kind && v.nullable == w.nullable && v.custom == w.custom
    requires !v.kind.ListK? && !v.kind.TupleK? && !v.kind.UnionK?
    ensures Run(m, v, env, data, path) == Run(m, w, env, data, path)
  {
  }

  lemma ListSame(m: Mode, v: Validator, w: Validator, env: Env, data: Value, path: Path)
    requires v.kind == w.kind && v.nullable == w.nullable && v.custom == w.custom && v.kind.ListK?
    ensures RunList(m, v, env, data, path) == RunList(m, w, env, data, path)
  {
    if v.kind.item.Some? && IsSequence(data) {
      var xs := Elements(data);
      ListSyncSame(m, v, w, env, xs, path, 0);
      assert ListEach(m, v, env, xs, path) == ListEach(m, w, env, xs, path);
    }
  }

  lemma TupleSame(m: Mode, v: Validator, w: Validator, env: Env, data: Value, path: Path)
    requires v.kind == w.kind && v.nullable == w.nullable && v.custom == w.custom && v.kind.TupleK?
    ensures RunTuple(m, v, env, data, path) == RunTuple(m, w, env, data, path)
  {
    if IsSequence(data) {
      var xs := Elements(data);
      TupleSyncSame(m, v, w, env, xs, path, 0);
      TupleEachSame(m, v, w, env, xs, path);
    }
  }

  lemma UnionSame(m: Mode, v: Validator, w: Validator, env: Env, data: Value, path: Path)
    requires v.kind == w.kind && v.custom == w.custom && v.kind.UnionK?
    ensures RunUnion(m, v, env, data, path) == RunUnion(m, w, env, data, path)
  {
    if Dispatch(v.kind, data).None? {
      if m == Sync {
        UnionSyncSame(m, v, w, env, data, path, 0, []);
      } else {
        assert UnionEach(m, v, env, data, path) == UnionEach(m, w, env, data, path);
      }
    }
  }

  lemma {:induction false} ListSyncSame(m: Mode, v: Validator, w: Validator, env: Env, xs: seq<Value>, path: Path, i: nat)
    requires v.kind == w.kind && v.kind.ListK? && v.kind.item.Some? && i <= |xs|
    ensures ListSync(m, v, env, xs, path, i) == ListSync(m, w, env, xs, path, i)
    decreases |xs| - i
  {
    if i < |xs| {
      ListSyncSame(m, v, w, env, xs, path, i + 1);
    }
  }

  lemma {:induction false} TupleSyncSame(m: Mode, v: Validator, w: Validator, env: Env, xs: seq<Value>, path: Path, i: nat)
    requires v.kind == w.kind && v.custom == w.custom && v.kind.TupleK?
    ensures TupleSync(m, v, env, xs, path, i) == TupleSync(m, w, env, xs, path, i)
    decreases |v.kind.items| + |xs| - i
  {
    if i < |v.kind.items| {
      if i < |xs| {
        TupleSyncSame(m, v, w, env, xs, path, i + 1);
      }
    } else if i < |xs| && v.kind.rest.Some? {
      TupleSyncSame(m, v, w, env, xs, path, i + 1);
    }
  }

  lemma TupleEachSame(m: Mode, v: Validator, w: Validator, env: Env, xs: seq<Value>, path: Path)
    requires v.kind == w.kind && v.kind.TupleK?
    ensures TupleEach(m, v, env, xs, path) == TupleEach(m, w, env, xs, path)
  {
    forall i | 0 <= i < |xs|
      ensures TupleItem(m, v, env, xs, path, i) == TupleItem(m, w, env, xs, path, i)
    {
    }
  }

  lemma {:induction false} UnionSyncSame(m: Mode, v: Validator, w: Validator, env: Env, data: Value, path: Path, i: nat, lines: seq<string>)
    requires v.kind == w.kind && v.custom == w.custom && v.kind.UnionK?
    ensures UnionSync(m, v, env, data, path, i, lines) == UnionSync(m, w, env, data, path, i, lines)
    decreases |v.kind.options| - i
  {
    if i < |v.kind.options| {
      match Run(m, v.kind.options[i], env, data, path)
      case Ok(_) =>
      case Err(e) => UnionSyncSame(m, v, w, env, data, path, i + 1, lines + [OptionLine(i, e)]);
    }
  }

  /**
   * So a default or `optional` on a child changes nothing: a collection runs
   * its children through `_validate`, which ignores both.
   */
  lemma ChildDefaultUnused(m: Mode, w: Validator, d: Default, env: Env, data: Value, path: Path)
    ensures Run(m, VoltarDefault(w, d), env, data, path) == Run(m, w, env, data, path)
    ensures Run(m, Optional(w), env, data, path) == Run(m, w, env, data, path)
  {
    RunIgnoresResolution(m, VoltarDefault(w, d), w, env, data, path);
    RunIgnoresResolution(m, Optional(w), w, env, data, path);
  }

  /* ------------------------------------------------------------ defaults */

  /** `self._default is not None`: a default of `None` is no default at all. */
  lemma NoneDefaultIsNoDefault(m: Mode, v: Validator, env: Env, data: Value)
    ensures Validate(m, SiftDefault(v, Given(Null)), env, data) == Validate(m, v.(dflt := NoDefault), env, data)
  {
    if data != Null {
      RunIgnoresResolution(m, SiftDefault(v, Given(Null)), v.(dflt := NoDefault), env, data, []);
    }
  }

  /**
   * With a real default, sift's `default` (which leaves `optional` alone) and
   * voltar's (which sets it) validate every input alike.
   */
  lemma DefaultsAgree(m: Mode, v: Validator, d: Default, env: Env, data: Value)
    requires HasDefault(d)
    ensures Validate(m, SiftDefault(v, d), env, data) == Validate(m, VoltarDefault(v, d), env, data)
  {
    if data != Null {
      RunIgnoresResolution(m, SiftDefault(v, d), VoltarDefault(v, d), env, data, []);
    }
  }

  /**
   * They part ways on `default(None)`: sift still demands a value, voltar's
   * copy is optional and lets `None` through.
   */
  lemma NoneDefaultDiffers(m: Mode, v: Validator, env: Env)
    requires !v.nullable && !v.optional && !InherentlyNullable(v.kind) && !v.kind.NullK?
    ensures Validate(m, SiftDefault(v, Given(Null)), env, Null) ==
      Err(ValidationError(Msg(v.custom, "Value is required"), []))
    ensures Validate(m, VoltarDefault(v, Given(Null)), env, Null) == Ok(Null)
  {
  }

  /* ------------------------------------------------------------ custom messages */

  /**
   * For a value other than `None`, `validate` returns what `_validate` returns;
   * a failure keeps its path and, when a custom message is set, carries that
   * message instead of its own.
   */
  lemma CustomMessageKeepsPath(m: Mode, v: Validator, env: Env, data: Value)
    requires data != Null && !(m == Sync && v.kind.NullK?)
    ensures var inner := Run(m, v, env, data, []);
      var r := Validate(m, v, env, data);
      && (r.Ok? <==> inner.Ok?)
      && (inner.Ok? ==> r == inner)
      && (inner.Err? ==> r.error.path == inner.error.path)
      && (inner.Err? && v.custom.Some? ==> r.error.message == v.custom.value)
      && (v.custom.None? ==> r == inner)
  {
  }

  /**
   * `error("")` blanks the message of a failure, while a `None` without a
   * default still reports "Value is required": `_get_error_message` treats the
   * empty string as unset, `_wrap_error` does not.
   */
  lemma EmptyCustomMessage(m: Mode, v: Validator, env: Env, data: Value)
    requires !(m == Sync && v.kind.NullK?)
    requires data != Null && Run(m, WithError(v, ""), env, data, []).Err?
    ensures Validate(m, WithError(v, ""), env, data).error.message == ""
    ensures !HasDefault(v.dflt) && !v.nullable && !InherentlyNullable(v.kind) && !v.optional ==>
      Validate(m, WithError(v, ""), env, Null).error.message == "Value is required"
  {
  }
}
