/**
 * sift's `Tuple`: the length bounds its constructor and builders set, which
 * validator checks which position, and what the position loop returns or
 * raises.
 */
module TupleProps {
  import opened Wrappers
  import opened Text
  import opened Values
  import opened Failures
  import opened Config
  import opened Engine
  import opened Collections
  import opened Modes

  /** The length checks pass. */
  predicate LengthOk(k: Kind, n: int)
    requires k.TupleK?
  {
    n >= k.minLength && !(k.maxLength.Some? && n > k.maxLength.value)
  }

  /** Never fewer items than positional validators: what the constructor and the builders keep. */
  predicate Floored(k: Kind)
    requires k.TupleK?
  {
    k.minLength >= |k.items|
  }

  /**
   * `Tuple(items, rest)` admits exactly the lengths from `len(items)` up,
   * and with no rest validator only that length.
   */
  lemma ConstructedLengths(items: seq<Validator>, rest: Option<Validator>, n: int)
    ensures LengthOk(TupleOf(items, rest).kind, n) <==> n >= |items| && (rest.Some? || n == |items|)
  {
  }

  /** The constructor and every builder keep the floor. */
  lemma BuildersKeepFloor(items: seq<Validator>, rest: Option<Validator>, v: Validator, n: int)
    requires v.kind.TupleK? && Floored(v.kind)
    ensures Floored(TupleOf(items, rest).kind)
    ensures Floored(TupleMin(v, n).kind)
    ensures TupleMax(v, n).Success? ==> Floored(TupleMax(v, n).value.kind)
  {
  }

  /** A tuple of a length out of bounds fails at the tuple's own path before any position is checked. */
  lemma LengthFirst(m: Mode, v: Validator, env: Env, data: Value, path: Path)
    requires v.kind.TupleK? && IsSequence(data) && !LengthOk(v.kind, |Elements(data)|)
    ensures RunTuple(m, v, env, data, path).Err?
    ensures RunTuple(m, v, env, data, path).error.path == path
    ensures RunTuple(m, v, env, data, path) == RunTuple(m, v.(kind := v.kind.(items := [], rest := None)), env, data, path)
  {
  }

  /** Position `i` uses validator `i`, a later one the rest validator, and without one is kept as it is. */
  lemma PositionValidator(m: Mode, v: Validator, env: Env, xs: seq<Value>, path: Path, i: nat)
    requires v.kind.TupleK? && i < |xs|
    ensures i < |v.kind.items| ==> TupleItem(m, v, env, xs, path, i) == Run(m, v.kind.items[i], env, xs[i], path + [Index(i)])
    ensures i >= |v.kind.items| && v.kind.rest.Some? ==>
      TupleItem(m, v, env, xs, path, i) == Run(m, v.kind.rest.value, env, xs[i], path + [Index(i)])
    ensures i >= |v.kind.items| && v.kind.rest.None? ==> TupleItem(m, v, env, xs, path, i) == Ok(xs[i])
  {
  }

  /** With every positional item present, the sync loop from `i` is the gather of the position tasks from `i`. */
  lemma {:induction false} TupleSyncIsCollect(m: Mode, v: Validator, env: Env, xs: seq<Value>, path: Path, i: nat)
    requires v.kind.TupleK? && |xs| >= |v.kind.items| && i <= |xs|
    ensures TupleSync(m, v, env, xs, path, i) == Collect(TupleEach(m, v, env, xs, path)[i..])
    decreases |xs| - i
  {
    var rs := TupleEach(m, v, env, xs, path);
    if i < |xs| {
      TupleSyncIsCollect(m, v, env, xs, path, i + 1);
      assert rs[i..][1..] == rs[i + 1..];
      assert rs[i..][0] == TupleItem(m, v, env, xs, path, i);
      CollectCons(rs[i..]);
      if i >= |v.kind.items| && v.kind.rest.None? {
        assert xs[i..] == [xs[i]] + xs[i + 1..];
      }
    }
  }

  /**
   * Within bounds, in either mode, the tuple passes exactly when every
   * position does; the result is a tuple of the input's length holding each
   * position's result, and a failure is that of the lowest failing position.
   */
  lemma TupleItems(m: Mode, v: Validator, env: Env, data: Value, path: Path)
    requires v.kind.TupleK? && Floored(v.kind) && IsSequence(data) && LengthOk(v.kind, |Elements(data)|)
    ensures var xs := Elements(data);
      var rs := TupleEach(m, v, env, xs, path);
      var r := RunTuple(m, v, env, data, path);
      && (r.Ok? <==> forall i :: 0 <= i < |xs| ==> rs[i].Ok?)
      && (r.Ok? ==> r.value.Tuple? && |r.value.elems| == |xs|)
      && (r.Ok? ==> forall i :: 0 <= i < |xs| ==> r.value.elems[i] == rs[i].value)
      && (r.Err? ==> FirstErr(rs).Some? && r.error == rs[FirstErr(rs).value].error)
  {
    var xs := Elements(data);
    TupleSyncIsCollect(m, v, env, xs, path, 0);
    assert TupleEach(m, v, env, xs, path)[0..] == TupleEach(m, v, env, xs, path);
  }

  /**
   * Below the floor (a length bound set on the datatype directly, not through
   * the builders), sync validates the present positions first, while async
   * raises "Missing item" before any task.
   */
  lemma MissingItemAsync(v: Validator, env: Env, data: Value, path: Path)
    requires v.kind.TupleK? && IsSequence(data) && LengthOk(v.kind, |Elements(data)|)
    requires |Elements(data)| < |v.kind.items|
    ensures RunTuple(Async, v, env, data, path) == Err(MissingItem(v.custom, |Elements(data)|, path))
  {
  }
}
