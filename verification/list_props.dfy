/**
 * sift's `List`: the order of its checks, the two ways it decides
 * uniqueness, and what the item loop returns or raises.
 */
module ListProps {
  import opened Wrappers
  import opened Text
  import opened Values
  import opened Failures
  import opened Config
  import opened Engine
  import opened Collections
  import opened Modes

  /* ---------------------------------------------------------------- uniqueness */

  /** `set(result)` */
  function ItemSet<T>(xs: seq<T>): set<T>
  {
    set x | x in xs
  }

  /**
   * The hashable path: `len(set(result)) != len(result)` exactly when two
   * positions hold equal items.
   */
  lemma {:induction false} SetSizeDistinct<T>(xs: seq<T>)
    ensures |ItemSet(xs)| <= |xs|
    ensures |ItemSet(xs)| == |xs| <==> Distinct(xs)
  {
    if |xs| > 0 {
      var rest := xs[1..];
      SetSizeDistinct(rest);
      ItemSetCons(xs);
      if xs[0] in rest {
        assert ItemSet(xs) == ItemSet(rest);
        var j :| 0 <= j < |rest| && rest[j] == xs[0];
        assert xs[0] == xs[j + 1];
      } else {
        assert xs[0] !in ItemSet(rest);
        assert |ItemSet(xs)| == |ItemSet(rest)| + 1;
        DistinctCons(xs);
      }
    }
  }

  lemma ItemSetCons<T>(xs: seq<T>)
    requires |xs| > 0
    ensures ItemSet(xs) == ItemSet(xs[1..]) + {xs[0]}
  {
    assert xs == [xs[0]] + xs[1..];
  }

  /** Without the head in the tail, distinctness is the tail's. */
  lemma DistinctCons<T>(xs: seq<T>)
    requires |xs| > 0 && xs[0] !in xs[1..]
    ensures Distinct(xs) <==> Distinct(xs[1..])
  {
    if Distinct(xs[1..]) {
      forall i, j | 0 <= i < j < |xs|
        ensures xs[i] != xs[j]
      {
        if i == 0 {
          assert xs[j] == xs[1..][j - 1];
        } else {
          assert xs[i] == xs[1..][i - 1] && xs[j] == xs[1..][j - 1];
        }
      }
    }
  }

  /**
   * The unhashable fallback: compare each item with every earlier one, in
   * order, and stop at the first repeat.
   */
  method SeenScan(xs: seq<Value>) returns (repeated: bool)
    ensures repeated <==> !Distinct(xs)
  {
    var seen: seq<Value> := [];
    var i := 0;
    while i < |xs|
      invariant 0 <= i <= |xs|
      invariant seen == xs[..i]
      invariant Distinct(seen)
    {
      var item := xs[i];
      var k := 0;
      while k < |seen|
        invariant 0 <= k <= |seen|
        invariant forall j :: 0 <= j < k ==> seen[j] != item
      {
        if item == seen[k] {
          assert xs[k] == xs[i];
          return true;
        }
        k := k + 1;
      }
      seen := seen + [item];
      i := i + 1;
    }
    assert xs[..i] == xs;
    return false;
  }

  /* ---------------------------------------------------------------- the checks before the items */

  /** The four checks before the items: nonempty, min, max, unique. */
  predicate Admitted(k: Kind, xs: seq<Value>)
    requires k.ListK?
  {
    && !(k.nonemptyList && |xs| == 0)
    && !(k.minItems.Some? && |xs| < k.minItems.value)
    && !(k.maxItems.Some? && |xs| > k.maxItems.value)
    && !(k.unique && !Distinct(xs))
  }

  /**
   * A list that fails a check before the items fails without any item being
   * validated: the item validator does not matter.
   */
  lemma ChecksBeforeItems(m: Mode, v: Validator, env: Env, data: Value, path: Path)
    requires v.kind.ListK? && IsSequence(data) && !Admitted(v.kind, Elements(data))
    ensures RunList(m, v, env, data, path).Err?
    ensures RunList(m, v, env, data, path) == RunList(m, v.(kind := v.kind.(item := None)), env, data, path)
  {
  }

  /** Uniqueness is checked after the size bounds: a size failure hides a repeat. */
  lemma BoundsBeforeUnique(m: Mode, v: Validator, env: Env, data: Value, path: Path)
    requires v.kind.ListK? && IsSequence(data)
    requires !Admitted(v.kind.(unique := false), Elements(data))
    ensures RunList(m, v, env, data, path) == RunList(m, v.(kind := v.kind.(unique := true)), env, data, path)
    ensures RunList(m, v, env, data, path) == RunList(m, v.(kind := v.kind.(unique := false)), env, data, path)
  {
  }

  /** An empty list under `nonempty()` reports that, whatever the minimum. */
  lemma EmptyFirst(m: Mode, v: Validator, env: Env, data: Value, path: Path)
    requires v.kind.ListK? && v.kind.nonemptyList && IsSequence(data) && Elements(data) == []
    ensures RunList(m, v, env, data, path) == Fail(v.custom, "List cannot be empty", path)
  {
  }

  /**
   * With `unique()` and the bounds met, the uniqueness check fails exactly
   * when two positions hold equal items; such a list fails with that error
   * whatever the item validator.
   */
  lemma UniqueIff(m: Mode, v: Validator, env: Env, data: Value, path: Path)
    requires v.kind.ListK? && v.kind.unique && IsSequence(data)
    requires Admitted(v.kind.(unique := false), Elements(data))
    ensures var xs := Elements(data);
      (exists i, j :: 0 <= i < j < |xs| && xs[i] == xs[j]) <==>
        RunList(m, v.(kind := v.kind.(item := None)), env, data, path) == Fail(v.custom, "List items must be unique", path)
    ensures var xs := Elements(data);
      (exists i, j :: 0 <= i < j < |xs| && xs[i] == xs[j]) ==>
        RunList(m, v, env, data, path) == Fail(v.custom, "List items must be unique", path)
  {
  }

  /** `length(n)` with no other setting: exactly the lists of `n` items pass, unchanged. */
  lemma ExactLength(m: Mode, n: int, env: Env, data: Value, path: Path)
    requires IsSequence(data)
    ensures var r := RunList(m, ListLength(ListOf(None), n), env, data, path);
      && (r.Ok? <==> |Elements(data)| == n)
      && (r.Ok? ==> r.value == List(Elements(data)))
  {
  }

  /* ---------------------------------------------------------------- the items */

  /** The sync item loop from `i` is the async gather of the tasks from `i`, in the same mode. */
  lemma {:induction false} ListSyncIsCollect(m: Mode, v: Validator, env: Env, xs: seq<Value>, path: Path, i: nat)
    requires v.kind.ListK? && v.kind.item.Some? && i <= |xs|
    ensures ListSync(m, v, env, xs, path, i) == Collect(ListEach(m, v, env, xs, path)[i..])
    decreases |xs| - i
  {
    var rs := ListEach(m, v, env, xs, path);
    if i < |xs| {
      ListSyncIsCollect(m, v, env, xs, path, i + 1);
      assert rs[i..][1..] == rs[i + 1..];
      CollectCons(rs[i..]);
    }
  }

  /**
   * Once the checks pass, the item validator runs on item `i` at `path + [i]`.
   * In either mode the list passes exactly when every item does, with item
   * `i`'s result at position `i` and the input's length; otherwise it raises
   * the error of the lowest failing index.
   */
  lemma ListItems(m: Mode, v: Validator, env: Env, data: Value, path: Path)
    requires v.kind.ListK? && v.kind.item.Some? && IsSequence(data) && Admitted(v.kind, Elements(data))
    ensures var xs := Elements(data);
      var rs := ListEach(m, v, env, xs, path);
      var r := RunList(m, v, env, data, path);
      && (forall i :: 0 <= i < |xs| ==> rs[i] == Run(m, v.kind.item.value, env, xs[i], path + [Index(i)]))
      && (r.Ok? <==> forall i :: 0 <= i < |xs| ==> rs[i].Ok?)
      && (r.Ok? ==> r.value.List? && |r.value.items| == |xs|)
      && (r.Ok? ==> forall i :: 0 <= i < |xs| ==> r.value.items[i] == rs[i].value)
      && (r.Err? ==> FirstErr(rs).Some? && r.error == rs[FirstErr(rs).value].error)
  {
    var xs := Elements(data);
    ListSyncIsCollect(m, v, env, xs, path, 0);
    assert ListEach(m, v, env, xs, path)[0..] == ListEach(m, v, env, xs, path);
  }
}
