/**
 * The JSON-like values the OpenAPI serialisers build: Python dicts, lists,
 * strings, integers and booleans. An object is an insertion-ordered list of
 * members, as a Python dict is; assigning to a key keeps the position of an
 * existing key and appends a new one.
 */
module JsonValues {
  import opened Wrappers

  datatype Json =
    | JNull
    | JBool(b: bool)
    | JInt(i: int)
    | JStr(s: string)
    | JArr(elems: seq<Json>)
    | JObj(members: seq<Member>)

  datatype Member = Member(key: string, value: Json)

  /** The keys of an object, in insertion order. */
  function Names(ms: seq<Member>): (r: seq<string>)
    ensures |r| == |ms| && forall i :: 0 <= i < |ms| ==> r[i] == ms[i].key
  {
    if |ms| == 0 then [] else [ms[0].key] + Names(ms[1..])
  }

  /** No key twice: what every Python dict is. */
  predicate UniqueNames(ms: seq<Member>)
  {
    forall i, j :: 0 <= i < j < |ms| ==> ms[i].key != ms[j].key
  }

  /** `d.get(k)` */
  function Get(ms: seq<Member>, k: string): (r: Option<Json>)
    ensures r.Some? <==> k in Names(ms)
  {
    if |ms| == 0 then None
    else if ms[0].key == k then Some(ms[0].value)
    else Get(ms[1..], k)
  }

  /**
   * `d[k] = v`: afterwards `k` holds `v` and every other key what it held;
   * an existing key keeps its place, a new one comes last.
   */
  function Put(ms: seq<Member>, k: string, v: Json): (r: seq<Member>)
  {
    if |ms| == 0 then [Member(k, v)]
    else if ms[0].key == k then [Member(k, v)] + ms[1..]
    else [ms[0]] + Put(ms[1..], k, v)
  }

  /** Afterwards `k` holds `v` and every other key what it held. */
  lemma {:induction false} PutGet(ms: seq<Member>, k: string, v: Json)
    ensures Get(Put(ms, k, v), k) == Some(v)
    ensures forall k' :: k' != k ==> Get(Put(ms, k, v), k') == Get(ms, k')
  {
    if |ms| > 0 && ms[0].key != k {
      PutGet(ms[1..], k, v);
    }
  }

  /** An existing key keeps its place, a new one comes last. */
  lemma {:induction false} PutNames(ms: seq<Member>, k: string, v: Json)
    ensures k in Names(ms) ==> Names(Put(ms, k, v)) == Names(ms)
    ensures k !in Names(ms) ==> Names(Put(ms, k, v)) == Names(ms) + [k]
  {
    if |ms| > 0 {
      var r := Put(ms, k, v);
      if ms[0].key == k {
        assert Names(r) == [k] + Names(ms[1..]);
        assert Names(ms) == [k] + Names(ms[1..]);
      } else {
        PutNames(ms[1..], k, v);
        assert Names(r) == [ms[0].key] + Names(Put(ms[1..], k, v));
        assert Names(ms) == [ms[0].key] + Names(ms[1..]);
        assert k in Names(ms) <==> k in Names(ms[1..]);
      }
    }
  }

  /** Assigning never drops a key. */
  lemma PutKeeps(ms: seq<Member>, k: string, v: Json)
    ensures forall k' :: k' in Names(ms) ==> k' in Names(Put(ms, k, v))
  {
    PutNames(ms, k, v);
  }

  /** Assigning keeps the keys unique. */
  lemma {:induction false} PutUnique(ms: seq<Member>, k: string, v: Json)
    requires UniqueNames(ms)
    ensures UniqueNames(Put(ms, k, v))
  {
    var r := Put(ms, k, v);
    PutNames(ms, k, v);
    forall i, j | 0 <= i < j < |r|
      ensures r[i].key != r[j].key
    {
      assert Names(r)[i] == r[i].key && Names(r)[j] == r[j].key;
      if k !in Names(ms) && j == |ms| {
        assert r[j].key == k;
        assert r[i].key == Names(ms)[i];
      } else {
        assert r[i].key == ms[i].key && r[j].key == ms[j].key;
      }
    }
  }

  /** Of two assignments to one key the later wins, and the key's place is the first one's. */
  lemma {:induction false} PutPut(ms: seq<Member>, k: string, v: Json, w: Json)
    ensures Put(Put(ms, k, v), k, w) == Put(ms, k, w)
  {
    if |ms| > 0 && ms[0].key != k {
      PutPut(ms[1..], k, v, w);
      assert Put(ms, k, v)[1..] == Put(ms[1..], k, v);
    }
  }
}
