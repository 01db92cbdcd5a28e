/**
 * The Python values that flow through a validator: `None`, `bool`, `int`,
 * `str`, `list`, `tuple` and `dict` with string keys, plus the error path
 * segments (`str | int`) that locate a value inside its container.
 */
module Values {
  import opened Wrappers
  import opened Text

  datatype Value =
    | Null
    | Bool(b: bool)
    | Int(i: int)
    | Str(s: string)
    | List(items: seq<Value>)
    | Tuple(elems: seq<Value>)
    /** A `dict`; when two entries share a key, the first one is the key's entry. */
    | Map(entries: seq<Entry>)

  datatype Entry = Entry(key: string, val: Value)

  /** One step of an error path: a dict key or a sequence index. */
  datatype Segment = Key(name: string) | Index(index: int)

  type Path = seq<Segment>

  /** `type(data).__name__` */
  function TypeName(v: Value): string
  {
    match v
    case Null => "NoneType"
    case Bool(_) => "bool"
    case Int(_) => "int"
    case Str(_) => "str"
    case List(_) => "list"
    case Tuple(_) => "tuple"
    case Map(_) => "dict"
  }

  /** `str(p)` for a path segment. */
  function SegmentText(p: Segment): string
  {
    match p
    case Key(name) => name
    case Index(i) => IntToString(i)
  }

  /** `isinstance(data, (list, tuple))` */
  predicate IsSequence(v: Value)
  {
    v.List? || v.Tuple?
  }

  /** `list(data)` for a list or a tuple. */
  function Elements(v: Value): seq<Value>
    requires IsSequence(v)
  {
    if v.List? then v.items else v.elems
  }

  /** The keys of a sequence of entries, in order. */
  function KeysOf(entries: seq<Entry>): (r: seq<string>)
    ensures |r| == |entries| && forall i :: 0 <= i < |r| ==> r[i] == entries[i].key
  {
    if |entries| == 0 then [] else [entries[0].key] + KeysOf(entries[1..])
  }

  /** `k in d` */
  predicate HasKey(entries: seq<Entry>, k: string)
  {
    k in KeysOf(entries)
  }

  /** `d.get(k)`: the value of the first entry with key `k`. */
  function Lookup(entries: seq<Entry>, k: string): (r: Option<Value>)
    ensures r.Some? <==> HasKey(entries, k)
  {
    if |entries| == 0 then None
    else if entries[0].key == k then Some(entries[0].val)
    else Lookup(entries[1..], k)
  }

  predicate Distinct<T(==)>(s: seq<T>)
  {
    forall i, j :: 0 <= i < j < |s| ==> s[i] != s[j]
  }

  /** No two entries share a key: the shape of a real Python `dict`. */
  predicate DistinctKeys(entries: seq<Entry>)
  {
    Distinct(KeysOf(entries))
  }

  /** `d[k] = v`: replace the value of an existing key in place, or append a new entry. */
  function Assign(entries: seq<Entry>, k: string, v: Value): (r: seq<Entry>)
    ensures KeysOf(r) == if HasKey(entries, k) then KeysOf(entries) else KeysOf(entries) + [k]
    ensures Lookup(r, k) == Some(v)
    ensures forall k' :: k' != k ==> Lookup(r, k') == Lookup(entries, k')
  {
    if |entries| == 0 then [Entry(k, v)]
    else if entries[0].key == k then
      var r := [Entry(k, v)] + entries[1..];
      assert r[1..] == entries[1..];
      assert KeysOf(r) == [k] + KeysOf(entries[1..]) == KeysOf(entries);
      r
    else
      var t := Assign(entries[1..], k, v);
      var r := [entries[0]] + t;
      assert r[1..] == t;
      assert KeysOf(r) == [entries[0].key] + KeysOf(t);
      assert KeysOf(entries) == [entries[0].key] + KeysOf(entries[1..]);
      assert HasKey(entries, k) == HasKey(entries[1..], k);
      r
  }

  /** The entries whose key is not `k`, in order. */
  function Without(entries: seq<Entry>, k: string): (r: seq<Entry>)
    ensures |r| <= |entries|
    ensures forall k' :: HasKey(r, k') <==> k' != k && HasKey(entries, k')
    ensures forall k' :: k' != k ==> Lookup(r, k') == Lookup(entries, k')
  {
    if |entries| == 0 then []
    else if entries[0].key == k then
      assert KeysOf(entries) == [entries[0].key] + KeysOf(entries[1..]);
      Without(entries[1..], k)
    else
      var r := [entries[0]] + Without(entries[1..], k);
      assert r[1..] == Without(entries[1..], k);
      assert KeysOf(r) == [entries[0].key] + KeysOf(r[1..]);
      assert KeysOf(entries) == [entries[0].key] + KeysOf(entries[1..]);
      assert forall k' :: HasKey(r, k') <==> k' == entries[0].key || HasKey(r[1..], k');
      assert forall k' :: HasKey(entries, k') <==> k' == entries[0].key || HasKey(entries[1..], k');
      r
  }

  /**
   * `dict(data)` seen as an ordered dict: one entry per distinct key, at the
   * position of its first occurrence, carrying that occurrence's value.
   */
  function Normalize(entries: seq<Entry>): (r: seq<Entry>)
    ensures DistinctKeys(r)
    ensures forall k :: HasKey(r, k) <==> HasKey(entries, k)
    ensures forall k :: Lookup(r, k) == Lookup(entries, k)
    ensures |r| <= |entries|
    decreases |entries|
  {
    if |entries| == 0 then []
    else
      var first := entries[0];
      var rest := Normalize(Without(entries[1..], first.key));
      var r := [first] + rest;
      assert r[1..] == rest;
      assert !HasKey(Without(entries[1..], first.key), first.key);
      assert !HasKey(rest, first.key);
      assert KeysOf(r) == [first.key] + KeysOf(rest);
      assert KeysOf(entries) == [first.key] + KeysOf(entries[1..]);
      assert forall k :: HasKey(r, k) <==> k == first.key || HasKey(rest, k);
      assert forall k :: HasKey(entries, k) <==> k == first.key || HasKey(entries[1..], k);
      r
  }

  /** The keys of a dict in iteration order, each once. */
  function DictKeys(entries: seq<Entry>): seq<string>
  {
    KeysOf(Normalize(entries))
  }
}
