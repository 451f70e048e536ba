/** Python values as the record-shaping utilities see them: the JSON-like
    tree of None, booleans, numbers, strings, lists, tuples, dicts and plain
    attribute objects, together with the few dict and iteration behaviours
    of the language that the utilities rely on. */
module PyValue {

  datatype Option<T> = None | Some(value: T)

  /** The built-in exception classes the utilities can raise. */
  datatype Error =
    | TypeError
    | ValueError
    | KeyError(key: string)
    | AttributeError(name: string)

  /** A computation that either returns a value or raises. */
  datatype Result<T> = Ok(value: T) | Err(error: Error) {
    predicate IsFailure() { Err? }
    function PropagateFailure<U>(): Result<U> requires Err? { Err(error) }
    function Extract(): T requires Ok? { value }
  }

  /** A dict key. Strings are the keys that matter; an integer key stands
      for every key that is not a string. */
  datatype Key = StrKey(name: string) | IntKey(n: int)

  /** One key/value pair of a dict; a dict is the sequence of its pairs in
      insertion order. */
  datatype Entry = Entry(key: Key, val: Value)

  datatype Value =
    | Null
    | Bool(b: bool)
    | Int(i: int)
    | Float(f: real)
    | Str(s: string)
    | List(items: seq<Value>)
    | Tuple(items: seq<Value>)
    | Dict(entries: seq<Entry>)
    | Obj(attrs: map<string, Value>)

  /** The keys of a dict, in insertion order. */
  function Keys(es: seq<Entry>): (ks: seq<Key>)
    ensures |ks| == |es|
    ensures forall i :: 0 <= i < |es| ==> ks[i] == es[i].key
  {
    seq(|es|, i requires 0 <= i < |es| => es[i].key)
  }

  /** `k in d` */
  predicate HasKey(es: seq<Entry>, k: Key) {
    k in Keys(es)
  }

  /** Every Python dict has pairwise distinct keys. */
  ghost predicate UniqueKeys(es: seq<Entry>) {
    forall i, j :: 0 <= i < j < |es| ==> es[i].key != es[j].key
  }

  /** The position of key `k` in the dict. */
  function IndexOfKey(es: seq<Entry>, k: Key): (i: nat)
    requires HasKey(es, k)
    ensures i < |es| && es[i].key == k
    ensures forall j :: 0 <= j < i ==> es[j].key != k
  {
    if es[0].key == k then 0 else 1 + IndexOfKey(es[1..], k)
  }

  /** The first position holding `k` is the one `IndexOfKey` returns. */
  lemma IndexOfKeyAt(es: seq<Entry>, k: Key, i: nat)
    requires i < |es| && es[i].key == k
    requires forall j :: 0 <= j < i ==> es[j].key != k
    ensures HasKey(es, k) && IndexOfKey(es, k) == i
  {
    assert Keys(es)[i] == k;
  }

  /** `d.get(k)`: the value stored under `k`, or nothing. */
  function Find(es: seq<Entry>, k: Key): (r: Option<Value>)
    ensures r.None? <==> !HasKey(es, k)
    ensures r.Some? ==> exists i :: 0 <= i < |es| && es[i] == Entry(k, r.value)
  {
    if HasKey(es, k) then Some(es[IndexOfKey(es, k)].val) else None
  }

  /** In a dict with distinct keys, every pair is found by its key. */
  lemma FindUnique(es: seq<Entry>, e: Entry)
    requires UniqueKeys(es) && e in es
    ensures Find(es, e.key) == Some(e.val)
  {
    var i :| 0 <= i < |es| && es[i] == e;
    IndexOfKeyAt(es, e.key, i);
  }

  /** `d[k] = v`: an existing key keeps its place and takes the new value,
      a new key goes to the end. */
  function SetItem(es: seq<Entry>, k: Key, v: Value): (r: seq<Entry>)
    ensures HasKey(es, k) ==> Keys(r) == Keys(es)
    ensures !HasKey(es, k) ==> r == es + [Entry(k, v)]
  {
    if HasKey(es, k) then es[IndexOfKey(es, k) := Entry(k, v)] else es + [Entry(k, v)]
  }

  /** After `d[k] = v`, `k` maps to `v` and every other key to what it
      mapped to before. */
  lemma FindSetItem(es: seq<Entry>, k: Key, v: Value, k': Key)
    ensures Find(SetItem(es, k, v), k') == if k' == k then Some(v) else Find(es, k')
  {
    var r := SetItem(es, k, v);
    if HasKey(es, k) {
      var i := IndexOfKey(es, k);
      assert Keys(r) == Keys(es);
      if HasKey(es, k') {
        IndexOfKeyAt(r, k', IndexOfKey(es, k'));
      }
    } else {
      assert Keys(r) == Keys(es) + [k];
      if HasKey(es, k') {
        IndexOfKeyAt(r, k', IndexOfKey(es, k'));
      } else if k' == k {
        IndexOfKeyAt(r, k', |es|);
      }
    }
  }

  /** `d[k] = v` keeps the keys of a dict distinct. */
  lemma SetItemUnique(es: seq<Entry>, k: Key, v: Value)
    requires UniqueKeys(es)
    ensures UniqueKeys(SetItem(es, k, v))
  {
    var r := SetItem(es, k, v);
    if HasKey(es, k) {
      assert Keys(r) == Keys(es);
      forall i, j | 0 <= i < j < |r| ensures r[i].key != r[j].key {
        assert Keys(r)[i] == Keys(es)[i] && Keys(r)[j] == Keys(es)[j];
      }
    } else {
      forall i | 0 <= i < |es| ensures es[i].key != k {
        assert Keys(es)[i] == es[i].key;
      }
    }
  }

  /** A dict key as the value that iterating over the dict yields. */
  function KeyValue(k: Key): Value {
    match k
    case StrKey(s) => Str(s)
    case IntKey(n) => Int(n)
  }

  /** Python truthiness: None, False, zero and empty containers are false;
      attribute objects are true. */
  predicate Truthy(v: Value) {
    match v
    case Null => false
    case Bool(b) => b
    case Int(n) => n != 0
    case Float(x) => x != 0.0
    case Str(s) => s != []
    case List(xs) => xs != []
    case Tuple(xs) => xs != []
    case Dict(es) => es != []
    case Obj(_) => true
  }

  /** The falsy values are exactly None, False, integer and float zero and
      the empty string, list, tuple and dict. */
  lemma FalsyValues(v: Value)
    ensures !Truthy(v) <==> v in {Null, Bool(false), Int(0), Float(0.0), Str([]), List([]), Tuple([]), Dict([])}
  {
  }

  /** `for x in v`: lists and tuples yield their elements, a dict its keys,
      a string its one-character strings; anything else is not iterable. */
  function Iterate(v: Value): (r: Result<seq<Value>>)
    ensures r.Err? <==> !(v.List? || v.Tuple? || v.Dict? || v.Str?)
    ensures r.Err? ==> r.error == TypeError
    ensures v.List? || v.Tuple? ==> r == Ok(v.items)
    ensures v.Dict? ==>
      && r.Ok? && |r.value| == |v.entries|
      && forall i :: 0 <= i < |v.entries| ==> r.value[i] == KeyValue(v.entries[i].key)
    ensures v.Str? ==>
      && r.Ok? && |r.value| == |v.s|
      && forall i :: 0 <= i < |v.s| ==> r.value[i] == Str([v.s[i]])
  {
    match v
    case List(xs) => Ok(xs)
    case Tuple(xs) => Ok(xs)
    case Dict(es) => Ok(seq(|es|, i requires 0 <= i < |es| => KeyValue(es[i].key)))
    case Str(s) => Ok(seq(|s|, i requires 0 <= i < |s| => Str([s[i]])))
    case _ => Err(TypeError)
  }

  /** `[f(x) for x in xs]`: the elements are computed from left to right and
      the first one that raises ends the comprehension with its error. */
  function MapAll<A, B>(xs: seq<A>, f: A -> Result<B>): (r: Result<seq<B>>)
    ensures r.Ok? <==> forall i :: 0 <= i < |xs| ==> f(xs[i]).Ok?
    ensures r.Ok? ==> |r.value| == |xs| && forall i :: 0 <= i < |xs| ==> f(xs[i]) == Ok(r.value[i])
    ensures r.Err? ==> exists i :: 0 <= i < |xs| && f(xs[i]) == Err(r.error) && forall j :: 0 <= j < i ==> f(xs[j]).Ok?
  {
    if xs == [] then Ok([])
    else
      var y :- f(xs[0]);
      var ys := MapAll(xs[1..], f);
      if ys.Err? then
        ghost var i :| 0 <= i < |xs[1..]| && f(xs[1..][i]) == Err(ys.error) && forall j :: 0 <= j < i ==> f(xs[1..][j]).Ok?;
        assert f(xs[i + 1]) == Err(ys.error) && forall j :: 0 <= j < i + 1 ==> f(xs[j]).Ok?;
        Err(ys.error)
      else
        Ok([y] + ys.value)
  }
}
