/** `prune_nones` and `pick_keys`: shaping a record before it is sent. */
module Records {
  import opened PyValue

  /** No dict entry holds None, at any depth reached through dicts and
      lists. A None that is itself an element of a list is allowed, and
      tuples, like every other value, are not looked into. */
  ghost predicate NoNullEntries(v: Value) {
    match v
    case Dict(es) => forall e :: e in es ==> e.val != Null && NoNullEntries(e.val)
    case List(xs) => forall x :: x in xs ==> NoNullEntries(x)
    case _ => true
  }

  /** Entry `a` comes before entry `b` in the dict `es`. */
  ghost predicate Before(es: seq<Entry>, a: Key, b: Key) {
    HasKey(es, a) && HasKey(es, b) && IndexOfKey(es, a) < IndexOfKey(es, b)
  }

  /** The entries of `r` appear in `es` in the same relative order. */
  ghost predicate KeyOrderOf(r: seq<Entry>, es: seq<Entry>) {
    forall i, j :: 0 <= i < j < |r| ==> Before(es, r[i].key, r[j].key)
  }

  /** The entries of a dict whose value is not None, in their order. */
  function Present(es: seq<Entry>): (r: seq<Entry>)
    ensures forall e :: e in r <==> e in es && e.val != Null
    ensures (forall e :: e in es ==> e.val != Null) ==> r == es
  {
    if es == [] then []
    else
      assert forall e :: e in es <==> e == es[0] || e in es[1..];
      if es[0].val == Null then Present(es[1..]) else [es[0]] + Present(es[1..])
  }

  /** Leaving entries out keeps the order of those that remain. */
  lemma {:induction false} PresentKeyOrder(es: seq<Entry>)
    requires UniqueKeys(es)
    ensures KeyOrderOf(Present(es), es)
  {
    if es != [] {
      var rest := Present(es[1..]);
      PresentKeyOrder(es[1..]);
      var r := Present(es);
      forall i, j | 0 <= i < j < |r| ensures Before(es, r[i].key, r[j].key) {
        if es[0].val == Null {
          BeforeTail(es, r[i].key, r[j].key);
        } else if i == 0 {
          InTail(es[1..], rest[j - 1]);
          BeforeHead(es, r[j].key);
        } else {
          BeforeTail(es, r[i].key, r[j].key);
        }
      }
    }
  }

  /** A key of an entry of `es` is a key of `es`. */
  lemma InTail(es: seq<Entry>, e: Entry)
    requires e in Present(es)
    ensures HasKey(es, e.key)
  {
    var j :| 0 <= j < |es| && es[j] == e;
    assert Keys(es)[j] == e.key;
  }

  /** Order among the later entries of a dict is order in the dict. */
  lemma BeforeTail(es: seq<Entry>, a: Key, b: Key)
    requires es != [] && UniqueKeys(es) && Before(es[1..], a, b)
    ensures Before(es, a, b)
  {
    var i, j := IndexOfKey(es[1..], a), IndexOfKey(es[1..], b);
    assert es[i + 1].key == a && es[j + 1].key == b;
    IndexOfKeyAt(es, a, i + 1);
    IndexOfKeyAt(es, b, j + 1);
  }

  /** The first entry of a dict comes before every later one. */
  lemma BeforeHead(es: seq<Entry>, b: Key)
    requires es != [] && UniqueKeys(es) && HasKey(es[1..], b)
    ensures Before(es, es[0].key, b)
  {
    var j := IndexOfKey(es[1..], b);
    assert es[j + 1].key == b;
    IndexOfKeyAt(es, b, j + 1);
    IndexOfKeyAt(es, es[0].key, 0);
  }

  /** `prune_nones(x)`: a dict loses its entries whose value is None and
      each remaining value is pruned, a list has each element pruned, and
      every other value is returned as it is. */
  function Prune(x: Value): (r: Value)
    ensures r == Null <==> x == Null
    ensures r.Dict? <==> x.Dict?
    ensures r.List? <==> x.List?
    ensures !x.Dict? && !x.List? ==> r == x
  {
    match x
    case Dict(es) =>
      var kept := Present(es);
      Dict(seq(|kept|, i requires 0 <= i < |kept| => Entry(kept[i].key, Prune(kept[i].val))))
    case List(xs) => List(seq(|xs|, i requires 0 <= i < |xs| => Prune(xs[i])))
    case _ => x
  }

  /** Pruning a list keeps its length and order: element i of the result
      is element i pruned, so a None element stays where it was. */
  lemma PruneList(xs: seq<Value>)
    ensures Prune(List(xs)).List?
    ensures |Prune(List(xs)).items| == |xs|
    ensures forall i :: 0 <= i < |xs| ==> Prune(List(xs)).items[i] == Prune(xs[i])
    ensures forall i :: 0 <= i < |xs| ==> (Prune(List(xs)).items[i] == Null <==> xs[i] == Null)
  {
  }

  /** Pruning a dict keeps exactly its entries with a non-None value, each
      pruned, in their original relative order. */
  lemma PruneDict(es: seq<Entry>)
    ensures Prune(Dict(es)).Dict?
    ensures var r := Prune(Dict(es)).entries;
      && (forall i :: 0 <= i < |es| && es[i].val != Null ==> Entry(es[i].key, Prune(es[i].val)) in r)
      && (forall e :: e in r ==> exists i :: 0 <= i < |es| && es[i].val != Null && e == Entry(es[i].key, Prune(es[i].val)))
      && (UniqueKeys(es) ==> UniqueKeys(r) && KeyOrderOf(r, es))
  {
    PruneDictKeeps(es);
    PruneDictOnly(es);
    if UniqueKeys(es) {
      PruneDictOrder(es);
    }
  }

  /** Element i of a pruned dict is the i-th present entry, pruned. */
  lemma PruneDictAt(es: seq<Entry>)
    ensures var kept, r := Present(es), Prune(Dict(es)).entries;
      |r| == |kept| && forall i :: 0 <= i < |r| ==> r[i] == Entry(kept[i].key, Prune(kept[i].val))
  {
  }

  lemma PruneDictKeeps(es: seq<Entry>)
    ensures forall i :: 0 <= i < |es| && es[i].val != Null ==> Entry(es[i].key, Prune(es[i].val)) in Prune(Dict(es)).entries
  {
    var kept, r := Present(es), Prune(Dict(es)).entries;
    PruneDictAt(es);
    forall i | 0 <= i < |es| && es[i].val != Null ensures Entry(es[i].key, Prune(es[i].val)) in r {
      assert es[i] in kept;
      var j :| 0 <= j < |kept| && kept[j] == es[i];
      assert r[j] == Entry(es[i].key, Prune(es[i].val));
    }
  }

  lemma PruneDictOnly(es: seq<Entry>)
    ensures forall e :: e in Prune(Dict(es)).entries ==>
      exists i :: 0 <= i < |es| && es[i].val != Null && e == Entry(es[i].key, Prune(es[i].val))
  {
    var kept, r := Present(es), Prune(Dict(es)).entries;
    PruneDictAt(es);
    forall e | e in r ensures exists i :: 0 <= i < |es| && es[i].val != Null && e == Entry(es[i].key, Prune(es[i].val)) {
      var j :| 0 <= j < |r| && r[j] == e;
      assert kept[j] in es;
      var i :| 0 <= i < |es| && es[i] == kept[j];
      assert es[i].val != Null && e == Entry(es[i].key, Prune(es[i].val));
    }
  }

  lemma PruneDictOrder(es: seq<Entry>)
    requires UniqueKeys(es)
    ensures UniqueKeys(Prune(Dict(es)).entries) && KeyOrderOf(Prune(Dict(es)).entries, es)
  {
    var kept, r := Present(es), Prune(Dict(es)).entries;
    PruneDictAt(es);
    PresentKeyOrder(es);
    forall i, j | 0 <= i < j < |r| ensures r[i].key != r[j].key && Before(es, r[i].key, r[j].key) {
      assert Before(es, kept[i].key, kept[j].key);
    }
  }

  /** Nothing None is left in a dict entry anywhere the pruning reaches. */
  lemma {:induction false} PruneLeavesNoNullEntries(x: Value)
    ensures NoNullEntries(Prune(x))
  {
    match x
    case Dict(es) =>
      var kept := Present(es);
      var r := Prune(x).entries;
      forall i | 0 <= i < |r| ensures r[i].val != Null && NoNullEntries(r[i].val) {
        assert kept[i] in es;
        PruneLeavesNoNullEntries(kept[i].val);
      }
    case List(xs) =>
      forall i | 0 <= i < |xs| ensures NoNullEntries(Prune(x).items[i]) {
        PruneLeavesNoNullEntries(xs[i]);
      }
    case _ =>
  }

  /** A value with no None entries is its own pruning. */
  lemma {:induction false} PruneFixesNoNullEntries(x: Value)
    requires NoNullEntries(x)
    ensures Prune(x) == x
  {
    match x
    case Dict(es) =>
      var r := Prune(x).entries;
      assert Present(es) == es;
      forall i | 0 <= i < |es| ensures r[i] == es[i] {
        assert es[i] in es;
        PruneFixesNoNullEntries(es[i].val);
      }
    case List(xs) =>
      forall i | 0 <= i < |xs| ensures Prune(x).items[i] == xs[i] {
        assert xs[i] in xs;
        PruneFixesNoNullEntries(xs[i]);
      }
    case _ =>
  }

  /** Pruning twice is pruning once. */
  lemma PruneIdempotent(x: Value)
    ensures Prune(Prune(x)) == Prune(x)
  {
    PruneLeavesNoNullEntries(x);
    PruneFixesNoNullEntries(Prune(x));
  }

  /** The first position of `k` in a key list. */
  function IndexOf(ks: seq<Key>, k: Key): (i: nat)
    requires k in ks
    ensures i < |ks| && ks[i] == k
    ensures forall j :: 0 <= j < i ==> ks[j] != k
  {
    if ks[0] == k then 0 else 1 + IndexOf(ks[1..], k)
  }

  /** `pick_keys(d, allowed)`: the dict built by assigning `d[k]` to every
      `k` of `allowed`, from left to right, that `d` holds. */
  function PickKeys(d: seq<Entry>, allowed: seq<Key>): (r: seq<Entry>)
    ensures |r| <= |allowed|
    ensures forall i :: 0 <= i < |r| ==> r[i].key in allowed
    decreases |allowed|
  {
    if allowed == [] then []
    else
      var k := allowed[|allowed| - 1];
      var prefix := allowed[..|allowed| - 1];
      var r := PickKeys(d, prefix);
      assert forall k' :: k' in prefix ==> k' in allowed;
      match Find(d, k)
      case Some(v) =>
        var r' := SetItem(r, k, v);
        assert forall i :: 0 <= i < |r'| ==> r'[i].key == Keys(r')[i];
        assert HasKey(r, k) ==> forall i :: 0 <= i < |r| ==> Keys(r')[i] == r[i].key;
        r'
      case None => r
  }

  /** A key of the result maps to what it maps to in `d` when it is
      allowed, and is absent otherwise. */
  lemma {:induction false} PickKeysFind(d: seq<Entry>, allowed: seq<Key>, k: Key)
    ensures Find(PickKeys(d, allowed), k) == if k in allowed then Find(d, k) else None
    decreases |allowed|
  {
    if allowed != [] {
      var last := allowed[|allowed| - 1];
      var prefix := allowed[..|allowed| - 1];
      assert allowed == prefix + [last];
      PickKeysFind(d, prefix, k);
      match Find(d, last)
      case Some(v) => FindSetItem(PickKeys(d, prefix), last, v, k);
      case None =>
    }
  }

  /** The result is a dict: its keys are distinct. */
  lemma {:induction false} PickKeysUnique(d: seq<Entry>, allowed: seq<Key>)
    ensures UniqueKeys(PickKeys(d, allowed))
    decreases |allowed|
  {
    if allowed != [] {
      var last := allowed[|allowed| - 1];
      var prefix := allowed[..|allowed| - 1];
      PickKeysUnique(d, prefix);
      match Find(d, last)
      case Some(v) => SetItemUnique(PickKeys(d, prefix), last, v);
      case None =>
    }
  }

  /** Every pair of entries of `r` is in the order in which their keys
      first appear in `ks`. */
  ghost predicate OrderedBy(r: seq<Entry>, ks: seq<Key>) {
    forall i, j :: 0 <= i < j < |r| ==> Precedes(ks, r[i].key, r[j].key)
  }

  /** Key `a` first appears in `ks` before key `b` does. */
  ghost predicate Precedes(ks: seq<Key>, a: Key, b: Key) {
    a in ks && b in ks && IndexOf(ks, a) < IndexOf(ks, b)
  }

  /** The keys of the result follow the order of their first appearance
      in `allowed`. */
  lemma {:induction false} PickKeysOrder(d: seq<Entry>, allowed: seq<Key>)
    ensures OrderedBy(PickKeys(d, allowed), allowed)
    decreases |allowed|
  {
    if allowed != [] {
      var last := allowed[|allowed| - 1];
      var prefix := allowed[..|allowed| - 1];
      assert allowed == prefix + [last];
      var r0 := PickKeys(d, prefix);
      PickKeysOrder(d, prefix);
      OrderedByExtend(r0, prefix, last);
      match Find(d, last)
      case Some(v) =>
        if HasKey(r0, last) {
          OrderedBySameKeys(PickKeys(d, allowed), r0, allowed);
        } else {
          PickKeysFind(d, prefix, last);
          OrderedByAppend(r0, prefix, last, v);
        }
      case None =>
    }
  }

  /** Order by a key list is order by any longer list that starts with it. */
  lemma OrderedByExtend(r: seq<Entry>, ks: seq<Key>, k: Key)
    requires OrderedBy(r, ks)
    ensures OrderedBy(r, ks + [k])
  {
    forall i, j | 0 <= i < j < |r| ensures Precedes(ks + [k], r[i].key, r[j].key) {
      assert Precedes(ks, r[i].key, r[j].key);
      IndexOfExtend(ks, k, r[i].key);
      IndexOfExtend(ks, k, r[j].key);
    }
  }

  lemma IndexOfExtend(ks: seq<Key>, k: Key, k': Key)
    requires k' in ks
    ensures k' in ks + [k] && IndexOf(ks + [k], k') == IndexOf(ks, k')
  {
    var i := IndexOf(ks, k');
    assert (ks + [k])[i] == k';
    OrderIndexOfAt(ks + [k], k', i);
  }

  /** Entries with the same keys in the same order are ordered alike. */
  lemma OrderedBySameKeys(r: seq<Entry>, r0: seq<Entry>, ks: seq<Key>)
    requires Keys(r) == Keys(r0) && OrderedBy(r0, ks)
    ensures OrderedBy(r, ks)
  {
    forall i, j | 0 <= i < j < |r| ensures Precedes(ks, r[i].key, r[j].key) {
      assert Keys(r)[i] == Keys(r0)[i] && Keys(r)[j] == Keys(r0)[j];
    }
  }

  /** Appending the entry of a key that only the end of the key list holds
      keeps the order. */
  lemma OrderedByAppend(r0: seq<Entry>, prefix: seq<Key>, last: Key, v: Value)
    requires OrderedBy(r0, prefix + [last]) && last !in prefix
    requires forall e :: e in r0 ==> e.key in prefix
    ensures OrderedBy(r0 + [Entry(last, v)], prefix + [last])
  {
    var ks, r := prefix + [last], r0 + [Entry(last, v)];
    OrderIndexOfAt(ks, last, |prefix|);
    forall i, j | 0 <= i < j < |r| ensures Precedes(ks, r[i].key, r[j].key) {
      assert r[i] == r0[i] && r0[i] in r0;
      var m :| 0 <= m < |prefix| && prefix[m] == r[i].key;
      assert ks[m] == r[i].key;
      if j < |r0| {
        assert r[j] == r0[j];
      }
    }
  }

  /** The first position holding `k` is the one `IndexOf` returns. */
  lemma OrderIndexOfAt(ks: seq<Key>, k: Key, i: nat)
    requires i < |ks| && ks[i] == k
    requires forall j :: 0 <= j < i ==> ks[j] != k
    ensures IndexOf(ks, k) == i
  {
  }

  /** `pick_keys(d, allowed)` holds exactly the keys that are both in
      `allowed` and in `d`, each with its value in `d`, without repetition
      and in the order of `allowed`. */
  lemma PickKeysSpec(d: seq<Entry>, allowed: seq<Key>)
    ensures var r := PickKeys(d, allowed);
      && (forall k :: HasKey(r, k) <==> k in allowed && HasKey(d, k))
      && (forall e :: e in r ==> Find(d, e.key) == Some(e.val))
      && UniqueKeys(r)
      && OrderedBy(r, allowed)
  {
    var r := PickKeys(d, allowed);
    PickKeysUnique(d, allowed);
    PickKeysOrder(d, allowed);
    forall k ensures HasKey(r, k) <==> k in allowed && HasKey(d, k) {
      PickKeysFind(d, allowed, k);
    }
    forall e | e in r ensures Find(d, e.key) == Some(e.val) {
      FindUnique(r, e);
      PickKeysFind(d, allowed, e.key);
    }
  }

  /** The result depends on `d` only through the values of the allowed
      keys. */
  lemma {:induction false} PickKeysCongruent(d1: seq<Entry>, d2: seq<Entry>, allowed: seq<Key>)
    requires forall k :: k in allowed ==> Find(d1, k) == Find(d2, k)
    ensures PickKeys(d1, allowed) == PickKeys(d2, allowed)
    decreases |allowed|
  {
    if allowed != [] {
      var prefix := allowed[..|allowed| - 1];
      assert forall k :: k in prefix ==> k in allowed;
      PickKeysCongruent(d1, d2, prefix);
    }
  }

  /** Picking the same keys again changes nothing. */
  lemma PickKeysIdempotent(d: seq<Entry>, allowed: seq<Key>)
    ensures PickKeys(PickKeys(d, allowed), allowed) == PickKeys(d, allowed)
  {
    forall k | k in allowed ensures Find(PickKeys(d, allowed), k) == Find(d, k) {
      PickKeysFind(d, allowed, k);
    }
    PickKeysCongruent(PickKeys(d, allowed), d, allowed);
  }
}
