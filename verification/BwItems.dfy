/**
 Keys, items and data records of the Bw-tree, and sorted arrays of items.

 Leaf items map a key to a value; in inner nodes the value is a child's node id.
 */
module BwItems {

  type Key = int
  type Value = int
  type NodeID = int

  /** Marks the last node of a level; a high key pair carrying it means +infinity. */
  const INVALID_NODE_ID: NodeID := 0

  datatype Option<+T> = None | Some(value: T)

  datatype Item = Item(key: Key, value: Value)

  /** A high key and the id of the right sibling that starts there. */
  datatype Bound = Bound(key: Key, id: NodeID)

  /** Lower-bound position of a key in a base array, and whether the base holds the key. */
  datatype IndexPair = IndexPair(index: nat, present: bool)

  datatype Kind = Insert | Delete | Update

  /** A data record: what it does, to which item, and where its key sits in the base. */
  datatype Record = Record(kind: Kind, item: Item, at: IndexPair)

  predicate Sorted(items: seq<Item>) {
    forall i, j :: 0 <= i < j < |items| ==> items[i].key < items[j].key
  }

  predicate Below(k: Key, b: Bound) {
    b.id == INVALID_NODE_ID || k < b.key
  }

  lemma SortedSlice(items: seq<Item>, a: nat, b: nat)
    requires Sorted(items) && a <= b <= |items|
    ensures Sorted(items[a..b])
  {
    forall i, j | 0 <= i < j < b - a ensures items[a..b][i].key < items[a..b][j].key {
      assert items[a + i].key < items[a + j].key;
    }
  }

  /** The map a sorted array stands for. */
  function MapOf(items: seq<Item>): map<Key, Value>
  {
    if items == [] then map[]
    else
      var n := |items| - 1;
      MapOf(items[..n])[items[n].key := items[n].value]
  }

  function Scan(items: seq<Item>, k: Key, i: nat): (p: nat)
    requires i <= |items|
    ensures i <= p <= |items|
    ensures forall j :: i <= j < p ==> items[j].key < k
    ensures p < |items| ==> k <= items[p].key
    decreases |items| - i
  {
    if i < |items| && items[i].key < k then Scan(items, k, i + 1) else i
  }

  /** std::lower_bound: the first position whose key is not below k. */
  function LowerBound(items: seq<Item>, k: Key): (p: nat)
    requires Sorted(items)
    ensures p <= |items|
    ensures forall i :: 0 <= i < p ==> items[i].key < k
    ensures forall i :: p <= i < |items| ==> k <= items[i].key
  {
    Scan(items, k, 0)
  }

  lemma LowerBoundUnique(items: seq<Item>, k: Key, p: nat)
    requires Sorted(items) && p <= |items|
    requires forall i :: 0 <= i < p ==> items[i].key < k
    requires forall i :: p <= i < |items| ==> k <= items[i].key
    ensures LowerBound(items, k) == p
  {
    assert p > 0 ==> items[p - 1].key < k;
    assert p < |items| ==> k <= items[p].key;
  }

  /** std::upper_bound: the first position whose key is above k. */
  function UpperBound(items: seq<Item>, k: Key): (p: nat)
    requires Sorted(items)
    ensures p <= |items|
    ensures forall i :: 0 <= i < p ==> items[i].key <= k
    ensures forall i :: p <= i < |items| ==> k < items[i].key
  {
    LowerBound(items, k + 1)
  }

  function Locate(items: seq<Item>, k: Key): IndexPair
    requires Sorted(items)
  {
    var p := LowerBound(items, k);
    IndexPair(p, p < |items| && items[p].key == k)
  }

  lemma {:induction false} MapOfHas(items: seq<Item>, i: nat)
    requires Sorted(items) && i < |items|
    ensures items[i].key in MapOf(items) && MapOf(items)[items[i].key] == items[i].value
  {
    var n := |items| - 1;
    if i < n {
      assert items[..n][i] == items[i];
      MapOfHas(items[..n], i);
    }
  }

  lemma {:induction false} MapOfFrom(items: seq<Item>, k: Key) returns (i: nat)
    requires k in MapOf(items)
    ensures i < |items| && items[i].key == k
  {
    i := |items| - 1;
    if items[i].key != k {
      i := MapOfFrom(items[..i], k);
    }
  }

  lemma {:induction false} MapOfSize(items: seq<Item>)
    requires Sorted(items)
    ensures |MapOf(items)| == |items|
  {
    if items != [] {
      var n := |items| - 1;
      MapOfSize(items[..n]);
      if items[n].key in MapOf(items[..n]) {
        var i := MapOfFrom(items[..n], items[n].key);
      }
    }
  }

  lemma MapOfAt(items: seq<Item>)
    requires Sorted(items)
    ensures forall i :: 0 <= i < |items| ==> items[i].key in MapOf(items) && MapOf(items)[items[i].key] == items[i].value
    ensures forall k :: k in MapOf(items) ==> exists i :: 0 <= i < |items| && items[i].key == k
    ensures |MapOf(items)| == |items|
  {
    forall i | 0 <= i < |items| ensures items[i].key in MapOf(items) && MapOf(items)[items[i].key] == items[i].value { MapOfHas(items, i); }
    forall k | k in MapOf(items) ensures exists i :: 0 <= i < |items| && items[i].key == k { var i := MapOfFrom(items, k); }
    MapOfSize(items);
  }

  function Restrict(m: map<Key, Value>, b: Bound): map<Key, Value> {
    map k | k in m && Below(k, b) :: m[k]
  }

  lemma RestrictUpdate(m: map<Key, Value>, k: Key, v: Value, b: Bound)
    requires !Below(k, b)
    ensures Restrict(m[k := v], b) == Restrict(m, b)
  {
  }

  lemma AllBelow(items: seq<Item>, b: Bound)
    requires Sorted(items) && items != [] && items[|items| - 1].key < b.key
    ensures Restrict(MapOf(items), b) == MapOf(items)
  {
    MapOfAt(items);
    forall k | k in MapOf(items) ensures Below(k, b) {
      var i :| 0 <= i < |items| && items[i].key == k;
    }
  }

  lemma {:induction false} MapOfPrefix(items: seq<Item>, b: Bound)
    requires Sorted(items)
    requires b.id != INVALID_NODE_ID
    ensures Restrict(MapOf(items), b) == MapOf(items[..LowerBound(items, b.key)])
  {
    if items != [] {
      var n := |items| - 1;
      var p := LowerBound(items, b.key);
      if items[n].key < b.key {
        assert items[..p] == items;
        AllBelow(items, b);
      } else {
        MapOfPrefix(items[..n], b);
        LowerBoundUnique(items[..n], b.key, p);
        assert items[..n][..p] == items[..p];
        RestrictUpdate(MapOf(items[..n]), items[n].key, items[n].value, b);
      }
    }
  }

  function Applied(m: map<Key, Value>, r: Record): map<Key, Value> {
    if r.kind.Delete? then m - {r.item.key} else m[r.item.key := r.item.value]
  }

  function Lookup(m: map<Key, Value>, k: Key): Option<Value> {
    if k in m then Some(m[k]) else None
  }

  lemma UnionSize(a: map<Key, Value>, b: map<Key, Value>)
    requires a.Keys !! b.Keys
    ensures |a + b| == |a| + |b|
  {
    assert (a + b).Keys == a.Keys + b.Keys;
    assert |a + b| == |(a + b).Keys|;
  }

  lemma RemoveSize(m: map<Key, Value>, k: Key)
    requires k in m
    ensures |m - {k}| == |m| - 1
  {
    assert m == (m - {k})[k := m[k]];
  }

  lemma SplitSize(items: seq<Item>, b: Bound)
    requires Sorted(items) && b.id != INVALID_NODE_ID
    ensures |Restrict(MapOf(items), b)| == LowerBound(items, b.key)
  {
    MapOfPrefix(items, b);
    MapOfAt(items[..LowerBound(items, b.key)]);
  }

  lemma LookupBase(items: seq<Item>, key: Key)
    requires Sorted(items)
    ensures var p := Locate(items, key);
      Lookup(MapOf(items), key) == if p.present then Some(items[p.index].value) else None
  {
    MapOfAt(items);
  }

  lemma {:induction false} MapOfConcat(a: seq<Item>, b: seq<Item>)
    ensures MapOf(a + b) == MapOf(a) + MapOf(b)
  {
    if b == [] {
      assert a + b == a;
    } else {
      var n := |b| - 1;
      assert (a + b)[..|a| + n] == a + b[..n];
      MapOfConcat(a, b[..n]);
    }
  }
}
