/**
 The value side of consolidation: pending records laid over a map, and the merge of a
 sorted base array with sorted records.
 */
module BwRecords {
  import opened BwItems
  import opened SmallSets

  /** Data records in strictly ascending key order. */
  predicate Records(p: seq<Record>) {
    forall i, j :: 0 <= i < j < |p| ==> p[i].item.key < p[j].item.key
  }

  /** Records of pairwise different keys, in any order. */
  predicate Distinct(p: seq<Record>) {
    forall i, j :: 0 <= i < j < |p| ==> p[i].item.key != p[j].item.key
  }

  function RecordMap(p: seq<Record>): map<Key, Record> {
    if p == [] then map[] else RecordMap(p[1..])[p[0].item.key := p[0]]
  }

  lemma {:induction false} RecordMapHas(p: seq<Record>, i: nat)
    requires Distinct(p) && i < |p|
    ensures p[i].item.key in RecordMap(p) && RecordMap(p)[p[i].item.key] == p[i]
  {
    if i > 0 {
      assert p[1..][i - 1] == p[i];
      RecordMapHas(p[1..], i - 1);
    }
  }

  lemma {:induction false} RecordMapFrom(p: seq<Record>, k: Key) returns (i: nat)
    requires k in RecordMap(p)
    ensures i < |p| && p[i].item.key == k
  {
    i := 0;
    if p[0].item.key != k {
      var j := RecordMapFrom(p[1..], k);
      i := j + 1;
    }
  }

  lemma RecordMapAt(p: seq<Record>)
    requires Distinct(p)
    ensures forall i :: 0 <= i < |p| ==> p[i].item.key in RecordMap(p) && RecordMap(p)[p[i].item.key] == p[i]
    ensures forall k :: k in RecordMap(p) ==> exists i :: 0 <= i < |p| && p[i].item.key == k
  {
    forall i | 0 <= i < |p| ensures p[i].item.key in RecordMap(p) && RecordMap(p)[p[i].item.key] == p[i] { RecordMapHas(p, i); }
    forall k | k in RecordMap(p) ensures exists i :: 0 <= i < |p| && p[i].item.key == k { var i := RecordMapFrom(p, k); }
  }

  /** The pending records decide their own keys, the map decides the others. */
  function Overlay(m: map<Key, Value>, r: map<Key, Record>): map<Key, Value> {
    map k | k in m.Keys + r.Keys && (k in r ==> !r[k].kind.Delete?) :: if k in r then r[k].item.value else m[k]
  }

  /** Merges a base array with records; a record replaces the base item of its key. */
  function MergeItems(items: seq<Item>, recs: seq<Record>): seq<Item>
    requires Records(recs)
    decreases |items| + |recs|
  {
    if recs == [] then items
    else if items != [] && items[0].key < recs[0].item.key then [items[0]] + MergeItems(items[1..], recs)
    else
      var rest := MergeItems(if items != [] && items[0].key == recs[0].item.key then items[1..] else items, recs[1..]);
      if recs[0].kind.Delete? then rest else [recs[0].item] + rest
  }

  lemma {:induction false} MapOfCons(x: Item, t: seq<Item>)
    requires Sorted([x] + t)
    ensures MapOf([x] + t) == MapOf(t)[x.key := x.value]
    ensures x.key !in MapOf(t)
  {
    if t != [] {
      var n := |t| - 1;
      assert ([x] + t)[..n + 1] == [x] + t[..n];
      assert ([x] + t)[n + 1] == t[n] && ([x] + t)[0] == x;
      MapOfCons(x, t[..n]);
    }
  }

  /** Every merged item comes from one of the inputs. */
  lemma {:induction false} MergeLowest(items: seq<Item>, recs: seq<Record>, lo: Key)
    requires Sorted(items) && Records(recs)
    requires items != [] ==> lo < items[0].key
    requires recs != [] ==> lo < recs[0].item.key
    ensures forall i :: 0 <= i < |MergeItems(items, recs)| ==> lo < MergeItems(items, recs)[i].key
    decreases |items| + |recs|
  {
    if recs == [] {
    } else if items != [] && items[0].key < recs[0].item.key {
      MergeLowest(items[1..], recs, lo);
    } else {
      MergeLowest(if items != [] && items[0].key == recs[0].item.key then items[1..] else items, recs[1..], lo);
    }
  }

  /** The merge is in strictly ascending key order. */
  lemma {:induction false} MergeSorted(items: seq<Item>, recs: seq<Record>)
    requires Sorted(items) && Records(recs)
    ensures Sorted(MergeItems(items, recs))
    decreases |items| + |recs|
  {
    if recs == [] {
    } else if items != [] && items[0].key < recs[0].item.key {
      MergeSorted(items[1..], recs);
      MergeLowest(items[1..], recs, items[0].key);
    } else {
      var left := if items != [] && items[0].key == recs[0].item.key then items[1..] else items;
      MergeSorted(left, recs[1..]);
      MergeLowest(left, recs[1..], recs[0].item.key);
    }
  }

  lemma OverlayItem(m: map<Key, Value>, r: map<Key, Record>, x: Item)
    requires x.key !in r
    ensures Overlay(m[x.key := x.value], r) == Overlay(m, r)[x.key := x.value]
  {
  }

  lemma OverlayRecord(m: map<Key, Value>, m': map<Key, Value>, r: map<Key, Record>, rec: Record)
    requires rec.item.key !in m && rec.item.key !in r
    requires m' - {rec.item.key} == m
    ensures Overlay(m', r[rec.item.key := rec]) == Applied(Overlay(m, r), rec)
    ensures rec.item.key !in Overlay(m, r)
  {
    assert forall l :: l in m <==> l in m' && l != rec.item.key;
  }

  /** Keys of records above k do not meet k. */
  lemma NotPending(recs: seq<Record>, k: Key)
    requires Records(recs) && (recs != [] ==> k < recs[0].item.key)
    ensures k !in RecordMap(recs)
  {
    RecordMapAt(recs);
  }

  lemma NotHeld(items: seq<Item>, k: Key)
    requires Sorted(items) && (items != [] ==> k < items[0].key)
    ensures k !in MapOf(items)
  {
    MapOfAt(items);
  }

  /** The merge is the base map with the records laid over it. */
  lemma {:induction false} MergeIsOverlay(items: seq<Item>, recs: seq<Record>)
    requires Sorted(items) && Records(recs)
    ensures MapOf(MergeItems(items, recs)) == Overlay(MapOf(items), RecordMap(recs))
    decreases |items| + |recs|
  {
    MergeSorted(items, recs);
    if recs == [] {
    } else if items != [] && items[0].key < recs[0].item.key {
      MergeIsOverlay(items[1..], recs);
      MapOfCons(items[0], MergeItems(items[1..], recs));
      assert items == [items[0]] + items[1..];
      MapOfCons(items[0], items[1..]);
      NotPending(recs, items[0].key);
      OverlayItem(MapOf(items[1..]), RecordMap(recs), items[0]);
    } else {
      MergeStep(items, recs);
    }
  }

  lemma {:induction false} MergeStep(items: seq<Item>, recs: seq<Record>)
    requires Sorted(items) && Records(recs) && recs != [] && Sorted(MergeItems(items, recs))
    requires items != [] ==> recs[0].item.key <= items[0].key
    ensures MapOf(MergeItems(items, recs)) == Overlay(MapOf(items), RecordMap(recs))
    decreases |items| + |recs|, 0
  {
    var r, rest := recs[0], recs[1..];
    var left := if items != [] && items[0].key == r.item.key then items[1..] else items;
    var merged := MergeItems(left, rest);
    MergeIsOverlay(left, rest);
    NotPending(rest, r.item.key);
    DropHead(items, r.item.key);
    OverlayRecord(MapOf(left), MapOf(items), RecordMap(rest), r);
    ConsApplied(merged, r);
  }

  lemma DropHead(items: seq<Item>, k: Key)
    requires Sorted(items) && (items != [] ==> k <= items[0].key)
    ensures var left := if items != [] && items[0].key == k then items[1..] else items;
      k !in MapOf(left) && MapOf(items) - {k} == MapOf(left)
  {
    if items != [] && items[0].key == k {
      assert items == [items[0]] + items[1..];
      MapOfCons(items[0], items[1..]);
    } else {
      NotHeld(items, k);
    }
  }

  lemma ConsApplied(merged: seq<Item>, r: Record)
    requires r.item.key !in MapOf(merged)
    requires r.kind.Delete? || Sorted([r.item] + merged)
    ensures MapOf(if r.kind.Delete? then merged else [r.item] + merged) == Applied(MapOf(merged), r)
  {
    if !r.kind.Delete? {
      MapOfCons(r.item, merged);
    }
  }

  /** A run of base items below the next record is copied as it stands. */
  lemma {:induction false} MergeRun(items: seq<Item>, n: nat, recs: seq<Record>)
    requires Records(recs) && n <= |items|
    requires recs != [] ==> forall i :: 0 <= i < n ==> items[i].key < recs[0].item.key
    ensures MergeItems(items, recs) == items[..n] + MergeItems(items[n..], recs)
  {
    if n == 0 {
      assert items[n..] == items;
    } else if recs == [] {
      assert items == items[..n] + items[n..];
    } else {
      MergeRun(items[1..], n - 1, recs);
      assert items[1..][n - 1..] == items[n..];
      assert items[..n] == [items[0]] + items[1..][..n - 1];
      Regroup([items[0]], items[1..][..n - 1], MergeItems(items[n..], recs));
    }
  }

  /** How many of the ascending records lie below the bound. */
  function CountBelow(recs: seq<Record>, b: Bound): (n: nat)
    ensures n <= |recs|
    ensures n > 0 ==> Below(recs[n - 1].item.key, b)
    ensures forall i :: n <= i < |recs| ==> !Below(recs[i].item.key, b)
  {
    if recs == [] || Below(recs[|recs| - 1].item.key, b) then |recs| else CountBelow(recs[..|recs| - 1], b)
  }

  /** Where copying of the base stops: its end, or the lower bound of the high key. */
  function CopyEnd(items: seq<Item>, high: Bound): (n: nat)
    requires Sorted(items)
    ensures n <= |items|
  {
    if high.id == INVALID_NODE_ID then |items| else LowerBound(items, high.key)
  }

  lemma Regroup(a: seq<Item>, b: seq<Item>, c: seq<Item>)
    ensures a + (b + c) == (a + b) + c
  {
  }

  lemma {:induction false} RecordMapInserted(recs: seq<Record>, i: nat, r: Record)
    requires i <= |recs| && Distinct(Inserted(recs, i, r))
    ensures RecordMap(Inserted(recs, i, r)) == RecordMap(recs)[r.item.key := r]
  {
    if i == 0 {
      assert Inserted(recs, i, r)[1..] == recs;
    } else {
      var s := Inserted(recs, i, r);
      assert s[0] == recs[0] && s[i] == r;
      assert s[1..] == Inserted(recs[1..], i - 1, r);
      RecordMapInserted(recs[1..], i - 1, r);
    }
  }

  /** Position i separates the records below the key from those above it. */
  ghost predicate Separates(recs: seq<Record>, i: nat, k: Key) {
    && i <= |recs|
    && (forall j :: 0 <= j < i ==> recs[j].item.key < k)
    && (forall j :: i <= j < |recs| ==> k < recs[j].item.key)
  }

  lemma InsertSorted(recs: seq<Record>, i: nat, r: Record)
    requires Records(recs) && Separates(recs, i, r.item.key)
    ensures Records(Inserted(recs, i, r))
  {
    var s := Inserted(recs, i, r);
    forall a, b | 0 <= a < b < |s| ensures s[a].item.key < s[b].item.key {
      assert s[a] == if a < i then recs[a] else if a == i then r else recs[a - 1];
      assert s[b] == if b < i then recs[b] else if b == i then r else recs[b - 1];
    }
  }

  lemma CountBelowUnique(recs: seq<Record>, b: Bound, n: nat)
    requires Records(recs) && n <= |recs|
    requires n > 0 ==> Below(recs[n - 1].item.key, b)
    requires n < |recs| ==> !Below(recs[n].item.key, b)
    ensures CountBelow(recs, b) == n
  {
    var m := CountBelow(recs, b);
    assert m < |recs| ==> !Below(recs[m].item.key, b);
    assert n <= m - 1 || m - 1 < n;
    assert m <= n - 1 || n - 1 < m;
  }

  lemma InsertedTail(recs: seq<Record>, i: nat, r: Record, n: nat)
    requires i <= n <= |recs|
    ensures var s := Inserted(recs, i, r);
      s[n + 1..] == recs[n..] && s[n] == (if n == i then r else recs[n - 1]) && (n + 1 < |s| ==> s[n + 1] == recs[n])
  {
  }

  /** Inserting a record below the bound leaves the records from the bound on alone. */
  lemma InsertKeepsTail(recs: seq<Record>, i: nat, r: Record, b: Bound)
    requires Records(recs) && Separates(recs, i, r.item.key) && Below(r.item.key, b)
    ensures var s := Inserted(recs, i, r); s[CountBelow(s, b)..] == recs[CountBelow(recs, b)..]
  {
    var n := CountBelow(recs, b);
    var s := Inserted(recs, i, r);
    InsertSorted(recs, i, r);
    assert n < |recs| ==> !Below(recs[n].item.key, b);
    assert i <= n;
    InsertedTail(recs, i, r, n);
    CountBelowUnique(s, b, n + 1);
  }

  lemma OverlayKnown(m: map<Key, Value>, r: Record, p: map<Key, Record>)
    requires r.item.key in p
    ensures Overlay(Applied(m, r), p) == Overlay(m, p)
  {
  }

  lemma OverlayNew(m: map<Key, Value>, r: Record, p: map<Key, Record>)
    requires r.item.key !in p
    ensures Overlay(Applied(m, r), p) == Overlay(m, p[r.item.key := r])
  {
  }

  function PartBelow(p: map<Key, Record>, b: Bound): map<Key, Record> {
    map k | k in p && Below(k, b) :: p[k]
  }

  function PartFrom(p: map<Key, Record>, b: Bound): map<Key, Record> {
    map k | k in p && !Below(k, b) :: p[k]
  }

  lemma CountBelowSplits(recs: seq<Record>, b: Bound)
    requires Records(recs)
    ensures forall i :: 0 <= i < CountBelow(recs, b) ==> Below(recs[i].item.key, b)
  {
    var n := CountBelow(recs, b);
    assert n > 0 ==> Below(recs[n - 1].item.key, b);
  }

  lemma PartsUpdate(p: map<Key, Record>, k: Key, r: Record, b: Bound)
    ensures Below(k, b) ==> PartBelow(p[k := r], b) == PartBelow(p, b)[k := r] && PartFrom(p[k := r], b) == PartFrom(p, b)
    ensures !Below(k, b) ==> PartBelow(p[k := r], b) == PartBelow(p, b) && PartFrom(p[k := r], b) == PartFrom(p, b)[k := r]
  {
  }

  lemma {:induction false} RecordMapSplit(recs: seq<Record>, n: nat, b: Bound)
    requires n <= |recs|
    requires forall i :: 0 <= i < |recs| ==> (Below(recs[i].item.key, b) <==> i < n)
    ensures RecordMap(recs[..n]) == PartBelow(RecordMap(recs), b)
    ensures RecordMap(recs[n..]) == PartFrom(RecordMap(recs), b)
  {
    if recs != [] {
      var rest := recs[1..];
      PartsUpdate(RecordMap(rest), recs[0].item.key, recs[0], b);
      if n == 0 {
        RecordMapSplit(rest, 0, b);
        assert recs[..n] == rest[..0] && recs[n..][1..] == rest[0..];
      } else {
        RecordMapSplit(rest, n - 1, b);
        assert recs[..n][1..] == rest[..n - 1] && recs[n..] == rest[n - 1..];
      }
    }
  }

  lemma RecordMapParts(recs: seq<Record>, b: Bound)
    requires Records(recs)
    ensures RecordMap(recs[..CountBelow(recs, b)]) == PartBelow(RecordMap(recs), b)
    ensures RecordMap(recs[CountBelow(recs, b)..]) == PartFrom(RecordMap(recs), b)
  {
    CountBelowSplits(recs, b);
    RecordMapSplit(recs, CountBelow(recs, b), b);
  }

  lemma RestrictOverlay(m: map<Key, Value>, p: map<Key, Record>, b: Bound)
    ensures Restrict(Overlay(m, p), b) == Overlay(Restrict(m, b), PartBelow(p, b))
  {
  }

  lemma SortedConcat(a: seq<Item>, b: seq<Item>, m: Key)
    requires Sorted(a) && Sorted(b)
    requires forall k :: k in MapOf(a) ==> k < m
    requires forall k :: k in MapOf(b) ==> m <= k
    ensures Sorted(a + b)
  {
    MapOfAt(a);
    MapOfAt(b);
    var s := a + b;
    forall i, j | 0 <= i < j < |s| ensures s[i].key < s[j].key {
      if i < |a| <= j {
        assert a[i].key < m <= b[j - |a|].key;
      }
    }
  }

  lemma BranchGoals(d: map<Key, Value>, r: map<Key, Value>, p: map<Key, Record>, b: Bound, h: Bound)
    requires b.id != INVALID_NODE_ID && (h.id != INVALID_NODE_ID ==> b.key < h.key)
    requires forall k :: k in d ==> k < b.key
    requires forall k :: k in r ==> b.key <= k && Below(k, h)
    ensures Restrict(Overlay(d + r, p), h) == Restrict(Overlay(d, p), b) + Restrict(Overlay(r, PartFrom(p, b)), h)
    ensures forall k :: k in Restrict(Overlay(d, p), b) ==> k < b.key
    ensures forall k :: k in Restrict(Overlay(r, PartFrom(p, b)), h) ==> b.key <= k
  {
    var whole, left, right := Restrict(Overlay(d + r, p), h), Restrict(Overlay(d, p), b), Restrict(Overlay(r, PartFrom(p, b)), h);
    forall k
      ensures k in whole <==> k in left || k in right
      ensures k in left ==> k < b.key && k !in right && whole[k] == left[k]
      ensures k in right ==> b.key <= k && whole[k] == right[k]
    {
      BranchGoal(d, r, p, b, h, k);
    }
  }

  /** One key of a merge record's goal comes from the branch on its side of the merge key. */
  lemma BranchGoal(d: map<Key, Value>, r: map<Key, Value>, p: map<Key, Record>, b: Bound, h: Bound, k: Key)
    requires b.id != INVALID_NODE_ID && (h.id != INVALID_NODE_ID ==> b.key < h.key)
    requires (k in d ==> k < b.key) && (k in r ==> b.key <= k && Below(k, h))
    ensures var whole, left, right := Restrict(Overlay(d + r, p), h), Restrict(Overlay(d, p), b), Restrict(Overlay(r, PartFrom(p, b)), h);
      && (k in whole <==> k in left || k in right) && (k in left ==> k < b.key && k !in right && whole[k] == left[k])
      && (k in right ==> b.key <= k && whole[k] == right[k])
  {
    if k < b.key {
      assert k !in r && k !in PartFrom(p, b);
    } else {
      assert k !in d && (k in p <==> k in PartFrom(p, b));
    }
  }

  ghost function Tail(recs: seq<Record>, high: Bound): seq<Record> {
    recs[CountBelow(recs, high)..]
  }

  lemma CountBelowMonotone(recs: seq<Record>, b: Bound, high: Bound)
    requires b.id != INVALID_NODE_ID && Below(b.key, high)
    ensures CountBelow(recs, b) <= CountBelow(recs, high)
  {
    var n, m := CountBelow(recs, b), CountBelow(recs, high);
    assert n > 0 ==> Below(recs[n - 1].item.key, high);
  }

  lemma RecordsFrom(recs: seq<Record>, n: nat)
    requires Records(recs) && n <= |recs|
    ensures Records(recs[n..])
  {
    forall i, j | 0 <= i < j < |recs| - n ensures recs[n..][i].item.key < recs[n..][j].item.key {
      assert recs[n + i].item.key < recs[n + j].item.key;
    }
  }

  lemma TailTail(recs: seq<Record>, b: Bound, high: Bound)
    requires Records(recs) && b.id != INVALID_NODE_ID && Below(b.key, high)
    ensures Tail(Tail(recs, b), high) == Tail(recs, high) && Records(Tail(recs, b))
  {
    CountBelowMonotone(recs, b, high);
    var n, m := CountBelow(recs, b), CountBelow(recs, high);
    var rest := recs[n..];
    RecordsFrom(recs, n);
    assert CountBelow(rest, high) == m - n by {
      assert m > n ==> rest[m - n - 1] == recs[m - 1];
      assert m < |recs| ==> rest[m - n] == recs[m];
      CountBelowUnique(rest, high, m - n);
    }
    assert rest[m - n..] == recs[m..];
  }

  /** Merging the base below the high key with the records below it is the overlay below it. */
  lemma MergeBelow(items: seq<Item>, recs: seq<Record>, high: Bound)
    requires Sorted(items) && Records(recs)
    ensures var n, end := CountBelow(recs, high), CopyEnd(items, high);
      && Sorted(MergeItems(items[..end], recs[..n]))
      && MapOf(MergeItems(items[..end], recs[..n])) == Restrict(Overlay(MapOf(items), RecordMap(recs)), high)
  {
    var n, end := CountBelow(recs, high), CopyEnd(items, high);
    var base := items[..end];
    assert MapOf(base) == Restrict(MapOf(items), high) by {
      if high.id != INVALID_NODE_ID {
        MapOfPrefix(items, high);
      } else {
        assert base == items;
      }
    }
    MergeSorted(base, recs[..n]);
    MergeIsOverlay(base, recs[..n]);
    RecordMapParts(recs, high);
    RestrictOverlay(MapOf(items), RecordMap(recs), high);
  }
}
