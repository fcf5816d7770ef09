/**
 The value side of B-link node updates: sorted key arrays, insertion into leaves and
 inner nodes, and the two splits. Separators are of any type: node objects in the
 imperative model, node ids in the tree model.
 */
module BLinkSplit {

  type Key = int
  type Value = int

  predicate Sorted(keys: seq<Key>) {
    forall i, j :: 0 <= i < j < |keys| ==> keys[i] < keys[j]
  }

  function Scan(keys: seq<Key>, k: Key, i: nat): (p: nat)
    requires i <= |keys|
    ensures i <= p <= |keys|
    ensures forall j :: i <= j < p ==> keys[j] < k
    ensures p < |keys| ==> k <= keys[p]
    decreases |keys| - i
  {
    if i < |keys| && keys[i] < k then Scan(keys, k, i + 1) else i
  }

  /** std::lower_bound over the keys: how many are below k. */
  function LowerBound(keys: seq<Key>, k: Key): (p: nat)
    requires Sorted(keys)
    ensures p <= |keys|
    ensures forall i :: 0 <= i < p ==> keys[i] < k
    ensures forall i :: p <= i < |keys| ==> k <= keys[i]
  {
    Scan(keys, k, 0)
  }

  lemma LowerBoundUnique(keys: seq<Key>, k: Key, p: nat)
    requires Sorted(keys) && p <= |keys|
    requires forall i :: 0 <= i < p ==> keys[i] < k
    requires forall i :: p <= i < |keys| ==> k <= keys[i]
    ensures LowerBound(keys, k) == p
  {
    assert p > 0 ==> keys[p - 1] < k;
    assert p < |keys| ==> k <= keys[p];
  }

  /** How many keys are not above k: the slot of the child for k. */
  function Slot(keys: seq<Key>, k: Key): (p: nat)
    requires Sorted(keys)
    ensures p <= |keys|
    ensures forall i :: 0 <= i < p ==> keys[i] <= k
    ensures forall i :: p <= i < |keys| ==> k < keys[i]
  {
    LowerBound(keys, k + 1)
  }

  lemma SlotUnique(keys: seq<Key>, k: Key, p: nat)
    requires Sorted(keys) && p <= |keys|
    requires p > 0 ==> keys[p - 1] <= k
    requires p < |keys| ==> k < keys[p]
    ensures Slot(keys, k) == p
  {
    LowerBoundUnique(keys, k + 1, p);
  }

  function InsertAt<T>(s: seq<T>, i: nat, x: T): seq<T>
    requires i <= |s|
  {
    s[..i] + [x] + s[i..]
  }

  lemma InsertLeft<T>(a: seq<T>, b: seq<T>, i: nat, x: T)
    requires i <= |a|
    ensures InsertAt(a + b, i, x) == InsertAt(a, i, x) + b
  {
  }

  lemma InsertRight<T>(a: seq<T>, b: seq<T>, i: nat, x: T)
    requires i <= |b|
    ensures InsertAt(a + b, |a| + i, x) == a + InsertAt(b, i, x)
  {
  }

  lemma LowerBoundLeft(keys: seq<Key>, n: nat, k: Key)
    requires Sorted(keys) && n <= |keys| && (n < |keys| ==> k <= keys[n])
    ensures Sorted(keys[..n]) && LowerBound(keys, k) == LowerBound(keys[..n], k)
  {
    SortedPrefix(keys, n);
    var i := LowerBound(keys[..n], k);
    assert i > 0 ==> keys[i - 1] == keys[..n][i - 1];
    assert i < n ==> keys[i] == keys[..n][i];
    LowerBoundUnique(keys, k, i);
  }

  lemma LowerBoundRight(keys: seq<Key>, n: nat, k: Key)
    requires Sorted(keys) && n <= |keys| && (n > 0 ==> keys[n - 1] < k)
    ensures Sorted(keys[n..]) && LowerBound(keys, k) == n + LowerBound(keys[n..], k)
  {
    SortedSuffix(keys, n);
    var i := LowerBound(keys[n..], k);
    assert i > 0 ==> keys[n + i - 1] == keys[n..][i - 1];
    assert n + i < |keys| ==> keys[n + i] == keys[n..][i];
    LowerBoundUnique(keys, k, n + i);
  }

  lemma InsertSorted(keys: seq<Key>, k: Key)
    requires Sorted(keys) && k !in keys
    ensures Sorted(InsertAt(keys, LowerBound(keys, k), k))
  {
    var i := LowerBound(keys, k);
    var s := InsertAt(keys, i, k);
    forall a, b | 0 <= a < b < |s| ensures s[a] < s[b] {
      assert s[a] == if a < i then keys[a] else if a == i then k else keys[a - 1];
      assert s[b] == if b < i then keys[b] else if b == i then k else keys[b - 1];
      assert b == i + 1 && a == i ==> keys[i] in keys;
    }
  }

  // ---------------------------------------------------------------- inner nodes

  /** The two halves of a split inner node and the key that moves up. */
  datatype InnerSplit<R> = InnerSplit(leftKeys: seq<Key>, leftSeps: seq<R>, keyUp: Key, rightKeys: seq<Key>, rightSeps: seq<R>)

  /** Splitting a full inner node while inserting a separator: the three branches of the program. */
  function SplitInner<R>(keys: seq<Key>, seps: seq<R>, key: Key, sep: R): InnerSplit<R>
    requires |keys| >= 2 && |seps| == |keys| + 1 && Sorted(keys)
  {
    var left := |keys| / 2;
    if key < keys[left - 1] then
      SortedPrefix(keys, left - 1);
      var i := LowerBound(keys[..left - 1], key);
      InnerSplit(InsertAt(keys[..left - 1], i, key), InsertAt(seps[..left], i + 1, sep), keys[left - 1],
                 keys[left..], seps[left..])
    else if key < keys[left] then
      InnerSplit(keys[..left], seps[..left + 1], key, keys[left..], [sep] + seps[left + 1..])
    else
      SortedSuffix(keys, left + 1);
      var i := LowerBound(keys[left + 1..], key);
      InnerSplit(keys[..left], seps[..left + 1], keys[left],
                 InsertAt(keys[left + 1..], i, key), InsertAt(seps[left + 1..], i + 1, sep))
  }

  lemma SortedPrefix(keys: seq<Key>, n: nat)
    requires Sorted(keys) && n <= |keys|
    ensures Sorted(keys[..n])
  {
  }

  lemma SortedSuffix(keys: seq<Key>, n: nat)
    requires Sorted(keys) && n <= |keys|
    ensures Sorted(keys[n..])
  {
    forall i, j | 0 <= i < j < |keys| - n ensures keys[n..][i] < keys[n..][j] {
      assert keys[n + i] < keys[n + j];
    }
  }

  /**
   The split is the insertion cut in two: the keys of the left half, the key that moves
   up and the keys of the right half are the keys with the new one inserted, and the
   separators of the halves are the separators with the new one inserted. No child is
   lost or repeated, and both halves are non-empty and leave room.
   */
  lemma SplitIsInsertion<R>(keys: seq<Key>, seps: seq<R>, key: Key, sep: R)
    requires |keys| >= 2 && |seps| == |keys| + 1 && Sorted(keys) && key !in keys
    ensures var p, i := SplitInner(keys, seps, key, sep), LowerBound(keys, key);
      && p.leftKeys + [p.keyUp] + p.rightKeys == InsertAt(keys, i, key)
      && p.leftSeps + p.rightSeps == InsertAt(seps, i + 1, sep)
      && |p.leftSeps| == |p.leftKeys| + 1 && |p.rightSeps| == |p.rightKeys| + 1
      && 1 <= |p.leftKeys| <= |keys| - 1 && 1 <= |p.rightKeys| <= |keys| - 1
      && Sorted(p.leftKeys) && Sorted(p.rightKeys)
  {
    var left := |keys| / 2;
    var p := SplitInner(keys, seps, key, sep);
    if key < keys[left - 1] {
      SplitLow(keys, seps, key, sep);
    } else if key < keys[left] {
      SplitMiddle(keys, seps, key, sep);
    } else {
      SplitHigh(keys, seps, key, sep);
    }
    InsertSorted(keys, key);
    CutSorted(p.leftKeys, [p.keyUp], p.rightKeys);
  }

  lemma CutSorted(a: seq<Key>, m: seq<Key>, b: seq<Key>)
    requires Sorted(a + m + b)
    ensures Sorted(a) && Sorted(b)
  {
    var s := a + m + b;
    SortedPrefix(s, |a|);
    SortedSuffix(s, |a| + |m|);
    assert s[..|a|] == a && s[|a| + |m|..] == b;
  }

  lemma CutTwo(a: seq<Key>, b: seq<Key>)
    requires Sorted(a + b)
    ensures Sorted(a) && Sorted(b)
  {
    SortedPrefix(a + b, |a|);
    SortedSuffix(a + b, |a|);
    assert (a + b)[..|a|] == a && (a + b)[|a|..] == b;
  }

  lemma SplitMiddle<R>(keys: seq<Key>, seps: seq<R>, key: Key, sep: R)
    requires |keys| >= 2 && |seps| == |keys| + 1 && Sorted(keys) && keys[|keys| / 2 - 1] < key < keys[|keys| / 2]
    ensures var p, i := SplitInner(keys, seps, key, sep), LowerBound(keys, key);
      && p.leftKeys + [p.keyUp] + p.rightKeys == InsertAt(keys, i, key)
      && p.leftSeps + p.rightSeps == InsertAt(seps, i + 1, sep)
  {
    LowerBoundUnique(keys, key, |keys| / 2);
  }

  lemma SplitLow<R>(keys: seq<Key>, seps: seq<R>, key: Key, sep: R)
    requires |keys| >= 2 && |seps| == |keys| + 1 && Sorted(keys) && key < keys[|keys| / 2 - 1]
    ensures var p, i := SplitInner(keys, seps, key, sep), LowerBound(keys, key);
      && p.leftKeys + [p.keyUp] + p.rightKeys == InsertAt(keys, i, key)
      && p.leftSeps + p.rightSeps == InsertAt(seps, i + 1, sep)
  {
    var left := |keys| / 2;
    LowerBoundLeft(keys, left - 1, key);
    var i := LowerBound(keys, key);
    CutLeft(keys, left - 1, i, key);
    Cons3(InsertAt(keys[..left - 1], i, key), keys, left - 1);
    CutLeft(seps, left, i + 1, sep);
  }

  lemma Cons3(a: seq<Key>, keys: seq<Key>, n: nat)
    requires n < |keys|
    ensures a + [keys[n]] + keys[n + 1..] == a + keys[n..]
  {
  }

  lemma CutLeft<T>(s: seq<T>, n: nat, i: nat, x: T)
    requires i <= n <= |s|
    ensures InsertAt(s, i, x) == InsertAt(s[..n], i, x) + s[n..]
  {
    assert s == s[..n] + s[n..];
    InsertLeft(s[..n], s[n..], i, x);
  }

  lemma CutRight<T>(s: seq<T>, n: nat, i: nat, x: T)
    requires n <= |s| && i <= |s| - n
    ensures InsertAt(s, n + i, x) == s[..n] + InsertAt(s[n..], i, x)
  {
    assert s == s[..n] + s[n..];
    InsertRight(s[..n], s[n..], i, x);
  }

  lemma HighBranch<R>(keys: seq<Key>, seps: seq<R>, key: Key, sep: R)
    requires |keys| >= 2 && |seps| == |keys| + 1 && Sorted(keys) && keys[|keys| / 2] < key
    ensures var left := |keys| / 2; Sorted(keys[left + 1..]) && var i := LowerBound(keys[left + 1..], key);
      SplitInner(keys, seps, key, sep) == InnerSplit(keys[..left], seps[..left + 1], keys[left],
        InsertAt(keys[left + 1..], i, key), InsertAt(seps[left + 1..], i + 1, sep))
  {
    SortedSuffix(keys, |keys| / 2 + 1);
  }

  lemma SplitHigh<R>(keys: seq<Key>, seps: seq<R>, key: Key, sep: R)
    requires |keys| >= 2 && |seps| == |keys| + 1 && Sorted(keys) && keys[|keys| / 2] < key
    ensures var p, i := SplitInner(keys, seps, key, sep), LowerBound(keys, key);
      && p.leftKeys + [p.keyUp] + p.rightKeys == InsertAt(keys, i, key)
      && p.leftSeps + p.rightSeps == InsertAt(seps, i + 1, sep)
  {
    var left := |keys| / 2;
    HighBranch(keys, seps, key, sep);
    assert SplitInner(keys, seps, key, sep).leftKeys + [keys[left]] + SplitInner(keys, seps, key, sep).rightKeys
        == InsertAt(keys, LowerBound(keys, key), key) by {
      HighKeysOf(keys, left, key);
    }
    HighSepsOf(keys, left, seps, key, sep);
  }

  lemma HighKeysOf(keys: seq<Key>, left: nat, key: Key)
    requires left < |keys| && Sorted(keys) && keys[left] < key
    ensures Sorted(keys[left + 1..])
    ensures keys[..left] + [keys[left]] + InsertAt(keys[left + 1..], LowerBound(keys[left + 1..], key), key)
         == InsertAt(keys, LowerBound(keys, key), key)
  {
    LowerBoundRight(keys, left + 1, key);
    HighKeys(keys, left, LowerBound(keys[left + 1..], key), key);
  }

  lemma HighSepsOf<R>(keys: seq<Key>, left: nat, seps: seq<R>, key: Key, sep: R)
    requires left < |keys| && |seps| == |keys| + 1 && Sorted(keys) && keys[left] < key
    ensures Sorted(keys[left + 1..])
    ensures seps[..left + 1] + InsertAt(seps[left + 1..], LowerBound(keys[left + 1..], key) + 1, sep)
         == InsertAt(seps, LowerBound(keys, key) + 1, sep)
  {
    LowerBoundRight(keys, left + 1, key);
    CutRight(seps, left + 1, LowerBound(keys[left + 1..], key) + 1, sep);
  }

  lemma HighKeys(keys: seq<Key>, n: nat, i: nat, key: Key)
    requires n < |keys| && i <= |keys| - n - 1
    ensures keys[..n] + [keys[n]] + InsertAt(keys[n + 1..], i, key) == InsertAt(keys, n + 1 + i, key)
  {
    CutRight(keys, n + 1, i, key);
    assert keys[..n + 1] == keys[..n] + [keys[n]];
  }

  /** The child a node routes k to. */
  function Route<R>(keys: seq<Key>, seps: seq<R>, k: Key): R
    requires Sorted(keys) && |seps| == |keys| + 1
  {
    seps[Slot(keys, k)]
  }

  /**
   Through the new high key and right link, a split node routes every key to the child
   the unsplit node with the separator inserted would.
   */
  lemma SplitRoutes<R>(keys: seq<Key>, seps: seq<R>, key: Key, sep: R, k: Key)
    requires |keys| >= 2 && |seps| == |keys| + 1 && Sorted(keys) && key !in keys
    ensures var p, i := SplitInner(keys, seps, key, sep), LowerBound(keys, key);
      && Sorted(InsertAt(keys, i, key)) && Sorted(p.leftKeys) && Sorted(p.rightKeys)
      && |p.leftSeps| == |p.leftKeys| + 1 && |p.rightSeps| == |p.rightKeys| + 1
      && Route(InsertAt(keys, i, key), InsertAt(seps, i + 1, sep), k)
         == if p.keyUp <= k then Route(p.rightKeys, p.rightSeps, k) else Route(p.leftKeys, p.leftSeps, k)
  {
    SplitIsInsertion(keys, seps, key, sep);
    InsertSorted(keys, key);
    var p, i := SplitInner(keys, seps, key, sep), LowerBound(keys, key);
    CutRoutes(InsertAt(keys, i, key), InsertAt(seps, i + 1, sep), p.leftKeys, p.keyUp, p.rightKeys, p.leftSeps, p.rightSeps, k);
  }

  /** Cutting a node at one of its keys does not change where any key goes. */
  lemma CutRoutes<R>(all: seq<Key>, seps: seq<R>, a: seq<Key>, up: Key, b: seq<Key>, aSeps: seq<R>, bSeps: seq<R>, k: Key)
    requires Sorted(all) && all == a + [up] + b && Sorted(a) && Sorted(b) && seps == aSeps + bSeps
    requires |aSeps| == |a| + 1 && |bSeps| == |b| + 1
    ensures |seps| == |all| + 1 && Route(all, seps, k) == if up <= k then Route(b, bSeps, k) else Route(a, aSeps, k)
  {
    var n := |a|;
    assert all[n] == up;
    if up <= k {
      var s := Slot(b, k);
      assert s > 0 ==> all[n + s] == b[s - 1];
      assert s < |b| ==> all[n + 1 + s] == b[s];
      SlotUnique(all, k, n + 1 + s);
    } else {
      var s := Slot(a, k);
      assert s > 0 ==> all[s - 1] == a[s - 1];
      assert s < n ==> all[s] == a[s];
      SlotUnique(all, k, s);
    }
  }

  // ---------------------------------------------------------------- leaves

  datatype LeafSplit = LeafSplit(leftKeys: seq<Key>, leftVals: seq<Value>, rightKeys: seq<Key>, rightVals: seq<Value>)

  /** Splitting a full leaf while inserting a pair. */
  function SplitLeaf(keys: seq<Key>, vals: seq<Value>, key: Key, value: Value): LeafSplit
    requires |keys| >= 2 && |vals| == |keys| && Sorted(keys)
  {
    var left := |keys| / 2;
    SortedPrefix(keys, left);
    SortedSuffix(keys, left);
    if key < keys[left] then
      var i := LowerBound(keys[..left], key);
      LeafSplit(InsertAt(keys[..left], i, key), InsertAt(vals[..left], i, value), keys[left..], vals[left..])
    else
      var i := LowerBound(keys[left..], key);
      LeafSplit(keys[..left], vals[..left], InsertAt(keys[left..], i, key), InsertAt(vals[left..], i, value))
  }

  lemma LeafSplitConcat(keys: seq<Key>, vals: seq<Value>, key: Key, value: Value)
    requires |keys| >= 2 && |vals| == |keys| && Sorted(keys) && key !in keys
    ensures var p, i := SplitLeaf(keys, vals, key, value), LowerBound(keys, key);
      && p.leftKeys + p.rightKeys == InsertAt(keys, i, key) && p.leftVals + p.rightVals == InsertAt(vals, i, value)
  {
    var left := |keys| / 2;
    if key < keys[left] {
      LowerBoundLeft(keys, left, key);
      var i := LowerBound(keys, key);
      CutLeft(keys, left, i, key);
      CutLeft(vals, left, i, value);
    } else {
      LowerBoundRight(keys, left, key);
      var i := LowerBound(keys[left..], key);
      CutRight(keys, left, i, key);
      CutRight(vals, left, i, value);
    }
  }

  /** A leaf split is the insertion cut in two non-empty halves that leave room. */
  lemma LeafSplitIsInsertion(keys: seq<Key>, vals: seq<Value>, key: Key, value: Value)
    requires |keys| >= 2 && |vals| == |keys| && Sorted(keys) && key !in keys
    ensures var p, i := SplitLeaf(keys, vals, key, value), LowerBound(keys, key);
      && p.leftKeys + p.rightKeys == InsertAt(keys, i, key) && p.leftVals + p.rightVals == InsertAt(vals, i, value)
      && |p.leftVals| == |p.leftKeys| && |p.rightVals| == |p.rightKeys|
      && 1 <= |p.leftKeys| <= |keys| && 1 <= |p.rightKeys| <= |keys| && p.rightKeys[0] == keys[|keys| / 2]
      && Sorted(p.leftKeys) && Sorted(p.rightKeys)
  {
    LeafSplitConcat(keys, vals, key, value);
    LeafSplitSizes(keys, vals, key, value);
    InsertSorted(keys, key);
    var p := SplitLeaf(keys, vals, key, value);
    CutTwo(p.leftKeys, p.rightKeys);
  }

  lemma LeafSplitSizes(keys: seq<Key>, vals: seq<Value>, key: Key, value: Value)
    requires |keys| >= 2 && |vals| == |keys| && Sorted(keys) && key !in keys
    ensures var p := SplitLeaf(keys, vals, key, value);
      && |p.leftVals| == |p.leftKeys| && |p.rightVals| == |p.rightKeys|
      && 1 <= |p.leftKeys| <= |keys| && 1 <= |p.rightKeys| <= |keys| && p.rightKeys[0] == keys[|keys| / 2]
  {
    var left := |keys| / 2;
    assert keys[left..][0] == keys[left];
    assert keys[left] in keys;
  }
}
