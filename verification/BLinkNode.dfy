/**
 B-link nodes as the program lays them out: fixed arrays updated in place. Slots at and
 beyond `size` hold left-over or arbitrary contents. Every operation is proved against
 the functions of BLinkSplit on the used part of the arrays.
 */
module BLinkNode {
  import opened BLinkSplit

  /** Shifts [from, to) one to the right (memmove). */
  method MoveRight<T>(a: array<T>, from: nat, to: nat)
    requires from <= to < a.Length
    modifies a
    ensures forall i :: 0 <= i < from || to < i < a.Length ==> a[i] == old(a[i])
    ensures forall i :: from < i <= to ==> a[i] == old(a[i - 1])
  {
    var j := to;
    while j > from
      invariant from <= j <= to
      invariant forall i :: 0 <= i < j || to < i < a.Length ==> a[i] == old(a[i])
      invariant forall i :: j < i <= to ==> a[i] == old(a[i - 1])
    {
      a[j] := a[j - 1];
      j := j - 1;
    }
  }

  /** Makes room at i in the first n slots and stores x there. */
  method InsertInto<T>(a: array<T>, i: nat, n: nat, x: T)
    requires i <= n < a.Length
    modifies a
    ensures a[..n + 1] == InsertAt(old(a[..n]), i, x) && a[n + 1..] == old(a[n + 1..])
  {
    ghost var was := a[..n];
    MoveRight(a, i, n);
    a[i] := x;
    Moved(was, a[..n + 1], i, x);
  }

  lemma Moved<T>(was: seq<T>, now: seq<T>, i: nat, x: T)
    requires i <= |was| && |now| == |was| + 1 && now[i] == x
    requires forall j :: 0 <= j < i ==> now[j] == was[j]
    requires forall j :: i < j < |now| ==> now[j] == was[j - 1]
    ensures now == InsertAt(was, i, x)
  {
  }

  /** memcpy of `count` slots. */
  method CopySlots<T>(source: array<T>, from: nat, target: array<T>, to: nat, count: nat)
    requires from + count <= source.Length && to + count <= target.Length && source != target
    modifies target
    ensures target[to..to + count] == source[from..from + count]
    ensures forall i :: 0 <= i < target.Length && !(to <= i < to + count) ==> target[i] == old(target[i])
  {
    for i := 0 to count
      invariant forall j :: to <= j < to + i ==> target[j] == source[from + j - to]
      invariant forall j :: 0 <= j < target.Length && !(to <= j < to + i) ==> target[j] == old(target[j])
    {
      target[to + i] := source[from + i];
    }
  }

  class Node {
    /** The used part of the arrays. */
    ghost var Keys: seq<Key>
    ghost var Values: seq<Value>
    ghost var Seps: seq<Node?>

    const isLeaf: bool
    const capacity: nat
    const keys: array<Key>
    const values: array<Value>
    const separators: array<Node?>
    var highKey: Key
    var rightSibling: Node?
    var parent: Node?
    var size: nat

    ghost predicate Valid()
      reads this, keys, values, separators
    {
      && size <= capacity == keys.Length && 2 <= capacity && keys != values && Keys == keys[..size]
      && (isLeaf ==> values.Length == capacity && Values == values[..size])
      && (!isLeaf ==> separators.Length == capacity + 1 && Seps == separators[..size + 1])
    }

    constructor (leaf: bool, capacity: nat, parent: Node?, maxKey: Key)
      requires 2 <= capacity
      ensures Valid() && isLeaf == leaf && this.capacity == capacity && Keys == [] && Values == [] && size == 0
      ensures highKey == maxKey && rightSibling == null && this.parent == parent
      ensures fresh(keys) && fresh(values) && fresh(separators)
    {
      isLeaf := leaf;
      this.capacity := capacity;
      this.parent := parent;
      highKey, rightSibling, size := maxKey, null, 0;
      keys := new Key[capacity];
      values := new Value[if leaf then capacity else 0];
      separators := new Node?[if leaf then 0 else capacity + 1](_ => null);
      Keys, Values, Seps := [], [], if leaf then [] else [null];
    }

    predicate IsFull()
      reads this
    {
      size >= capacity
    }

    function Index(key: Key): (i: nat)
      requires Valid() && Sorted(Keys)
      reads this, keys, values, separators
      ensures i <= size && (forall j :: 0 <= j < i ==> keys[j] < key) && (forall j :: i <= j < size ==> key <= keys[j])
    {
      LowerBound(keys[..size], key)
    }

    /** Binary search for the child of a key. */
    method Child(key: Key) returns (child: Node?)
      requires Valid() && !isLeaf && Sorted(Keys)
      ensures child == Route(Keys, Seps, key)
    {
      var low: int, high: int := 0, size - 1;
      while low <= high
        invariant 0 <= low <= high + 1 <= size
        invariant forall i :: 0 <= i < low ==> keys[i] <= key
        invariant forall i :: high < i < size ==> key < keys[i]
      {
        var mid := (low + high) / 2;
        if keys[mid] <= key {
          low := mid + 1;
        } else {
          high := mid - 1;
        }
      }
      SlotUnique(Keys, key, high + 1);
      child := separators[high + 1];
    }

    method InsertSeparator(index: nat, separator: Node?, key: Key)
      requires Valid() && !isLeaf && index <= size < capacity
      modifies this`size, this`Keys, this`Seps, keys, separators
      ensures Valid() && Keys == InsertAt(old(Keys), index, key) && Seps == InsertAt(old(Seps), index + 1, separator)
    {
      InsertInto(keys, index, size, key);
      InsertInto(separators, index + 1, size + 1, separator);
      size := size + 1;
      Keys, Seps := keys[..size], separators[..size + 1];
    }

    method InsertValue(index: nat, value: Value, key: Key)
      requires Valid() && isLeaf && index <= size < capacity
      modifies this`size, this`Keys, this`Values, keys, values
      ensures Valid() && Keys == InsertAt(old(Keys), index, key) && Values == InsertAt(old(Values), index, value)
      ensures size == old(size) + 1 && keys[size..] == old(keys[size + 1..]) && values[size..] == old(values[size + 1..])
    {
      InsertInto(keys, index, size, key);
      InsertInto(values, index, size, value);
      size := size + 1;
      Keys, Values := keys[..size], values[..size];
    }

    /** Inserts a separator where its key belongs. */
    method InsertChild(separator: Node?, key: Key)
      requires Valid() && !isLeaf && size < capacity && Sorted(Keys)
      modifies this`size, this`Keys, this`Seps, keys, separators
      ensures Valid() && var i := LowerBound(old(Keys), key); Keys == InsertAt(old(Keys), i, key) && Seps == InsertAt(old(Seps), i + 1, separator)
    {
      LowerBoundUnique(Keys, key, Index(key));
      InsertSeparator(Index(key), separator, key);
    }

    /** Inserts a pair where its key belongs. */
    method InsertPair(value: Value, key: Key)
      requires Valid() && isLeaf && size < capacity && Sorted(Keys)
      modifies this`size, this`Keys, this`Values, keys, values
      ensures Valid() && var i := LowerBound(old(Keys), key); Keys == InsertAt(old(Keys), i, key) && Values == InsertAt(old(Values), i, value)
      ensures size == old(size) + 1 && keys[size..] == old(keys[size + 1..]) && values[size..] == old(values[size + 1..])
    {
      LowerBoundUnique(Keys, key, Index(key));
      InsertValue(Index(key), value, key);
    }

    /** Shrinks the used part; the slots beyond keep their contents. */
    method SetSize(n: nat)
      requires Valid() && n <= size
      modifies this`size, this`Keys, this`Values, this`Seps
      ensures Valid() && size == n && Keys == old(Keys)[..n]
      ensures isLeaf ==> Values == old(Values)[..n]
      ensures !isLeaf ==> Seps == old(Seps)[..n + 1]
    {
      size := n;
      Keys := Keys[..n];
      Values := if isLeaf then Values[..n] else Values;
      Seps := if isLeaf then Seps else Seps[..n + 1];
    }

    method ContainsSeparator(separator: Node?) returns (r: bool)
      requires Valid() && !isLeaf
      ensures r <==> separator in Seps
    {
      for i := 0 to size + 1
        invariant forall j :: 0 <= j < i ==> separators[j] != separator
      {
        if separators[i] == separator {
          return true;
        }
      }
      return false;
    }
  }

  /** The key every node starts with as its high key. */
  const MAX_KEY: Key := 0xFFFF_FFFF_FFFF_FFFF

  /** Two nodes own their arrays separately. */
  ghost predicate Apart(a: Node, b: Node) {
    a != b && a.keys != b.keys && a.keys != b.values && a.values != b.keys && a.values != b.values && a.separators != b.separators
  }

  // ---------------------------------------------------------------- leaves

  /** A new leaf with the pairs of a full one from a slot on, and its high key, right sibling and parent. */
  method CopyUpper(leaf: Node, from: nat) returns (right: Node)
    requires leaf.Valid() && leaf.isLeaf && leaf.IsFull() && from <= leaf.size
    ensures fresh(right) && fresh(right.keys) && fresh(right.values) && fresh(right.separators) && Apart(leaf, right)
    ensures right.Valid() && right.isLeaf && right.capacity == leaf.capacity
    ensures right.Keys == leaf.Keys[from..] && right.Values == leaf.Values[from..]
    ensures right.highKey == leaf.highKey && right.rightSibling == leaf.rightSibling && right.parent == leaf.parent
  {
    var count := leaf.capacity - from;
    right := new Node(true, leaf.capacity, leaf.parent, MAX_KEY);
    CopySlots(leaf.keys, from, right.keys, 0, count);
    CopySlots(leaf.values, from, right.values, 0, count);
    right.highKey := leaf.highKey;
    right.rightSibling := leaf.rightSibling;
    right.size := count;
    right.Keys, right.Values := right.keys[..count], right.values[..count];
  }

  /** Moves the upper half of a full leaf into a new right sibling. */
  method HalveLeaf(leaf: Node) returns (right: Node)
    requires leaf.Valid() && leaf.isLeaf && leaf.IsFull()
    modifies leaf`size, leaf`rightSibling, leaf`Keys, leaf`Values, leaf`Seps
    ensures fresh(right) && fresh(right.keys) && fresh(right.values) && fresh(right.separators) && Apart(leaf, right)
    ensures leaf.Valid() && right.Valid() && right.isLeaf && right.capacity == leaf.capacity
    ensures var left := leaf.capacity / 2;
      && leaf.Keys == old(leaf.Keys)[..left] && leaf.Values == old(leaf.Values)[..left]
      && right.Keys == old(leaf.Keys)[left..] && right.Values == old(leaf.Values)[left..]
    ensures right.highKey == leaf.highKey && right.rightSibling == old(leaf.rightSibling)
    ensures leaf.rightSibling == right && right.parent == leaf.parent
  {
    var leftSize := leaf.capacity / 2;
    right := CopyUpper(leaf, leftSize);
    leaf.SetSize(leftSize);
    leaf.rightSibling := right;
  }

  /** Inserts a pair into the half it belongs to. */
  method InsertHalf(leaf: Node, right: Node, key: Key, value: Value)
    requires leaf.Valid() && right.Valid() && leaf.isLeaf && right.isLeaf && Apart(leaf, right) && Sorted(leaf.Keys) && Sorted(right.Keys)
    requires leaf.size < leaf.capacity && 0 < right.size < right.capacity
    modifies leaf`size, leaf`Keys, leaf`Values, leaf.keys, leaf.values, right`size, right`Keys, right`Values, right.keys, right.values
    ensures leaf.Valid() && right.Valid() && right.size > 0
    ensures var ks, vs, i := old(leaf.Keys), old(leaf.Values), LowerBound(old(leaf.Keys), key);
      if key < old(right.Keys)[0] then leaf.Keys == InsertAt(ks, i, key) && leaf.Values == InsertAt(vs, i, value) else leaf.Keys == ks && leaf.Values == vs
    ensures var ks, vs, i := old(right.Keys), old(right.Values), LowerBound(old(right.Keys), key);
      if key < ks[0] then right.Keys == ks && right.Values == vs else right.Keys == InsertAt(ks, i, key) && right.Values == InsertAt(vs, i, value)
    ensures leaf.size >= old(leaf.size) && leaf.keys[leaf.size..] == old(leaf.keys[..])[leaf.size..] && leaf.values[leaf.size..] == old(leaf.values[..])[leaf.size..]
  {
    if key < right.keys[0] {
      leaf.InsertPair(value, key);
    } else {
      right.InsertPair(value, key);
    }
  }

  lemma UpperHalf(keys: seq<Key>, half: nat, size: nat)
    requires Sorted(keys) && half < |keys| && half <= size <= |keys|
    ensures forall j :: 0 <= j < |keys| - size ==> keys[half] <= keys[size..][j]
  {
  }

  /** Which half a pair goes to. */
  lemma SplitLeafParts(keys: seq<Key>, vals: seq<Value>, key: Key, value: Value)
    requires |keys| >= 2 && |vals| == |keys| && Sorted(keys)
    ensures var p, m := SplitLeaf(keys, vals, key, value), |keys| / 2;
      && Sorted(keys[..m]) && Sorted(keys[m..]) && p.rightKeys != [] && p.rightKeys[0] == keys[m] == keys[m..][0]
      && (var i := LowerBound(keys[..m], key);
          if key < keys[m] then p.leftKeys == InsertAt(keys[..m], i, key) && p.leftVals == InsertAt(vals[..m], i, value)
          else p.leftKeys == keys[..m] && p.leftVals == vals[..m])
      && (var i := LowerBound(keys[m..], key);
          if key < keys[m] then p.rightKeys == keys[m..] && p.rightVals == vals[m..]
          else p.rightKeys == InsertAt(keys[m..], i, key) && p.rightVals == InsertAt(vals[m..], i, value))
  {
    SortedPrefix(keys, |keys| / 2);
    SortedSuffix(keys, |keys| / 2);
  }

  /** Halves a full leaf and inserts a pair; the high key is still to be set. */
  method DivideLeaf(leaf: Node, key: Key, value: Value) returns (right: Node)
    requires leaf.Valid() && leaf.isLeaf && leaf.IsFull() && Sorted(leaf.Keys)
    modifies leaf`size, leaf`rightSibling, leaf`Keys, leaf`Values, leaf`Seps, leaf.keys, leaf.values
    ensures fresh(right) && leaf.Valid() && right.Valid() && right.isLeaf && right.capacity == leaf.capacity && leaf.size >= leaf.capacity / 2
    ensures var p := SplitLeaf(old(leaf.Keys), old(leaf.Values), key, value);
      && leaf.Keys == p.leftKeys && leaf.Values == p.leftVals && right.Keys == p.rightKeys && right.Values == p.rightVals
      && p.rightKeys != [] && p.rightKeys[0] == old(leaf.Keys)[leaf.capacity / 2]
    ensures leaf.keys[leaf.size..] == old(leaf.Keys)[leaf.size..] && leaf.values[leaf.size..] == old(leaf.Values)[leaf.size..]
    ensures right.highKey == leaf.highKey && right.rightSibling == old(leaf.rightSibling)
    ensures leaf.rightSibling == right && right.parent == leaf.parent
  {
    SplitLeafParts(leaf.Keys, leaf.Values, key, value);
    ghost var ks, vs := leaf.Keys, leaf.Values;
    right := HalveLeaf(leaf);
    assert leaf.keys[..] == ks && leaf.values[..] == vs;
    InsertHalf(leaf, right, key, value);
  }

  /**
   Splits a full leaf while inserting a pair: the leaf keeps the left part of SplitLeaf. Its
   unused slots keep what was there, pairs at or above its new high key.
   */
  method SplitLeafNode(leaf: Node, key: Key, value: Value) returns (right: Node)
    requires leaf.Valid() && leaf.isLeaf && leaf.IsFull() && Sorted(leaf.Keys)
    modifies leaf`size, leaf`highKey, leaf`rightSibling, leaf`Keys, leaf`Values, leaf`Seps, leaf.keys, leaf.values
    ensures fresh(right) && leaf.Valid() && right.Valid() && right.isLeaf && right.capacity == leaf.capacity
    ensures var p := SplitLeaf(old(leaf.Keys), old(leaf.Values), key, value);
      && leaf.Keys == p.leftKeys && leaf.Values == p.leftVals && right.Keys == p.rightKeys && right.Values == p.rightVals
      && p.rightKeys != [] && leaf.highKey == p.rightKeys[0]
    ensures leaf.keys[leaf.size..] == old(leaf.Keys)[leaf.size..] && leaf.values[leaf.size..] == old(leaf.Values)[leaf.size..]
    ensures forall j :: 0 <= j < leaf.capacity - leaf.size ==> leaf.highKey <= leaf.keys[leaf.size..][j]
    ensures right.highKey == old(leaf.highKey) && right.rightSibling == old(leaf.rightSibling)
    ensures leaf.rightSibling == right && right.parent == leaf.parent
  {
    ghost var ks := leaf.Keys;
    right := DivideLeaf(leaf, key, value);
    UpperHalf(ks, leaf.capacity / 2, leaf.size);
    leaf.highKey := right.keys[0];
  }

  // ---------------------------------------------------------------- inner nodes

  /** Moves the upper part of an inner node into a new one: keys from `from` on, `first` in slot 0. */
  method MoveUpper(inner: Node, right: Node, from: nat, first: Node?)
    requires inner.Valid() && right.Valid() && !inner.isLeaf && !right.isLeaf && inner.IsFull()
    requires right.capacity == inner.capacity && from <= inner.size && Apart(inner, right)
    modifies right`size, right`Keys, right`Seps, right.keys, right.separators
    ensures right.Valid() && right.Keys == inner.Keys[from..] && right.Seps == [first] + inner.Seps[from + 1..]
  {
    var count := inner.size - from;
    CopySlots(inner.keys, from, right.keys, 0, count);
    CopySlots(inner.separators, from + 1, right.separators, 1, count);
    right.separators[0] := first;
    right.size := count;
    right.Keys, right.Seps := right.keys[..count], right.separators[..count + 1];
  }

  lemma HeadTail<T>(s: seq<T>, i: nat)
    requires i < |s|
    ensures [s[i]] + s[i + 1..] == s[i..]
  {
  }

  /** The same with the child of slot `from` in slot 0. */
  method MoveSuffix(inner: Node, right: Node, from: nat)
    requires inner.Valid() && right.Valid() && !inner.isLeaf && !right.isLeaf && inner.IsFull()
    requires right.capacity == inner.capacity && from <= inner.size && Apart(inner, right)
    modifies right`size, right`Keys, right`Seps, right.keys, right.separators
    ensures right.Valid() && right.Keys == inner.Keys[from..] && right.Seps == inner.Seps[from..]
  {
    MoveUpper(inner, right, from, inner.separators[from]);
    HeadTail(inner.Seps, from);
  }

  /** The new key belongs left of the key that moves up. */
  method DistributeLow(inner: Node, right: Node, key: Key, separator: Node) returns (keyUp: Key)
    requires inner.Valid() && !inner.isLeaf && inner.IsFull() && right.Valid() && !right.isLeaf
    requires right.capacity == inner.capacity && Apart(inner, right)
    requires separator != inner && separator != right && Sorted(inner.Keys[..inner.capacity / 2 - 1])
    modifies inner`size, inner`Keys, inner`Values, inner`Seps, inner.keys, inner.separators, separator`parent
    modifies right`size, right`Keys, right`Seps, right.keys, right.separators
    ensures inner.Valid() && right.Valid() && separator.parent == inner
    ensures var left, ks, ss := inner.capacity / 2, old(inner.Keys), old(inner.Seps);
      var i := LowerBound(ks[..left - 1], key);
      && inner.Keys == InsertAt(ks[..left - 1], i, key) && inner.Seps == InsertAt(ss[..left], i + 1, separator)
      && keyUp == ks[left - 1] && right.Keys == ks[left..] && right.Seps == ss[left..]
  {
    var left := inner.capacity / 2;
    MoveSuffix(inner, right, left);
    keyUp := inner.keys[left - 1];
    ShrinkAndInsert(inner, left - 1, key, separator);
  }

  /** Keeps the first keys of an inner node and inserts a separator among them. */
  method ShrinkAndInsert(inner: Node, count: nat, key: Key, separator: Node)
    requires inner.Valid() && !inner.isLeaf && count < inner.size && Sorted(inner.Keys[..count]) && separator != inner
    modifies inner`size, inner`Keys, inner`Values, inner`Seps, inner.keys, inner.separators, separator`parent
    ensures inner.Valid() && separator.parent == inner
    ensures var ks, ss := old(inner.Keys)[..count], old(inner.Seps)[..count + 1]; var i := LowerBound(ks, key);
      inner.Keys == InsertAt(ks, i, key) && inner.Seps == InsertAt(ss, i + 1, separator)
  {
    inner.SetSize(count);
    separator.parent := inner;
    inner.InsertChild(separator, key);
  }

  /** The new key itself moves up. */
  method DistributeMiddle(inner: Node, right: Node, separator: Node)
    requires inner.Valid() && !inner.isLeaf && inner.IsFull() && right.Valid() && !right.isLeaf
    requires right.capacity == inner.capacity && Apart(inner, right)
    modifies inner`size, inner`Keys, inner`Values, inner`Seps
    modifies right`size, right`Keys, right`Seps, right.keys, right.separators
    ensures inner.Valid() && right.Valid()
    ensures var left, ks, ss := inner.capacity / 2, old(inner.Keys), old(inner.Seps);
      && inner.Keys == ks[..left] && inner.Seps == ss[..left + 1]
      && right.Keys == ks[left..] && right.Seps == [separator] + ss[left + 1..]
  {
    MoveUpper(inner, right, inner.capacity / 2, separator);
    inner.SetSize(inner.capacity / 2);
  }

  /** The new key belongs right of the key that moves up. */
  method DistributeHigh(inner: Node, right: Node, key: Key, separator: Node) returns (keyUp: Key)
    requires inner.Valid() && !inner.isLeaf && inner.IsFull() && right.Valid() && !right.isLeaf
    requires right.capacity == inner.capacity && Apart(inner, right)
    requires Sorted(inner.Keys[inner.capacity / 2 + 1..])
    modifies inner`size, inner`Keys, inner`Values, inner`Seps
    modifies right`size, right`Keys, right`Seps, right.keys, right.separators
    ensures inner.Valid() && right.Valid()
    ensures var left, ks, ss := inner.capacity / 2, old(inner.Keys), old(inner.Seps);
      var i := LowerBound(ks[left + 1..], key);
      && inner.Keys == ks[..left] && inner.Seps == ss[..left + 1] && keyUp == ks[left]
      && right.Keys == InsertAt(ks[left + 1..], i, key) && right.Seps == InsertAt(ss[left + 1..], i + 1, separator)
  {
    var left := inner.capacity / 2;
    MoveSuffix(inner, right, left + 1);
    inner.SetSize(left);
    keyUp := inner.keys[left];
    right.InsertChild(separator, key);
  }

  /** The three branches of the inner split, on keys and separators. */
  method DistributeInner(inner: Node, right: Node, key: Key, separator: Node) returns (keyUp: Key)
    requires inner.Valid() && !inner.isLeaf && inner.IsFull() && right.Valid() && !right.isLeaf
    requires right.capacity == inner.capacity && Apart(inner, right)
    requires Sorted(inner.Keys) && separator != inner && separator != right
    modifies inner`size, inner`Keys, inner`Values, inner`Seps, inner.keys, inner.separators, separator`parent
    modifies right`size, right`Keys, right`Seps, right.keys, right.separators
    ensures inner.Valid() && right.Valid()
    ensures SplitInner(old(inner.Keys), old(inner.Seps), key, separator)
      == InnerSplit(inner.Keys, inner.Seps, keyUp, right.Keys, right.Seps)
    ensures key < old(inner.Keys)[inner.capacity / 2 - 1] ==> separator.parent == inner
  {
    var left := inner.capacity / 2;
    SortedPrefix(inner.Keys, left - 1);
    SortedSuffix(inner.Keys, left + 1);
    if key < inner.keys[left - 1] {
      keyUp := DistributeLow(inner, right, key, separator);
    } else if key < inner.keys[left] {
      DistributeMiddle(inner, right, separator);
      keyUp := key;
    } else {
      keyUp := DistributeHigh(inner, right, key, separator);
    }
  }

  /** Makes the new node the parent of its children. */
  method AdoptChildren(right: Node)
    requires right.Valid() && !right.isLeaf && null !in right.Seps
    modifies (set c: Node | c in right.Seps)`parent
    ensures forall c: Node :: c in right.Seps ==> c.parent == right
  {
    for i := 0 to right.size + 1
      invariant forall j :: 0 <= j < i ==> right.Seps[j].parent == right
    {
      right.separators[i].parent := right;
    }
  }

  /** The children of the right half come from the node or are the new separator. */
  lemma SplitChildren(keys: seq<Key>, seps: seq<Node?>, key: Key, sep: Node)
    requires |keys| >= 2 && |seps| == |keys| + 1 && Sorted(keys)
    ensures forall c :: c in SplitInner(keys, seps, key, sep).rightSeps ==> c in seps || c == sep
  {
  }

  /** Distributes a full inner node over itself and its new right sibling, and links the two. */
  method LinkHalves(inner: Node, right: Node, key: Key, separator: Node) returns (keyUp: Key)
    requires inner.Valid() && !inner.isLeaf && inner.IsFull() && right.Valid() && !right.isLeaf
    requires right.capacity == inner.capacity && Apart(inner, right)
    requires Sorted(inner.Keys) && separator != inner && separator != right
    modifies inner`size, inner`highKey, inner`rightSibling, inner`Keys, inner`Values, inner`Seps, inner.keys, inner.separators
    modifies right`size, right`highKey, right`rightSibling, right`Keys, right`Seps, right.keys, right.separators, separator`parent
    ensures inner.Valid() && right.Valid()
    ensures SplitInner(old(inner.Keys), old(inner.Seps), key, separator)
      == InnerSplit(inner.Keys, inner.Seps, keyUp, right.Keys, right.Seps)
    ensures right.highKey == old(inner.highKey) && right.rightSibling == old(inner.rightSibling)
    ensures inner.highKey == keyUp && inner.rightSibling == right
    ensures key < old(inner.Keys)[inner.capacity / 2 - 1] ==> separator.parent == inner
  {
    right.highKey := inner.highKey;
    keyUp := DistributeInner(inner, right, key, separator);
    right.rightSibling := inner.rightSibling;
    inner.rightSibling := right;
    inner.highKey := keyUp;
  }

  /** Splits a full inner node while inserting a separator, and re-parents the moved children. */
  method SplitInnerNode(inner: Node, key: Key, separator: Node) returns (right: Node, keyUp: Key)
    requires inner.Valid() && !inner.isLeaf && inner.IsFull() && Sorted(inner.Keys)
    requires null !in inner.Seps && inner !in inner.Seps && separator != inner
    modifies inner`size, inner`highKey, inner`rightSibling, inner`Keys, inner`Values, inner`Seps, inner.keys, inner.separators
    modifies (set c: Node | c in inner.Seps)`parent, separator`parent
    ensures fresh(right) && inner.Valid() && right.Valid() && !right.isLeaf && right.capacity == inner.capacity
    ensures SplitInner(old(inner.Keys), old(inner.Seps), key, separator)
      == InnerSplit(inner.Keys, inner.Seps, keyUp, right.Keys, right.Seps)
    ensures right.highKey == old(inner.highKey) && right.rightSibling == old(inner.rightSibling) && right.parent == inner.parent
    ensures inner.highKey == keyUp && inner.rightSibling == right
    ensures forall c: Node :: c in right.Seps ==> c.parent == right
    ensures key < old(inner.Keys)[inner.capacity / 2 - 1] && separator !in right.Seps ==> separator.parent == inner
  {
    ghost var ks, ss := inner.Keys, inner.Seps;
    right := new Node(false, inner.capacity, inner.parent, MAX_KEY);
    keyUp := LinkHalves(inner, right, key, separator);
    SplitChildren(ks, ss, key, separator);
    AdoptChildren(right);
  }

  /** Grows the tree by one level. */
  method CreateNewRoot(left: Node, right: Node, key: Key, capacity: nat) returns (root: Node)
    requires left != right && 2 <= capacity
    modifies left`parent, right`parent
    ensures fresh(root) && root.Valid() && !root.isLeaf && root.parent == null && root.rightSibling == null
    ensures root.highKey == MAX_KEY && root.Keys == [key] && root.Seps == [left, right]
    ensures left.parent == root && right.parent == root
  {
    root := new Node(false, capacity, null, MAX_KEY);
    left.parent := root;
    root.separators[0] := left;
    root.Seps := [left];
    right.parent := root;
    root.InsertSeparator(0, right, key);
  }

  // ---------------------------------------------------------------- lookup in a leaf

  datatype Option<T> = None | Some(value: T)

  /**
   The leaf part of a lookup. It compares the key with the slot at its lower bound without
   testing that the slot is in use: a present key is found, and an absent key is reported
   absent exactly when its lower bound is a used slot or the slot behind the used ones
   differs. In a full leaf that slot is past the arrays; what is there is a parameter.
   */
  method LookupLeaf(leaf: Node, key: Key, pastKey: Key, pastValue: Value) returns (found: Option<Value>)
    requires leaf.Valid() && leaf.isLeaf && Sorted(leaf.Keys)
    ensures key in leaf.Keys ==> found == Some(leaf.Values[LowerBound(leaf.Keys, key)])
    ensures key !in leaf.Keys ==>
      (found.None? <==>
        || LowerBound(leaf.Keys, key) < leaf.size
        || key != if leaf.size < leaf.capacity then leaf.keys[leaf.size] else pastKey)
  {
    var index := leaf.Index(key);
    LowerBoundUnique(leaf.Keys, key, index);
    if index == leaf.capacity {
      found := if pastKey == key then Some(pastValue) else None;
    } else {
      found := if leaf.keys[index] == key then Some(leaf.values[index]) else None;
    }
  }

  /** The first leaf of an empty tree: a lookup of the key that its first, never written slot holds finds it. */
  method AbsentKeyFound(pastKey: Key, pastValue: Value) returns (leaf: Node, key: Key, found: Option<Value>)
    ensures leaf.Valid() && leaf.isLeaf && leaf.Keys == [] && leaf.parent == null && leaf.rightSibling == null
    ensures key !in leaf.Keys && found.Some?
  {
    leaf := new Node(true, 2, null, MAX_KEY);
    key := leaf.keys[0];
    found := LookupLeaf(leaf, key, pastKey, pastValue);
  }
}
