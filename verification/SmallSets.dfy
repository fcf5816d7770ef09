/**
 The two small containers consolidation keeps on the stack: a sorted array set that
 grows at its end and is consumed from its front, and a set with a bloom filter in
 front of an exact scan.
 */
module SmallSets {

  function Inserted<T>(s: seq<T>, i: nat, v: T): seq<T>
    requires i <= |s|
  {
    s[..i] + [v] + s[i..]
  }

  /** The first position whose element is not below v, as the scan of Insert finds it. */
  function FirstNotLess<T>(s: seq<T>, v: T, less: (T, T) -> bool): (i: nat)
    ensures i <= |s|
    ensures forall j :: 0 <= j < i ==> less(s[j], v)
    ensures i < |s| ==> !less(s[i], v)
  {
    if s == [] || !less(s[0], v) then 0 else 1 + FirstNotLess(s[1..], v, less)
  }

  lemma FirstNotLessUnique<T>(s: seq<T>, v: T, less: (T, T) -> bool, i: nat)
    requires i <= |s| && (forall j :: 0 <= j < i ==> less(s[j], v)) && (i < |s| ==> !less(s[i], v))
    ensures FirstNotLess(s, v, less) == i
  {
  }

  /** std::upper_bound: the first position whose element is above v. */
  function FirstGreater<T>(s: seq<T>, v: T, less: (T, T) -> bool): (i: nat)
    ensures i <= |s|
    ensures forall j :: 0 <= j < i ==> !less(v, s[j])
    ensures i < |s| ==> less(v, s[i])
  {
    if s == [] || less(v, s[0]) then 0 else 1 + FirstGreater(s[1..], v, less)
  }

  /** The first element inserted under an equality class stays; later ones are dropped. */
  function InsertedOnce<T>(s: seq<T>, v: T, less: (T, T) -> bool, eq: (T, T) -> bool): seq<T> {
    var i := FirstNotLess(s, v, less);
    if i < |s| && eq(s[i], v) then s else Inserted(s, i, v)
  }

  /** Elements before i in place, the value at i, the others one to the right: that is an insertion. */
  lemma ShiftedRight<T>(d: seq<T>, start: nat, end: nat, was: seq<T>, i: nat, value: T)
    requires start <= i < end <= |d| && |was| == end - start - 1
    requires forall m :: start <= m < i ==> d[m] == was[m - start]
    requires d[i] == value
    requires forall m :: i < m < end ==> d[m] == was[m - start - 1]
    ensures d[start..end] == Inserted(was, i - start, value)
  {
  }

  class SortedSmallSet<T> {
    ghost var Contents: seq<T>
    const data: array<T>
    const less: (T, T) -> bool
    const eq: (T, T) -> bool
    var start: nat
    var end: nat

    ghost predicate Valid()
      reads this, data
    {
      start <= end <= data.Length && Contents == data[start..end]
    }

    constructor (storage: array<T>, less: (T, T) -> bool, eq: (T, T) -> bool)
      ensures Valid() && Contents == []
      ensures data == storage && this.less == less && this.eq == eq && start == 0 && end == 0
    {
      data := storage;
      this.less := less;
      this.eq := eq;
      start, end := 0, 0;
      Contents := [];
    }

    /** std::copy_backward: moves [i, end) one to the right. */
    method MoveRight(i: nat)
      requires start <= i <= end < data.Length
      modifies data
      ensures forall m :: 0 <= m < i ==> data[m] == old(data[m])
      ensures forall m :: i < m <= end ==> data[m] == old(data[m - 1])
    {
      var j := end;
      while j > i
        invariant i <= j <= end
        invariant forall m :: 0 <= m < j ==> data[m] == old(data[m])
        invariant forall m :: j < m <= end ==> data[m] == old(data[m - 1])
      {
        data[j] := data[j - 1];
        j := j - 1;
      }
    }

    /** Makes room at position i and stores the value there. */
    method Shift(i: nat, value: T)
      requires Valid() && start <= i <= end < data.Length
      modifies this`end, this`Contents, data
      ensures Valid() && end == old(end) + 1
      ensures Contents == Inserted(old(Contents), i - start, value)
    {
      ghost var was := Contents;
      assert forall m :: start <= m < end ==> data[m] == was[m - start];
      MoveRight(i);
      data[i] := value;
      end := end + 1;
      Contents := Inserted(was, i - start, value);
      ShiftedRight(data[..], start, end, was, i, value);
    }

    /** Inserts in order unless an equal element is present: the earlier insertion wins. */
    method Insert(value: T)
      requires Valid() && end < data.Length
      modifies this`end, this`Contents, data
      ensures Valid() && old(end) <= end <= old(end) + 1
      ensures Contents == InsertedOnce(old(Contents), value, less, eq)
    {
      var it := start;
      while it < end && less(data[it], value)
        invariant start <= it <= end
        invariant forall m :: 0 <= m < it - start ==> less(Contents[m], value)
      {
        it := it + 1;
      }
      FirstNotLessUnique(Contents, value, less, it - start);
      if it == end || !eq(data[it], value) {
        Shift(it, value);
      }
    }

    /** Inserts after every element that is not above the value. */
    method InsertNoDedup(value: T)
      requires Valid() && end < data.Length
      modifies this`end, this`Contents, data
      ensures Valid() && end == old(end) + 1
      ensures Contents == Inserted(old(Contents), FirstGreater(old(Contents), value, less), value)
    {
      var it := FirstGreater(data[start..end], value, less);
      Shift(start + it, value);
    }

    method Invalidate()
      requires Valid()
      modifies this`end, this`Contents
      ensures Valid() && Contents == [] && end == start
    {
      end := start;
      Contents := [];
    }

    function GetFront(): (front: T)
      requires Valid() && start < end
      reads this, data
      ensures front == Contents[0]
    {
      data[start]
    }

    method PopFront() returns (front: T)
      requires Valid() && start < end
      modifies this`start, this`Contents
      ensures Valid() && start == old(start) + 1
      ensures front == old(Contents)[0] && Contents == old(Contents)[1..]
    {
      front := data[start];
      start := start + 1;
      Contents := Contents[1..];
    }
  }

  /** An exact set of keys: the filter's bit says no quickly, a scan decides otherwise. */
  class BloomFilter {
    ghost var Contents: set<int>
    const data: array<int>
    const bits: array<bool>
    const hash: int -> nat
    var count: nat

    /** Byte (h & 0xF8) >> 3 and bit h & 7 of a 32-byte array. */
    function Slot(value: int): (s: nat)
      ensures s < 256
    {
      hash(value) / 8 % 32 * 8 + hash(value) % 8
    }

    ghost predicate Valid()
      reads this, data, bits
    {
      && count <= data.Length && bits.Length == 256
      && (forall i :: 0 <= i < count ==> bits[Slot(data[i])])
      && Contents == set i | 0 <= i < count :: data[i]
    }

    constructor (storage: array<int>, hash: int -> nat)
      ensures Valid() && Contents == {} && data == storage && fresh(bits) && count == 0
    {
      data := storage;
      bits := new bool[256](_ => false);
      this.hash := hash;
      count := 0;
      Contents := {};
    }

    method Insert(value: int)
      requires Valid() && count < data.Length
      modifies this, data, bits
      ensures Valid() && Contents == old(Contents) + {value} && count == old(count) + 1
    {
      data[count] := value;
      count := count + 1;
      bits[Slot(value)] := true;
      Contents := Contents + {value};
      assert forall i :: 0 <= i < count ==> data[i] == if i < count - 1 then old(data[i]) else value;
    }

    /** The filter never loses an element and never invents one, whatever the hash. */
    method Exists(value: int) returns (r: bool)
      requires Valid()
      ensures r <==> value in Contents
    {
      if !bits[Slot(value)] {
        return false;
      }
      for i := 0 to count
        invariant forall j :: 0 <= j < i ==> data[j] != value
      {
        if value == data[i] {
          return true;
        }
      }
      return false;
    }
  }
}
