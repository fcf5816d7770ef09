/** The array of a node under construction, and the scan that bounds the records to merge. */
module BwBuffer {
  import opened BwItems
  import opened BwRecords
  import opened SmallSets

  /** The array of the node under construction; its capacity is the chain's item count. */
  class ItemBuffer {
    ghost var Contents: seq<Item>
    const data: array<Item>
    var size: nat

    ghost predicate Valid()
      reads this, data
    {
      size <= data.Length && Contents == data[..size]
    }

    constructor (capacity: nat)
      ensures Valid() && Contents == [] && fresh(data) && data.Length == capacity
    {
      data := new Item[capacity](_ => Item(0, 0));
      size := 0;
      Contents := [];
    }

    function Items(): (items: seq<Item>)
      requires Valid()
      reads this, data
      ensures items == Contents
    {
      data[..size]
    }

    method PushBack(x: Item)
      requires Valid() && |Contents| < data.Length
      modifies this, data
      ensures Valid() && Contents == old(Contents) + [x]
    {
      data[size] := x;
      size := size + 1;
      Contents := Contents + [x];
    }

    method PushRange(items: seq<Item>, from: nat, to: nat)
      requires Valid() && from <= to <= |items| && |Contents| + (to - from) <= data.Length
      modifies this, data
      ensures Valid() && Contents == old(Contents) + items[from..to]
    {
      for i := from to to
        invariant Valid() && Contents == old(Contents) + items[from..i]
      {
        PushBack(items[i]);
        assert items[from..i + 1] == items[from..i] + [items[i]];
      }
    }
  }

  /** Scans back from the set's end to the first record below the high key. */
  method ScanEnd(high: Bound, sss: SortedSmallSet<Record>) returns (e: nat)
    requires sss.Valid()
    ensures sss.start <= e <= sss.end && e - sss.start == CountBelow(sss.Contents, high)
  {
    e := sss.end;
    ghost var recs := sss.Contents;
    assert recs[..e - sss.start] == recs;
    while e > sss.start && !Below(sss.data[e - 1].item.key, high)
      invariant sss.start <= e <= sss.end
      invariant CountBelow(recs, high) == CountBelow(recs[..e - sss.start], high)
    {
      assert recs[..e - sss.start][..e - 1 - sss.start] == recs[..e - 1 - sss.start];
      e := e - 1;
    }
  }
}
