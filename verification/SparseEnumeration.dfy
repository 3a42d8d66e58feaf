/**
 Enumerating a sparse array: the scan for the next entry and the loop built on it.
 */
module SparseEnumeration {
  import opened SparseMemory
  import opened SparseCounting
  import opened SparseSharing
  import opened SparseHeaps

  /** The buffers of the nodes hold what the snapshot says. */
  ghost predicate Holds(d: Memory)
    reads BuffersOf(d.Keys)
  {
    forall n :: n in d ==> n.data[..] == d[n]
  }

  ghost predicate Readable(z: EmptyNodes, d: Memory, n: SparseArray)
    reads BuffersOf(d.Keys)
  {
    Shaped(d) && z.Shaped(d) && Holds(d) && n in d
  }

  /** Between its operations a heap can be enumerated. */
  lemma ValidIsReadable(heap: SparseHeap, n: SparseArray)
    requires heap.Valid() && n in heap.empty.With(heap.live)
    ensures Readable(heap.empty, heap.Now().mem, n)
  {
    hide Books.Stable;
    StableShaped(heap.Now(), heap.empty);
  }

  /** Where a scan stops: a leaf is scanned to its end, an interior node up to its last child. */
  function ScanEnd(shift: nat, index: nat): nat
    requires shift in {0, 8}
  {
    index - index % Capacity(shift) + if shift == 0 then 0x100 else 0xFF00
  }

  /** `next` is the first key from `index` on that holds something, unless `value` is 0. */
  ghost predicate FirstFrom(d: Memory, n: SparseArray, index: nat, end: nat, value: nat, next: nat)
    requires Shaped(d) && n in d
  {
    && index <= next
    && (forall k :: index <= k < next && k < end ==> Get(d, n, k) == 0)
    && (if value == 0 then next == (if index < end then end else index)
        else next < end && Get(d, n, next) == value)
  }

  lemma LeafEntryIs(z: EmptyNodes, d: Memory, n: SparseArray, key: nat)
    requires Readable(z, d, n) && n.shift == 0
    ensures n.data.Length == DATA_SIZE && n.data[key % DATA_SIZE] == Address(Get(d, n, key))
  {
    assert NodeTyped(n, d[n]);
    assert n.data[..][key % DATA_SIZE] == n.data[key % DATA_SIZE];
  }

  lemma ChildEntryIs(z: EmptyNodes, d: Memory, n: SparseArray, key: nat)
    requires Readable(z, d, n) && n.shift == 8
    ensures n.data.Length == DATA_SIZE && n.data[key / 0x100 % DATA_SIZE].Child?
    ensures var c := n.data[key / 0x100 % DATA_SIZE].node;
      c.shift == 0 && Readable(z, d, c) && Get(d, n, key) == Get(d, c, key)
  {
    assert NodeTyped(n, d[n]);
    assert n.data[..][key / 0x100 % DATA_SIZE] == n.data[key / 0x100 % DATA_SIZE];
  }

  /** The branch of the scan that looks at the entries of a leaf. */
  method FindInLeaf(z: EmptyNodes, ghost d: Memory, sarray: SparseArray, index: nat)
    returns (value: nat, next: nat)
    requires Readable(z, d, sarray) && sarray.shift == 0
    ensures FirstFrom(d, sarray, index, ScanEnd(0, index), value, next)
  {
    hide Get;
    var j := index % DATA_SIZE;
    next := index;
    while j <= 0xff
      invariant j <= 0x100 && next == index - index % DATA_SIZE + j && index <= next
      invariant forall k :: index <= k < next ==> Get(d, sarray, k) == 0
    {
      LeafEntryIs(z, d, sarray, next);
      if sarray.data[j].a != 0 {
        return sarray.data[j].a, next;
      }
      next := next + 1;
      j := j + 1;
    }
    value := 0;
  }

  /** The branch of the scan that walks the children and skips the shared empty node. */
  method FindInChildren(z: EmptyNodes, ghost d: Memory, sarray: SparseArray, index: nat)
    returns (value: nat, next: nat)
    requires Readable(z, d, sarray) && sarray.shift == 8
    ensures FirstFrom(d, sarray, index, ScanEnd(8, index), value, next)
  {
    hide Get, ScanEnd, Shaped, EmptyNodes.Shaped;
    var j := index / 0x100 % DATA_SIZE;
    ghost var first, high := j, index / 0x1_0000;
    value, next := 0, index;
    SplitIndex(index);
    ChildBounds(index, high, first, j, next);
    while j < 0xff
      invariant first <= j && (j <= 0xff || j == first)
      invariant next == if j == first then index else 0x1_0000 * high + 0x100 * j
      invariant forall k :: index <= k < next ==> Get(d, sarray, k) == 0
    {
      ChildBounds(index, high, first, j, next);
      value, next := FindInChild(z, d, sarray, next, j);
      if value != 0 {
        return;
      }
      j := j + 1;
    }
    value := 0;
  }

  lemma SplitIndex(index: nat)
    ensures index == 0x1_0000 * (index / 0x1_0000) + 0x100 * (index / 0x100 % 0x100) + index % 0x100
  {
    assert index / 0x100 / 0x100 == index / 0x1_0000;
  }

  lemma ChildBounds(index: nat, high: nat, first: nat, j: nat, next: nat)
    requires index == 0x1_0000 * high + 0x100 * first + index % 0x100
    requires first <= j < 0x100 && next == if j == first then index else 0x1_0000 * high + 0x100 * j
    ensures next / 0x100 % DATA_SIZE == j && index <= next < 0x1_0000 * high + 0x1_0000
    ensures ScanEnd(0, next) == 0x1_0000 * high + 0x100 * (j + 1)
    ensures ScanEnd(8, index) == 0x1_0000 * high + 0xFF00
    ensures j == 0xff ==> next >= ScanEnd(8, index)
    ensures j < 0xff ==> ScanEnd(0, next) <= ScanEnd(8, index)
  {
    ThreeDigits(high, first, index % 0x100);
    if j > first {
      ThreeDigits(high, j, 0);
    }
  }

  lemma ThreeDigits(high: nat, middle: nat, low: nat)
    requires middle < 0x100 && low < 0x100
    ensures var x := 0x1_0000 * high + 0x100 * middle + low;
      x / 0x100 % 0x100 == middle && x % 0x100 == low && x % 0x1_0000 == 0x100 * middle + low
  {
    var x := 0x1_0000 * high + 0x100 * middle + low;
    assert x / 0x100 == 0x100 * high + middle;
  }

  /** One step of the walk: what child `j` holds from `index` on. */
  method FindInChild(z: EmptyNodes, ghost d: Memory, sarray: SparseArray, index: nat, j: nat)
    returns (value: nat, next: nat)
    requires Readable(z, d, sarray) && sarray.shift == 8 && j == index / 0x100 % DATA_SIZE
    ensures FirstFrom(d, sarray, index, ScanEnd(0, index), value, next)
  {
    hide Get;
    ChildEntryIs(z, d, sarray, index);
    var child := sarray.data[j].node;
    if z.Has(child) {
      // Add one to the digit that selects the child and clear the digits below it.
      next := index + 0x100;
      next := next - next % 0x100;
      value := 0;
    } else {
      value, next := FindInLeaf(z, d, child, index);
    }
    forall k | index <= k <= next && k < ScanEnd(0, index)
      ensures Get(d, sarray, k) == Get(d, child, k)
      ensures z.Has(child) ==> Get(d, child, k) == 0
    {
      assert k / 0x100 == index / 0x100;
      ChildEntryIs(z, d, sarray, k);
      if z.Has(child) {
        EmptyGet(d, z, child, k);
      }
    }
  }

  method SparseArrayFind(z: EmptyNodes, ghost d: Memory, sarray: SparseArray, index: nat)
    returns (value: nat, next: nat)
    requires Readable(z, d, sarray) && sarray.shift in {0, 8}
    ensures FirstFrom(d, sarray, index, ScanEnd(sarray.shift, index), value, next)
  {
    if sarray.shift == 0 {
      value, next := FindInLeaf(z, d, sarray, index);
    } else {
      value, next := FindInChildren(z, d, sarray, index);
    }
  }

  /** The next entry after `idx`. */
  method SparseArrayNext(z: EmptyNodes, ghost d: Memory, sarray: SparseArray, idx: nat)
    returns (value: nat, next: nat)
    requires Readable(z, d, sarray) && sarray.shift in {0, 8}
    ensures FirstFrom(d, sarray, idx + 1, ScanEnd(sarray.shift, idx + 1), value, next)
  {
    value, next := SparseArrayFind(z, d, sarray, idx + 1);
  }

  /** The first key that repeated scans do not visit. */
  function VisitLimit(shift: nat): nat
    requires shift in {0, 8}
  {
    if shift == 0 then 0x100 else 0xFF00
  }

  /** `entries` lists every entry with a key in [1, limit), once each, by increasing key. */
  ghost predicate Lists(d: Memory, n: SparseArray, limit: nat, entries: seq<(nat, nat)>)
    requires Shaped(d) && n in d
  {
    && (forall i :: 0 <= i < |entries| ==>
          0 < entries[i].0 < limit && entries[i].1 == Get(d, n, entries[i].0) != 0)
    && (forall i, j :: 0 <= i < j < |entries| ==> entries[i].0 < entries[j].0)
    && (forall k :: 0 < k < limit && Get(d, n, k) != 0 ==> (k, Get(d, n, k)) in entries)
  }

  /**
   The enumeration loop of the runtime.  The entry 0 is passed over, a leaf must have its
   last entry unused, and an interior node's last child is never visited.
   */
  method Enumerate(z: EmptyNodes, ghost d: Memory, sarray: SparseArray) returns (entries: seq<(nat, nat)>)
    requires Readable(z, d, sarray) && sarray.shift in {0, 8}
    requires sarray.shift == 0 ==> Get(d, sarray, 0xff) == 0
    ensures Lists(d, sarray, VisitLimit(sarray.shift), entries)
  {
    hide Get, Shaped, EmptyNodes.Shaped, Lists, FirstFrom, ScanEnd;
    entries := [];
    NoneYet(d, sarray, 1);
    var value, idx := SparseArrayNext(z, d, sarray, 0);
    InFirstBlock(d, sarray, 1, value, idx);
    ListsMore(d, sarray, 1, idx, []);
    while value != 0
      invariant 0 < idx <= VisitLimit(sarray.shift)
      invariant if value == 0 then idx == VisitLimit(sarray.shift)
                else idx < VisitLimit(sarray.shift) && Get(d, sarray, idx) == value
      invariant Lists(d, sarray, idx, entries)
      decreases VisitLimit(sarray.shift) - idx, value
    {
      ListsOne(d, sarray, idx, entries);
      entries := entries + [(idx, value)];
      ghost var visited := idx + 1;
      value, idx := SparseArrayNext(z, d, sarray, idx);
      InFirstBlock(d, sarray, visited, value, idx);
      ListsMore(d, sarray, visited, idx, entries);
    }
  }

  lemma InFirstBlock(d: Memory, n: SparseArray, index: nat, value: nat, next: nat)
    requires Shaped(d) && n in d && n.shift in {0, 8} && index <= VisitLimit(n.shift)
    requires n.shift == 0 ==> index <= 0xff
    requires FirstFrom(d, n, index, ScanEnd(n.shift, index), value, next)
    ensures index <= next && forall k :: index <= k < next ==> Get(d, n, k) == 0
    ensures if value == 0 then next == VisitLimit(n.shift)
            else next < VisitLimit(n.shift) && Get(d, n, next) == value
  {
  }

  lemma NoneYet(d: Memory, n: SparseArray, limit: nat)
    requires Shaped(d) && n in d && limit <= 1
    ensures Lists(d, n, limit, [])
  {
  }

  lemma ListsMore(d: Memory, n: SparseArray, limit: nat, limit': nat, entries: seq<(nat, nat)>)
    requires Shaped(d) && n in d && limit <= limit' && Lists(d, n, limit, entries)
    requires forall k :: limit <= k < limit' ==> Get(d, n, k) == 0
    ensures Lists(d, n, limit', entries)
  {
  }

  lemma ListsOne(d: Memory, n: SparseArray, key: nat, entries: seq<(nat, nat)>)
    requires Shaped(d) && n in d && 0 < key && Lists(d, n, key, entries) && Get(d, n, key) != 0
    ensures Lists(d, n, key + 1, entries + [(key, Get(d, n, key))])
  {
    var entries' := entries + [(key, Get(d, n, key))];
    forall k | 0 < k < key + 1 && Get(d, n, k) != 0
      ensures (k, Get(d, n, k)) in entries'
    {
      if k == key {
        assert entries'[|entries|] == (k, Get(d, n, k));
      } else {
        assert (k, Get(d, n, k)) in entries;
      }
    }
  }

  /**
   Why the last entry of a leaf must be unused: with that entry in use a scan never comes
   back empty-handed, wherever it starts, so the enumeration loop does not end.
   */
  lemma LastEntryNeverEnds(d: Memory, n: SparseArray, index: nat, value: nat, next: nat)
    requires Shaped(d) && n in d && n.shift == 0 && FirstFrom(d, n, index, ScanEnd(0, index), value, next)
    ensures Get(d, n, 0xff) != 0 ==> value != 0
  {
    assert Get(d, n, index - index % 0x100 + 0xff) == Get(d, n, 0xff);
  }
}
