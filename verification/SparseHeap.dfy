/**
 The operations of the copy-on-write sparse array, on the nodes themselves.

 `Now()` is the snapshot of the memory and its books; each step is tied to the step on
 `Books` of the same name, so that the reasoning about sharing happens there.
 */
module SparseHeaps {
  import opened SparseMemory
  import opened SparseCounting
  import opened SparseSharing

  class SparseHeap {
    const empty: EmptyNodes
    ghost var live: set<SparseArray>
    ghost var roots: multiset<SparseArray>
    ghost var edges: set<Edge>

    /** The snapshot of the memory and its books. */
    ghost function Now(): Books
      reads this, live, BuffersOf(empty.With(live))
    {
      Books(map n | n in empty.With(live) :: n.data[..], live, roots, edges, map n | n in live :: n.refCount)
    }

    ghost predicate Valid()
      reads this, live, BuffersOf(empty.With(live))
    {
      Separate(empty.With(live)) && Now().Stable(empty, {})
    }

    constructor ()
      ensures Valid() && live == {} && roots == multiset{} && fresh(BuffersOf(empty.With(live)))
    {
      var e0 := new SparseArray(0, Address(0));
      var e8 := new SparseArray(8, Child(e0));
      var e16 := new SparseArray(16, Child(e8));
      var e24 := new SparseArray(24, Child(e16));
      empty := EmptyNodes(e0, e8, e16, e24);
      live, roots, edges := {}, multiset{}, {};
      new;
      assert empty.Shaped(Now().mem) && Now().mem.Keys == empty.All();
      InitiallyStable(Now(), empty);
    }

    // ----- primitive steps -----

    /** Allocates a node of the given shift with its unused entries filled. */
    method Allocate(shift: nat) returns (n: SparseArray)
      requires Separate(empty.With(live)) && shift in {0, 8, 16, 24}
      modifies this`live, this`roots
      ensures Separate(empty.With(live)) && live == old(live) + {n}
      ensures fresh(n) && fresh(n.data) && n.shift == shift && n.refCount == 1 && n !in old(Now()).mem
      ensures Now() == old(Now()).Allocated(n, seq(DATA_SIZE, _ => empty.Fill(shift)))
    {
      hide EmptyNodes.Fill;
      n := new SparseArray(shift, empty.Fill(shift));
      live, roots := live + {n}, roots + multiset{n};
      assert Now().mem == old(Now()).mem[n := n.data[..]];
      assert Now().counts == old(Now()).counts[n := 1];
    }

    method Write(n: SparseArray, i: nat, slot: Slot)
      requires Separate(empty.With(live)) && n in empty.With(live) && i < n.data.Length
      modifies n.data
      ensures Now() == old(Now()).Written(n, i, slot)
    {
      n.data[i] := slot;
      assert n.data[..] == old(n.data[..])[i := slot];
      forall m | m in empty.With(live) && m != n
        ensures m.data[..] == old(m.data[..])
      {
      }
      assert Now().mem == old(Now()).mem[n := old(n.data[..])[i := slot]];
    }

    /** Enters who holds which reference into the books. */
    ghost method Enter(roots': multiset<SparseArray>, edges': set<Edge>)
      modifies this`roots, this`edges
      ensures Now() == old(Now()).(roots := roots', edges := edges') && live == old(live)
      ensures roots == roots' && edges == edges'
    {
      roots, edges := roots', edges';
      assert Now().mem == old(Now()).mem;
      assert Now().counts == old(Now()).counts;
    }

    /**
     Overwrites an entry: the old entry's reference passes to the caller, and a child
     written into it takes over a reference of the caller.
     */
    method Store(n: SparseArray, i: nat, slot: Slot)
      requires Separate(empty.With(live)) && n in empty.With(live) && i < n.data.Length
      modifies this`roots, this`edges, n.data
      ensures Separate(empty.With(live))
      ensures Now() == old(Now()).Stored(n, i, slot)
    {
      ghost var b := Now().Stored(n, i, slot);
      Write(n, i, slot);
      Enter(b.roots, b.edges);
    }

    method AllocateCopy(source: SparseArray) returns (n: SparseArray)
      requires Separate(empty.With(live)) && source in empty.With(live) && |Now().mem[source]| == DATA_SIZE
      modifies this`live, this`roots
      ensures Separate(empty.With(live)) && live == old(live) + {n}
      ensures fresh(n) && fresh(n.data) && n.shift == source.shift
      ensures Now() == old(Now()).Allocated(n, old(Now()).mem[source])
    {
      n := new SparseArray.Copy(source);
      live, roots := live + {n}, roots + multiset{n};
      assert Now().mem == old(Now()).mem[n := source.data[..]];
      assert Now().counts == old(Now()).counts[n := 1];
    }

    method SetCount(n: SparseArray, count: nat)
      requires n in live
      modifies n`refCount
      ensures Now() == old(Now()).(counts := old(Now()).counts[n := count])
    {
      n.refCount := count;
      assert Now().mem == old(Now()).mem;
      assert Now().counts == old(Now()).counts[n := count];
    }

    method Free(n: SparseArray)
      requires Separate(empty.With(live)) && n in live && n !in empty.All()
      modifies this`live
      ensures Separate(empty.With(live)) && Now() == old(Now()).Freed(n)
    {
      live := live - {n};
      assert Now().mem == old(Now()).mem - {n};
      assert Now().counts == old(Now()).counts - {n};
    }

    // ----- the operations -----

    /** Entry `i` of the new copy `n` takes its reference. */
    method Share(n: SparseArray, i: nat)
      requires Separate(empty.With(live)) && n in live && i < n.data.Length
      requires n.data[i].Child? && n.data[i].node in empty.With(live) && live !! empty.All()
      modifies this`roots, this`edges, live`refCount
      ensures Now() == old(Now()).ShareEntry(n, i)
    {
      var child := n.data[i].node;
      assert old(Now()).mem[n][i] == n.data[i];
      if !empty.Has(child) {
        SetCount(child, child.refCount + 1);
        Enter(roots + multiset{child} - multiset{child}, edges + {(n, i)});
      }
    }

    /** Only the root is copied; the children gain a reference each. */
    method CopyNode(sarray: SparseArray) returns (copy: SparseArray)
      requires Valid() && sarray in live
      modifies this`live, this`roots, this`edges, live`refCount
      ensures Valid() && fresh(copy) && fresh(copy.data) && copy.shift == sarray.shift && copy !in old(Now()).mem
      ensures live == old(live) + {copy}
      ensures Now() == old(Now()).Allocated(copy, old(Now()).mem[sarray]).Shared(copy, DATA_SIZE)
    {
      hide Books.Stable, SparseHeap.Now, Separate, Books.Shared, EmptyNodes.Shaped, Shaped;
      ghost var b := Now();
      Fields();
      StableShaped(b, empty);
      StableFacts(b, empty, {});
      assert NodeTyped(sarray, b.mem[sarray]);
      copy := AllocateCopy(sarray);
      ghost var b0 := Now();
      CopyStable(b, empty, sarray, copy);
      if copy.shift == 0 {
        SharedEffect(b0, copy, DATA_SIZE);
      } else {
        ShareAll(copy);
      }
    }

    method ShareAll(n: SparseArray)
      requires Separate(empty.With(live)) && n in live && live !! empty.All()
      requires n in Now().mem && NodeTyped(n, Now().mem[n]) && n.shift > 0
      requires forall i :: 0 <= i < DATA_SIZE ==> Now().mem[n][i].node in Now().mem
      modifies this`roots, this`edges, live`refCount
      ensures Now() == old(Now()).Shared(n, DATA_SIZE)
    {
      hide SparseHeap.Now, Separate, Books.ShareEntry, Books.Shared;
      ghost var b := Now();
      NowFacts();
      SharedNone(b, n);
      var i := 0;
      while i < DATA_SIZE
        invariant i <= DATA_SIZE && Now() == b.Shared(n, i)
      {
        ShareNext(n, i, b);
        i := i + 1;
      }
    }

    lemma NowFacts()
      ensures Now().mem.Keys == empty.With(live) && Now().counts.Keys == live && Now().live == live
      ensures forall n :: n in empty.With(live) ==> Now().mem[n] == n.data[..]
    {
    }

    method ShareNext(n: SparseArray, i: nat, ghost b: Books)
      requires Separate(empty.With(live)) && n in live && live !! empty.All() && i < DATA_SIZE
      requires n in b.mem && NodeTyped(n, b.mem[n]) && n.shift > 0 && b.mem[n][i].node in b.mem
      requires b.counts.Keys == b.live && Now() == b.Shared(n, i)
      modifies this`roots, this`edges, live`refCount
      ensures Now() == b.Shared(n, i + 1)
    {
      hide SparseHeap.Now, Separate, Books.ShareEntry;
      NowFacts();
      assert n.data[i] == n.data[..][i];
      Share(n, i);
    }

    /**
     Gives up one reference to `n`; the last one takes the node apart, entry by entry,
     and frees it.  `dying` are the nodes that callers further up are taking apart.
     */
    method DestroyNode(n: SparseArray, ghost dying: set<SparseArray>)
      requires Separate(empty.With(live)) && Now().Stable(empty, dying) && Spent(Now(), dying)
      requires n in empty.With(live) && n !in dying && (n in live ==> n in roots)
      modifies this, live`refCount
      ensures Separate(empty.With(live)) && Now().Stable(empty, dying) && Survives(old(Now()), Now(), dying)
      ensures roots == if n in old(live) then old(roots) - multiset{n} else old(roots)
      ensures n in old(live) && old(n.refCount) > 1 ==> Now() == old(Now()).Dropped(n)
      decreases n.shift, 1
    {
      hide Books.Stable, Spent, Survives, Covered, Separate, SparseHeap.Now;
      ghost var b := Now();
      NodeFacts(n, dying);
      if empty.Has(n) {
        SurvivesRefl(b, dying);
        return;
      }
      DroppedEffect(b, empty, dying, n);
      SetCount(n, n.refCount - 1);
      Enter(roots - multiset{n}, edges);
      Fields();
      if n.refCount > 0 {
        return;
      }
      ghost var b1 := Now();
      if n.shift > 0 {
        DestroyEntries(n, dying + {n});
        assert dying + {n} - {n} == dying;
      } else {
        SurvivesRefl(b1, dying);
      }
      SurvivesTransitive(b, b1, Now(), dying, dying);
      Fields();
      ghost var b2 := Now();
      FreedEffect(b2, empty, dying, n);
      Free(n);
      SurvivesTransitive(b, b2, Now(), dying, dying);
      Fields();
    }

    lemma NodeFacts(n: SparseArray, dying: set<SparseArray>)
      requires Separate(empty.With(live)) && Now().Stable(empty, dying) && n in empty.With(live)
      ensures n in live <==> !empty.Has(n)
      ensures Now().roots == roots && Now().edges == edges && Now().live == live && Now().counts.Keys == live
      ensures n in live ==> Now().counts[n] == n.refCount
    {
    }

    method DestroyEntries(n: SparseArray, ghost dying: set<SparseArray>)
      requires Separate(empty.With(live)) && Now().Stable(empty, dying) && Spent(Now(), dying)
      requires n in live && n in dying && n.shift > 0 && Covered(Now(), empty, n, 0)
      modifies this, live`refCount
      ensures Separate(empty.With(live)) && Now().Stable(empty, dying) && Survives(old(Now()), Now(), dying - {n})
      ensures roots == old(roots) && n in live && Spent(Now(), dying)
      ensures forall e :: e in edges ==> e.0 != n
      decreases n.shift, 0, 1
    {
      hide Books.Stable, Spent, Survives, Covered, Separate, SparseHeap.Now;
      ghost var b := Now();
      Fields();
      NodeFacts(n, dying);
      SurvivesRefl(b, dying - {n});
      var i := 0;
      while i < DATA_SIZE
        invariant i <= DATA_SIZE && Separate(empty.With(live)) && Now().Stable(empty, dying)
        invariant Survives(b, Now(), dying - {n})
        invariant n in live && Spent(Now(), dying) && roots == b.roots
        invariant live <= b.live && n in Now().mem
        invariant Covered(Now(), empty, n, i)
        invariant forall j :: 0 <= j < i ==> (n, j) !in edges
      {
        ghost var b1 := Now();
        DestroyEntry(n, i, dying);
        SurvivesTransitive(b, b1, Now(), dying - {n}, dying - {n});
        Fields();
        i := i + 1;
      }
      EdgesInRange(n, dying);
    }

    lemma EdgesInRange(n: SparseArray, dying: set<SparseArray>)
      requires Separate(empty.With(live)) && Now().Stable(empty, dying)
      ensures forall e :: e in edges && e.0 == n ==> 0 <= e.1 < DATA_SIZE && e == (n, e.1)
    {
    }

    method DestroyEntry(n: SparseArray, i: nat, ghost dying: set<SparseArray>)
      requires Separate(empty.With(live)) && Now().Stable(empty, dying) && Spent(Now(), dying)
      requires n in live && n in dying && n.shift > 0 && i < DATA_SIZE && Covered(Now(), empty, n, i)
      requires n in Now().mem
      modifies this, live`refCount
      ensures Separate(empty.With(live)) && Now().Stable(empty, dying) && Survives(old(Now()), Now(), dying - {n})
      ensures roots == old(roots) && n in live && Spent(Now(), dying)
      ensures Covered(Now(), empty, n, i + 1)
      ensures (n, i) !in edges && edges <= old(edges) && live <= old(live)
      decreases n.shift, 0, 0
    {
      hide Books.Stable, Spent, Survives, Covered, Separate, SparseHeap.Now;
      ghost var b := Now();
      EntryFacts(n, i, dying);
      var child := n.data[i].node;
      if empty.Has(child) {
        SurvivesRefl(b, dying - {n});
        return;
      }
      ReleasedEffect(b, empty, dying, n, i);
      Enter(roots + multiset{child}, edges - {(n, i)});
      ghost var b1 := Now();
      DestroyNode(child, dying);
      SurvivesTransitive(b, b1, Now(), dying - {n}, dying);
      SurvivesDying(b1, Now(), empty, dying, n, i + 1);
      SurvivesLess(b1, Now(), dying);
      Fields();
    }

    lemma Fields()
      ensures Now().live == live && Now().roots == roots && Now().edges == edges && Now().mem.Keys == empty.With(live)
      ensures forall n :: n in live ==>
        n in empty.With(live) && n in Now().mem && n in Now().counts && Now().counts[n] == n.refCount
      ensures forall n :: n in live ==> n.data in BuffersOf(empty.With(live))
    {
    }

    /** What the books say about an entry of a node that is being taken apart. */
    lemma EntryFacts(n: SparseArray, i: nat, dying: set<SparseArray>)
      requires Separate(empty.With(live)) && Now().Stable(empty, dying) && n in live && n.shift > 0 && i < DATA_SIZE
      requires Covered(Now(), empty, n, i)
      ensures n.data.Length == DATA_SIZE && n.data[i].Child? && n.data[i].node.shift < n.shift
      ensures Now().mem[n][i] == n.data[i] && n in Now().mem && |Now().mem[n]| == DATA_SIZE
      ensures Now().roots == roots && Now().edges == edges && Now().live == live && Now().counts.Keys == live
      ensures empty.Has(n.data[i].node) ==> (n, i) !in edges && Covered(Now(), empty, n, i + 1)
      ensures !empty.Has(n.data[i].node) ==> n.data[i].node in empty.With(live)
    {
      assert NodeTyped(n, Now().mem[n]);
      assert Now().mem[n][i] == n.data[i];
    }

    /** Puts a new, empty child into entry `i`. */
    method NewChild(n: SparseArray, i: nat) returns (c: SparseArray)
      requires Separate(empty.With(live)) && n in live && i < n.data.Length && n.shift in {8, 16, 24}
      modifies this, n.data
      ensures Separate(empty.With(live)) && fresh(c) && fresh(c.data) && c.shift == n.shift - 8 && c.refCount == 1
      ensures live == old(live) + {c}
      ensures n in old(Now()).Allocated(c, seq(DATA_SIZE, _ => empty.Fill(c.shift))).mem
      ensures i < |old(Now()).mem[n]|
      ensures Now() == old(Now()).Allocated(c, seq(DATA_SIZE, _ => empty.Fill(c.shift))).Stored(n, i, Child(c))
    {
      c := Allocate(n.shift - 8);
      Store(n, i, Child(c));
    }

    /** What the books say about an entry of a node of this array. */
    lemma SlotFacts(n: SparseArray, i: nat)
      requires Valid() && n in empty.With(live) && n.shift > 0 && i < DATA_SIZE
      ensures n.shift in {8, 16, 24} && n.data.Length == DATA_SIZE && n.data[i].Child?
      ensures n in Now().mem && |Now().mem[n]| == DATA_SIZE && Now().mem[n][i] == n.data[i]
      ensures n.data[i].node.shift == n.shift - 8 && n.data[i].node in empty.With(live)
    {
      hide Books.Stable;
      StableFacts(Now(), empty, {});
      StableShaped(Now(), empty);
      assert NodeTyped(n, Now().mem[n]);
      assert Now().mem[n][i] == n.data[i];
      assert Now().mem[n][i].node in Now().mem;
    }

    lemma Length(n: SparseArray)
      requires n in live
      ensures n in Now().mem && |Now().mem[n]| == n.data.Length
    {
    }

    lemma CountFacts(n: SparseArray)
      requires Valid() && n in empty.With(live)
      ensures n in live <==> !empty.Has(n)
      ensures n in live ==> n in Now().live && n in Now().counts && Now().counts[n] == n.refCount > 0
      ensures n !in live ==> n in empty.All()
    {
    }

    /** Writes a copy of the child in entry `i` over it; the old reference goes to the caller. */
    method AttachCopy(n: SparseArray, i: nat) returns (c: SparseArray)
      requires Valid() && n in live && n.shift > 0 && i < DATA_SIZE && n.data[i].node in live
      requires n.data.Length == DATA_SIZE
      modifies this`live, this`roots, this`edges, live`refCount, n.data
      ensures Separate(empty.With(live)) && fresh(c) && fresh(c.data) && live == old(live) + {c}
      ensures c !in old(Now()).mem && c.shift == old(n.data[i]).node.shift
      ensures var b := old(Now()); var child := old(n.data[i]).node;
        CopyAttached(b, Now(), n, i, child, c)
    {
      hide Books.Stable, SparseHeap.Now, Separate, Books.Stored, Books.Shared, Books.Allocated;
      CopyReady(n, i);
      c := CopyNode(n.data[i].node);
      Fields();
      Store(n, i, Child(c));
    }

    lemma CopyReady(n: SparseArray, i: nat)
      requires Valid() && n in live && n.shift > 0 && i < DATA_SIZE && n.data.Length == DATA_SIZE
      requires n.data[i].node in live
      ensures n.data[i].Child? && n in Now().mem && Now().mem[n][i] == n.data[i] && |Now().mem[n]| == DATA_SIZE
      ensures n.data[i].node in Now().mem && |Now().mem[n.data[i].node]| == DATA_SIZE
      ensures Now().counts.Keys == Now().live == live
    {
      hide Books.Stable, SparseHeap.Now;
      SlotFacts(n, i);
      StableFacts(Now(), empty, {});
      Fields();
      assert NodeTyped(n.data[i].node, Now().mem[n.data[i].node]);
    }

    /** Replaces the shared child in entry `i` by a copy of it. */
    method CopyChild(n: SparseArray, i: nat) returns (c: SparseArray)
      requires Valid() && n in live && n.shift > 0 && i < DATA_SIZE
      requires n.data[i].node in live && n.data[i].node.refCount > 1
      modifies this, live`refCount, n.data
      ensures Valid() && c.shift == n.shift - 8 && c in live && c.refCount == 1
      ensures fresh(c) && fresh(c.data) && live == old(live) + {c}
      ensures n in old(Now()).mem && Prepared(old(Now()), Now(), n, i, c)
      ensures old(Now()).mem[n][i].node in old(Now()).mem && SameBelow(old(Now()), Now(), n, i, c)
    {
      hide Books.Stable, Prepared, SameBelow, Get, Shaped, SparseHeap.Now, Separate, Books.Stored, Books.Shared,
        BuffersOf;
      ghost var b := Now();
      SlotFacts(n, i);
      var child := n.data[i].node;
      CountFacts(child);
      Fields();
      c := AttachCopy(n, i);
      PreparedCopy(b, Now(), empty, n, i, c);
      Fields();
      DestroyNode(child, {});
      Fields();
    }

    /**
     Makes entry `i` lead to a node that only this array refers to: a new one if the entry
     was unused, a copy if it was shared, or the node that is already there.
     */
    method PrepareChild(n: SparseArray, i: nat) returns (c: SparseArray)
      requires Valid() && n in live && n.shift > 0 && i < DATA_SIZE
      modifies this, live`refCount, n.data
      ensures Valid() && c.shift == n.shift - 8 && c in live && c.refCount == 1
      ensures live == old(live) + {c}
      ensures c in old(live) || (fresh(c) && fresh(c.data))
      ensures n in old(Now()).mem && Prepared(old(Now()), Now(), n, i, c)
      ensures old(Now()).mem[n][i].node in old(Now()).mem && SameBelow(old(Now()), Now(), n, i, c)
    {
      hide Books.Stable, Prepared, SameBelow, Get, Shaped, SparseHeap.Now, Separate, Books.Stored;
      ghost var b := Now();
      SlotFacts(n, i);
      Fields();
      var child := n.data[i].node;
      CountFacts(child);
      if empty.Has(child) {
        c := NewChild(n, i);
        PreparedFresh(b, Now(), empty, n, i, c);
      } else if child.refCount > 1 {
        c := CopyChild(n, i);
      } else {
        c := child;
        PreparedOwn(b, empty, n, i);
      }
      Fields();
    }

    /**
     Insertion below a node that is held once, whether by its owner or by its parent.
     `touched` are the nodes that were written.
     */
    method InsertAt(n: SparseArray, index: nat, value: nat) returns (ghost touched: set<SparseArray>)
      requires Valid() && n in live && n.refCount == 1
      modifies this, live`refCount, BuffersOf(empty.With(live))
      ensures Valid() && old(live) <= live
      ensures forall x :: x in live && x !in old(live) ==> fresh(x) && fresh(x.data)
      ensures Confined(old(Now()), Now(), n, touched)
      ensures n in old(Now()).mem && n in Now().mem && InsertedBelow(old(Now()), Now(), n, index, value)
      decreases n.shift
    {
      hide Books.Stable, Prepared, SameBelow, Confined, InsertedBelow, Get, Shaped, SparseHeap.Now, Separate, BuffersOf;
      ghost var b := Now();
      Fields();
      if n.shift > 0 {
        SlotFacts(n, 0);
        var i := Digit(index, n.shift);
        var c := PrepareChild(n, i);
        BuffersGrow(empty, b.live, c);
        assert live == b.live + {c};
        ghost var b1, live1 := Now(), live;
        touched := InsertAt(c, index, value);
        InsertedLevel(b, b1, Now(), empty, n, c, index, value, touched);
        touched := {n} + touched * b.live;
      } else {
        LeafWritten(b, empty, n, index, value);
        Length(n);
        Write(n, Digit(index, 0), Address(value));
        touched := {n};
      }
    }

    // ----- the operations as their callers see them -----

    /** The address stored at `key` in an array. */
    ghost function At(n: SparseArray, key: nat): nat
      requires Valid() && n in empty.With(live)
      reads this, live, BuffersOf(empty.With(live))
    {
      Get(Now().mem, n, key)
    }

    lemma LeafFacts(n: SparseArray, i: nat)
      requires Valid() && n in empty.With(live) && n.shift == 0 && i < DATA_SIZE
      ensures n.data.Length == DATA_SIZE && n.data[i].Address?
      ensures n in Now().mem && |Now().mem[n]| == DATA_SIZE && Now().mem[n][i] == n.data[i]
    {
      assert NodeTyped(n, Now().mem[n]);
      assert Now().mem[n][i] == n.data[i];
    }

    /** One step of a lookup. */
    function Below(n: SparseArray, key: nat): (c: SparseArray)
      requires Valid() && n in empty.With(live) && n.shift in {8, 16, 24}
      reads this, live, BuffersOf(empty.With(live))
      ensures c in empty.With(live) && c.shift == n.shift - 8 && At(c, key) == At(n, key)
    {
      SlotFacts(n, Digit(key, n.shift));
      n.data[Digit(key, n.shift)].node
    }

    function LeafEntry(n: SparseArray, key: nat): (value: nat)
      requires Valid() && n in empty.With(live) && n.shift == 0
      reads this, live, BuffersOf(empty.With(live))
      ensures value == At(n, key)
    {
      LeafFacts(n, Digit(key, 0));
      n.data[Digit(key, 0)].a
    }

    /** The lookup, unrolled for each depth. */
    function SparseArrayLookup(sarray: SparseArray, index: nat): (value: nat)
      requires Valid() && sarray in live && sarray.shift in {0, 8, 16, 24}
      reads this, live, BuffersOf(empty.With(live))
      ensures value == At(sarray, index)
    {
      if sarray.shift == 0 then LeafEntry(sarray, index)
      else if sarray.shift == 8 then LeafEntry(Below(sarray, index), index)
      else if sarray.shift == 16 then LeafEntry(Below(Below(sarray, index), index), index)
      else LeafEntry(Below(Below(Below(sarray, index), index), index), index)
    }

    /** An empty array of `depth` bits. */
    method SparseArrayNewWithDepth(depth: nat) returns (sarray: SparseArray)
      requires Valid() && depth in {8, 16, 24, 32}
      modifies this`live, this`roots
      ensures Valid() && fresh(sarray) && fresh(sarray.data) && sarray.shift == depth - 8 && sarray.refCount == 1
      ensures live == old(live) + {sarray} && roots == old(roots) + multiset{sarray}
      ensures forall k :: 0 <= k < Capacity(sarray.shift) ==> At(sarray, k) == 0
      ensures forall r :: r in old(roots) ==>
        r in Now().mem && r in old(Now()).mem && SameContents(old(Now()), Now(), r)
    {
      ghost var b := Now();
      hide Books.Stable, Shaped, EmptyNodes.Shaped, SameContents, Get, SparseHeap.Now, Separate;
      Fields();
      StableFacts(b, empty, {});
      StableShaped(b, empty);
      sarray := Allocate(depth - 8);
      Fields();
      NewContents(b, empty, sarray);
    }

    /** What the owner of another array sees: nothing. */
    twostate predicate OthersKept(except: SparseArray)
      requires Valid() && old(Valid())
      reads this, live, BuffersOf(empty.With(live))
    {
      forall r :: r in roots && r in old(roots) && r != except ==>
        r in Now().mem && r in old(Now()).mem && SameContents(old(Now()), Now(), r)
    }

    /** An array holds under every key what another one held before. */
    twostate predicate HoldsSame(new n: SparseArray, was: SparseArray)
      requires Valid() && n in live && old(Valid()) && was in old(live)
      reads this, live, BuffersOf(empty.With(live))
    {
      forall k: nat :: At(n, k) == old(At(was, k))
    }

    /** The copy holds what the original holds, and no array changes. */
    method SparseArrayCopy(sarray: SparseArray) returns (copy: SparseArray)
      requires Valid() && sarray in live
      modifies this, live`refCount
      ensures Valid() && copy in live
      ensures fresh(copy) && fresh(copy.data) && copy.shift == sarray.shift && copy.refCount == 1
      ensures live == old(live) + {copy} && roots == old(roots) + multiset{copy}
      ensures HoldsSame(copy, sarray)
      ensures OthersKept(empty.e0)
    {
      hide Books.Stable, Shaped, SameContents, Get, SparseHeap.Now, Separate, Books.Shared, Books.Allocated;
      ghost var b := Now();
      Fields();
      StableShaped(b, empty);
      StableFacts(b, empty, {});
      assert NodeTyped(sarray, b.mem[sarray]);
      copy := CopyNode(sarray);
      Fields();
      CopiedAll(b, Now(), empty, sarray, copy);
    }

    /** One key of one array changes; no other array does. */
    method SparseArrayInsert(sarray: SparseArray, index: nat, value: nat)
      requires Valid() && sarray in roots && sarray in live && sarray.refCount == 1
      requires sarray.shift in {0, 8, 16, 24}
      modifies this, live`refCount, BuffersOf(empty.With(live))
      ensures Valid() && old(live) <= live && roots == old(roots) && sarray.refCount == 1
      ensures forall x :: x in live && x !in old(live) ==> fresh(x) && fresh(x.data)
      ensures forall k: nat :: (if k % Capacity(sarray.shift) == index % Capacity(sarray.shift)
        then At(sarray, k) == value else At(sarray, k) == old(At(sarray, k)))
      ensures OthersKept(sarray)
    {
      hide Books.Stable, Shaped, SameContents, Get, SparseHeap.Now, Separate, Confined, InsertedBelow;
      ghost var b := Now();
      Fields();
      StableShaped(b, empty);
      StableFacts(b, empty, {});
      ghost var touched := InsertAt(sarray, index, value);
      StableShaped(Now(), empty);
      Fields();
      ConfinedFacts(b, Now(), sarray, touched);
      InsertedModulo(b, Now(), sarray, index, value);
      AllOthersUnaffected(b, Now(), empty, sarray, touched);
    }

    /** An array gives up its reference; what is only reachable through it is freed. */
    method SparseArrayDestroy(sarray: SparseArray)
      requires Valid() && sarray in empty.With(live) && (sarray in live ==> sarray in roots)
      modifies this, live`refCount
      ensures Valid() && live <= old(live)
      ensures roots == if sarray in old(live) then old(roots) - multiset{sarray} else old(roots)
      ensures OthersKept(empty.e0)
    {
      hide Books.Stable, Shaped, SameContents, Get, SparseHeap.Now, Separate;
      ghost var b := Now();
      Fields();
      StableShaped(b, empty);
      assert Spent(b, {});
      DestroyNode(sarray, {});
      StableShaped(Now(), empty);
      Fields();
      forall r | r in roots && r in b.roots
        ensures r in Now().mem && r in b.mem && SameContents(b, Now(), r)
      {
        RootFacts(r);
        KeptContents(b, Now(), r);
      }
    }

    lemma RootFacts(r: SparseArray)
      requires Valid() && r in roots
      ensures r in live && r in Now().mem
    {
    }

    /**
     A root with 256 times the capacity.  The early return compares a depth with a shift,
     so it is taken only for an array that is already a level deeper than asked for.
     */
    method SparseArrayExpandingArray(sarray: SparseArray, newDepth: nat) returns (result: SparseArray)
      requires Valid() && sarray in roots && sarray in live && sarray.refCount == 1
      requires sarray.shift in {0, 8, 16} && newDepth >= sarray.shift
      modifies this, live`refCount, BuffersOf(empty.With(live))
      ensures Valid() && result in live && result.refCount == 1
      ensures newDepth == sarray.shift ==> result == sarray && Now() == old(Now())
      ensures newDepth > sarray.shift ==>
        && fresh(result) && result.shift == sarray.shift + 8
        && roots == old(roots) + multiset{result} - multiset{sarray}
        && (forall k :: 0 <= k < Capacity(result.shift) ==>
              At(result, k) == if k < Capacity(sarray.shift) then old(At(sarray, k)) else 0)
      ensures OthersKept(sarray)
    {
      hide Books.Stable, Shaped, EmptyNodes.Shaped, SameContents, Get, SparseHeap.Now, Separate, Expanded;
      ghost var b := Now();
      Fields();
      StableShaped(b, empty);
      if newDepth == sarray.shift {
        forall r | r in roots
          ensures r in b.mem && SameContents(b, b, r)
        {
          RootFacts(r);
          KeptContents(b, b, r);
        }
        return sarray;
      }
      StableFacts(b, empty, {});
      result := NewRoot(sarray);
      ExpandedAll(b, Now(), empty, sarray, result);
      StableShaped(Now(), empty);
      Fields();
    }

    /** A new root of the next higher shift whose entry 0 takes over the reference to `sarray`. */
    method NewRoot(sarray: SparseArray) returns (n: SparseArray)
      requires Separate(empty.With(live)) && sarray in live && sarray.shift in {0, 8, 16}
      modifies this
      ensures Separate(empty.With(live)) && fresh(n) && fresh(n.data) && n.shift == sarray.shift + 8 && n.refCount == 1
      ensures live == old(live) + {n} && n !in old(Now()).mem
      ensures Now() == Expanded(old(Now()), empty, sarray, n)
    {
      hide SparseHeap.Now;
      n := Allocate(sarray.shift + 8);
      Length(n);
      Store(n, 0, Child(sarray));
    }
  }
}
