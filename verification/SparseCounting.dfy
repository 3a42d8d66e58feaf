/**
 Reference counts: every step keeps each count equal to the number of owners and entries
 that refer to the node, also while nodes are being taken apart.
 */
module SparseCounting {
  import opened SparseMemory

  lemma AllocatedCounted(b: Books, n: SparseArray, slots: seq<Slot>)
    requires b.Counted() && n !in b.mem
    ensures b.Allocated(n, slots).Counted()
  {
    var b' := b.Allocated(n, slots);
    forall m | m in b'.live
      ensures b'.counts[m] == |b'.Into(m)| + b'.roots[m]
    {
      AllocatedInto(b, n, slots, m);
    }
  }

  lemma AllocatedInto(b: Books, n: SparseArray, slots: seq<Slot>, m: SparseArray)
    requires b.Counted() && n !in b.mem
    ensures n !in b.roots && b.Allocated(n, slots).Into(m) == if m == n then {} else b.Into(m)
  {
  }

  lemma ReleasedCounted(b: Books, n: SparseArray, i: nat)
    requires b.Counted() && n in b.mem && i < |b.mem[n]|
    requires b.mem[n][i].Child? && b.mem[n][i].node in b.live ==> (n, i) in b.edges
    ensures b.Released(n, i).Counted()
  {
    var b', slot := b.Released(n, i), b.mem[n][i];
    forall m | m in b.live
      ensures b'.counts[m] == |b'.Into(m)| + b'.roots[m]
    {
      if slot == Child(m) {
        assert (n, i) in b.Into(m);
        assert b'.Into(m) == b.Into(m) - {(n, i)};
      } else {
        assert b'.Into(m) == b.Into(m);
      }
    }
  }

  lemma AttachedCounted(b: Books, n: SparseArray, i: nat)
    requires b.Counted() && n in b.live && i < |b.mem[n]| && (n, i) !in b.edges
    requires b.mem[n][i].Child? && b.mem[n][i].node in b.roots
    ensures b.Attached(n, i).Counted()
  {
    var b', c := b.Attached(n, i), b.mem[n][i].node;
    assert (n, i) !in b.Into(c);
    assert b'.Into(c) == b.Into(c) + {(n, i)};
    forall m | m in b.live && m != c
      ensures b'.Into(m) == b.Into(m)
    {
    }
  }

  /** Writing a slot that is not counted changes no count. */
  lemma WrittenCounted(b: Books, n: SparseArray, i: nat, slot: Slot)
    requires b.Counted() && n in b.mem && i < |b.mem[n]| && (n, i) !in b.edges
    ensures b.Written(n, i, slot).Counted()
  {
    var b' := b.Written(n, i, slot);
    forall m | m in b.live
      ensures b'.Into(m) == b.Into(m)
    {
    }
  }

  lemma StoredCounted(b: Books, n: SparseArray, i: nat, slot: Slot)
    requires b.Counted() && n in b.live && i < |b.mem[n]|
    requires b.mem[n][i].Child? && b.mem[n][i].node in b.live <==> (n, i) in b.edges
    requires slot.Child? && slot.node in b.live ==> slot.node in b.roots
    ensures b.Stored(n, i, slot).Counted()
  {
    ReleasedCounted(b, n, i);
    WrittenCounted(b.Released(n, i), n, i, slot);
    if slot.Child? && slot.node in b.live {
      AttachedCounted(b.Released(n, i).Written(n, i, slot), n, i);
    }
  }

  lemma CountsMoveTogether(b: Books, b': Books, n: SparseArray)
    requires b.Counted() && n in b.live
    requires b' == b.Retained(n) || (n in b.roots && b.counts[n] > 0 && b' == b.Dropped(n))
    ensures b'.Counted()
  {
    hide Books.Into;
    forall m | m in b.live
      ensures b'.Into(m) == b.Into(m)
    {
      SameInto(b, b', m);
    }
  }

  lemma SameInto(b: Books, b': Books, m: SparseArray)
    requires b'.mem == b.mem && b'.edges == b.edges
    ensures b'.Into(m) == b.Into(m)
  {
  }

  /** A node that nothing refers to can go. */
  lemma FreedCounted(b: Books, n: SparseArray)
    requires b.Counted() && n in b.live && b.counts[n] == 0
    requires forall e :: e in b.edges ==> e.0 != n
    ensures b.Freed(n).Counted()
    ensures forall e :: e in b.edges ==> b.mem[e.0][e.1] != Child(n)
  {
    var b' := b.Freed(n);
    forall e | e in b.edges
      ensures b.mem[e.0][e.1] != Child(n)
    {
      assert e !in b.Into(n);
    }
    forall m | m in b'.live
      ensures b'.Into(m) == b.Into(m)
    {
    }
  }

  /** A node with one reference, held by slot `e`, has no owner and is in no other slot. */
  lemma OnlyReference(b: Books, e: Edge)
    requires b.Counted() && e in b.edges
    requires b.counts[b.mem[e.0][e.1].node] == 1
    ensures b.mem[e.0][e.1].node !in b.roots
    ensures forall e' :: e' in b.edges && b.mem[e'.0][e'.1] == b.mem[e.0][e.1] ==> e' == e
  {
    var into := b.Into(b.mem[e.0][e.1].node);
    assert e in into;
    assert |into - {e}| == 0;
    forall e' | e' in b.edges && b.mem[e'.0][e'.1] == b.mem[e.0][e.1]
      ensures e' == e
    {
      assert e' in into;
    }
  }

  /** A node with one reference, held by an owner, is in no counted slot. */
  lemma OnlyOwner(b: Books, n: SparseArray)
    requires b.Counted() && n in b.roots && b.counts[n] == 1
    ensures forall e :: e in b.edges ==> b.mem[e.0][e.1] != Child(n)
  {
    assert b.Into(n) == {};
    forall e | e in b.edges
      ensures b.mem[e.0][e.1] != Child(n)
    {
      assert e !in b.Into(n);
    }
  }

  // ----- stability of each step -----

  lemma InitiallyStable(b: Books, z: EmptyNodes)
    requires z.Shaped(b.mem) && b.mem.Keys == z.All()
    requires b.live == {} && b.roots == multiset{} && b.edges == {} && b.counts == map[]
    ensures b.Stable(z, {})
  {
    forall n | n in b.mem
      ensures NodeTyped(n, b.mem[n])
    {
      assert b.mem[n] == seq(DATA_SIZE, _ => z.Fill(n.shift));
    }
  }

  lemma AllocatedStable(b: Books, z: EmptyNodes, dying: set<SparseArray>, n: SparseArray)
    requires b.Stable(z, dying) && n !in b.mem && n.shift in {0, 8, 16, 24}
    ensures b.Allocated(n, seq(DATA_SIZE, _ => z.Fill(n.shift))).Stable(z, dying)
  {
    var b' := b.Allocated(n, seq(DATA_SIZE, _ => z.Fill(n.shift)));
    AllocatedCounted(b, n, b'.mem[n]);
    AllocatedStructured(b, z, dying, n);
    AbsentUnreferenced(b, z, dying, n);
    AllocatedKept(b, z, dying, n, b'.mem[n]);
  }

  lemma AbsentUnreferenced(b: Books, z: EmptyNodes, dying: set<SparseArray>, n: SparseArray)
    requires b.Structured(z, dying) && n !in b.mem
    ensures forall p, i :: p in b.live && p !in dying && 0 <= i < |b.mem[p]| ==> b.mem[p][i] != Child(n)
  {
    forall p, i | p in b.live && p !in dying && 0 <= i < |b.mem[p]|
      ensures b.mem[p][i] != Child(n)
    {
      assert NodeTyped(p, b.mem[p]);
    }
  }

  lemma AllocatedKept(b: Books, z: EmptyNodes, dying: set<SparseArray>, n: SparseArray, slots: seq<Slot>)
    requires b.Counted() && b.Kept(dying) && n !in b.mem && n.shift in {0, 8, 16, 24}
    requires b.live !! z.All() && z.All() <= b.mem.Keys
    requires forall p, i :: p in b.live && p !in dying && 0 <= i < |b.mem[p]| ==> b.mem[p][i] != Child(n)
    requires slots == seq(DATA_SIZE, _ => z.Fill(n.shift))
    ensures b.Allocated(n, slots).Kept(dying)
  {
    var b' := b.Allocated(n, slots);
    forall p | p in b'.live && p !in dying
      ensures b'.Complete(p, 0)
    {
      if p == n {
        assert z.Fill(n.shift).Child? ==> z.Fill(n.shift).node in z.All();
      } else {
        assert b.Complete(p, 0);
      }
    }
  }

  lemma AllocatedStructured(b: Books, z: EmptyNodes, dying: set<SparseArray>, n: SparseArray)
    requires b.Structured(z, dying) && n !in b.mem && n.shift in {0, 8, 16, 24}
    ensures b.Allocated(n, seq(DATA_SIZE, _ => z.Fill(n.shift))).Structured(z, dying)
  {
    var mem := b.Allocated(n, seq(DATA_SIZE, _ => z.Fill(n.shift))).mem;
    assert forall i :: 0 <= i < DATA_SIZE ==> mem[n][i] == z.Fill(n.shift);
    assert NodeTyped(n, mem[n]);
  }

  lemma StoredStable(b: Books, z: EmptyNodes, dying: set<SparseArray>, n: SparseArray, i: nat, slot: Slot)
    requires b.Stable(z, dying) && n in b.live && n !in dying && i < DATA_SIZE
    requires NodeTyped(n, b.mem[n][i := slot])
    requires slot.Child? ==> slot.node in b.mem && (slot.node in b.live ==> slot.node in b.roots)
    ensures b.Stored(n, i, slot).Stable(z, dying)
  {
    assert b.Complete(n, 0);
    StoredCounted(b, n, i, slot);
    StoredStructured(b, z, dying, n, i, slot);
    StoredKept(b, z, dying, n, i, slot);
  }

  lemma StoredStructured(b: Books, z: EmptyNodes, dying: set<SparseArray>, n: SparseArray, i: nat, slot: Slot)
    requires b.Structured(z, dying) && n in b.live && i < DATA_SIZE
    requires NodeTyped(n, b.mem[n][i := slot]) && (slot.Child? ==> slot.node in b.mem)
    ensures b.Stored(n, i, slot).Structured(z, dying)
  {
  }

  lemma StoredKept(b: Books, z: EmptyNodes, dying: set<SparseArray>, n: SparseArray, i: nat, slot: Slot)
    requires b.Counted() && b.Kept(dying) && n in b.live && i < |b.mem[n]|
    ensures b.Stored(n, i, slot).Kept(dying)
  {
    var b' := b.Stored(n, i, slot);
    forall p | p in b'.live && p !in dying
      ensures b'.Complete(p, 0)
    {
      assert b.Complete(p, 0);
    }
  }

  /** A copy is allocated before the references of its entries have been counted. */
  lemma CopyAllocatedStable(b: Books, z: EmptyNodes, dying: set<SparseArray>, n: SparseArray, slots: seq<Slot>)
    requires b.Stable(z, dying) && n !in b.mem && NodeTyped(n, slots)
    ensures b.Allocated(n, slots).Stable(z, dying + {n})
  {
    hide Books.Counted, Books.Structured, Books.Kept;
    CountedFact(b, z, dying);
    AllocatedCounted(b, n, slots);
    CopyStructured(b, z, dying, n, slots);
    AbsentUnreferenced(b, z, dying, n);
    CopyKept(b, dying, n, slots);
  }

  lemma CopyStructured(b: Books, z: EmptyNodes, dying: set<SparseArray>, n: SparseArray, slots: seq<Slot>)
    requires b.Structured(z, dying) && n !in b.mem && NodeTyped(n, slots)
    ensures b.Allocated(n, slots).Structured(z, dying + {n})
  {
  }

  lemma CopyKept(b: Books, dying: set<SparseArray>, n: SparseArray, slots: seq<Slot>)
    requires b.Counted() && b.Kept(dying) && n !in b.mem
    requires forall p, i :: p in b.live && p !in dying && 0 <= i < |b.mem[p]| ==> b.mem[p][i] != Child(n)
    ensures b.Allocated(n, slots).Kept(dying + {n})
  {
    var b' := b.Allocated(n, slots);
    forall p | p in b'.live && p !in dying + {n}
      ensures b'.Complete(p, 0)
    {
      assert b.Complete(p, 0);
    }
  }

  lemma CountedFact(b: Books, z: EmptyNodes, dying: set<SparseArray>)
    requires b.Stable(z, dying)
    ensures b.Counted()
  {
  }

  lemma RetainedStable(b: Books, z: EmptyNodes, dying: set<SparseArray>, n: SparseArray)
    requires b.Stable(z, dying) && n in b.live
    ensures b.Retained(n).Stable(z, dying)
  {
    CountsMoveTogether(b, b.Retained(n), n);
    SlotsKeepKept(b, b.Retained(n), dying);
  }

  lemma AttachedStable(b: Books, z: EmptyNodes, dying: set<SparseArray>, n: SparseArray, i: nat)
    requires b.Stable(z, dying) && n in b.live && i < DATA_SIZE && (n, i) !in b.edges
    requires b.mem[n][i].Child? && b.mem[n][i].node in b.roots
    ensures b.Attached(n, i).Stable(z, dying)
  {
    AttachedCounted(b, n, i);
    SlotsKeepKept(b, b.Attached(n, i), dying);
  }

  lemma ReleasedStable(b: Books, z: EmptyNodes, dying: set<SparseArray>, n: SparseArray, i: nat)
    requires b.Stable(z, dying) && n in b.live && n in dying && i < DATA_SIZE
    requires b.mem[n][i].Child? && b.mem[n][i].node in b.live ==> (n, i) in b.edges
    ensures b.Released(n, i).Stable(z, dying)
  {
    ReleasedCounted(b, n, i);
    SlotsKeepKept(b, b.Released(n, i), dying);
  }

  lemma DroppedStable(b: Books, z: EmptyNodes, dying: set<SparseArray>, n: SparseArray)
    requires b.Stable(z, dying) && n in b.roots && n !in dying
    ensures b.Dropped(n).Stable(z, if b.counts[n] == 1 then dying + {n} else dying)
  {
    CountsMoveTogether(b, b.Dropped(n), n);
    SlotsKeepKept(b, b.Dropped(n), if b.counts[n] == 1 then dying + {n} else dying);
  }

  /** The memory being the same, `Kept` asks only for the edges and the positive counts. */
  lemma SlotsKeepKept(b: Books, b': Books, dying: set<SparseArray>)
    requires b.live <= b.mem.Keys && b.live <= b.counts.Keys && b'.live <= b'.counts.Keys
    requires b'.mem == b.mem && b'.live == b.live
    requires forall p :: p in b.live && p !in dying ==> b.counts[p] > 0 && b.Complete(p, 0)
    requires forall p :: p in b.live && p !in dying ==> b'.counts[p] > 0
    requires forall e :: e in b.edges && e.0 !in dying ==> e in b'.edges
    ensures b'.Kept(dying)
  {
    forall p | p in b'.live && p !in dying
      ensures b'.Complete(p, 0)
    {
      assert b.Complete(p, 0);
    }
  }

  lemma FreedStable(b: Books, z: EmptyNodes, dying: set<SparseArray>, n: SparseArray)
    requires b.Stable(z, dying) && n in b.live && n in dying && b.counts[n] == 0
    requires forall e :: e in b.edges ==> e.0 != n
    ensures b.Freed(n).Stable(z, dying - {n})
  {
    var b' := b.Freed(n);
    FreedCounted(b, n);
    forall p, i | p in b.live && p !in dying && 0 <= i < |b.mem[p]|
      ensures b.mem[p][i] != Child(n)
    {
      assert b.Complete(p, 0);
      assert b.mem[p][i] == Child(n) ==> (p, i) in b.edges;
    }
    FreedStructured(b, z, dying, n);
    forall p | p in b'.live && p !in dying
      ensures b'.Complete(p, 0)
    {
      assert b.Complete(p, 0);
    }
  }

  lemma FreedStructured(b: Books, z: EmptyNodes, dying: set<SparseArray>, n: SparseArray)
    requires b.Structured(z, dying) && n in b.live && n in dying
    requires forall p, i :: p in b.live && p !in dying && 0 <= i < |b.mem[p]| ==> b.mem[p][i] != Child(n)
    ensures b.Freed(n).Structured(z, dying - {n})
  {
    var mem' := b.Freed(n).mem;
    forall p, i | p in mem' && p !in dying - {n} && p.shift > 0 && 0 <= i < DATA_SIZE
      ensures mem'[p][i].node in mem'
    {
      assert NodeTyped(p, b.mem[p]);
      if p in z.All() {
        assert mem'[p][i] == z.Fill(p.shift);
      }
    }
  }

  /** A node whose references have all been counted again stands for itself. */
  lemma StableAgain(b: Books, z: EmptyNodes, dying: set<SparseArray>, n: SparseArray)
    requires b.Stable(z, dying + {n}) && n in b.live
    requires b.counts[n] > 0 && b.Complete(n, 0)
    requires n.shift > 0 ==> forall i :: 0 <= i < DATA_SIZE ==> b.mem[n][i].node in b.mem
    ensures b.Stable(z, dying)
  {
  }

  lemma ShareEntryStable(b: Books, z: EmptyNodes, dying: set<SparseArray>, n: SparseArray, i: nat)
    requires b.Stable(z, dying) && n in b.live && i < DATA_SIZE && (n, i) !in b.edges
    ensures b.ShareEntry(n, i).Stable(z, dying)
  {
    if b.Holds(b.mem[n][i]) {
      RetainedStable(b, z, dying, b.mem[n][i].node);
      AttachedStable(b.Retained(b.mem[n][i].node), z, dying, n, i);
    }
  }

  lemma ShareEntryEffect(b: Books, n: SparseArray, i: nat)
    requires n in b.mem && i < |b.mem[n]| && b.counts.Keys == b.live && NodeTyped(n, b.mem[n])
    ensures b.ShareEntry(n, i).roots == b.roots
    ensures b.ShareEntry(n, i).edges == if b.Holds(b.mem[n][i]) then b.edges + {(n, i)} else b.edges
    ensures forall x :: x in b.live && x.shift >= n.shift ==> b.ShareEntry(n, i).counts[x] == b.counts[x]
  {
  }

  lemma SharedNone(b: Books, n: SparseArray)
    requires n in b.mem && b.counts.Keys == b.live
    ensures b.Shared(n, 0) == b
  {
  }

  lemma {:induction false} SharedEffect(b: Books, n: SparseArray, i: nat)
    requires n in b.mem && i <= |b.mem[n]| && b.counts.Keys == b.live && NodeTyped(n, b.mem[n])
    ensures b.Shared(n, i).roots == b.roots
    ensures forall e :: e in b.Shared(n, i).edges <==>
      e in b.edges || (e.0 == n && e.1 < i && b.Holds(b.mem[n][e.1]))
    ensures forall x :: x in b.live && x.shift >= n.shift ==> b.Shared(n, i).counts[x] == b.counts[x]
    ensures n.shift == 0 ==> b.Shared(n, i) == b
  {
    hide Books.ShareEntry;
    if i > 0 {
      SharedEffect(b, n, i - 1);
      ShareEntryEffect(b.Shared(n, i - 1), n, i - 1);
    }
  }

  lemma {:induction false} SharedStable(b: Books, z: EmptyNodes, dying: set<SparseArray>, n: SparseArray, i: nat)
    requires b.Stable(z, dying) && n in b.live && i <= DATA_SIZE
    requires forall e :: e in b.edges ==> e.0 != n
    ensures b.Shared(n, i).Stable(z, dying)
  {
    hide Books.Stable, Books.Shared, Books.ShareEntry;
    StableFacts(b, z, dying);
    if i > 0 {
      SharedStable(b, z, dying, n, i - 1);
      SharedEffect(b, n, i - 1);
      ShareEntryStable(b.Shared(n, i - 1), z, dying, n, i - 1);
      SharedMore(b, n, i);
    } else {
      SharedNone(b, n);
    }
  }

  lemma SharedMore(b: Books, n: SparseArray, i: nat)
    requires n in b.mem && 0 < i <= |b.mem[n]| && b.counts.Keys == b.live
    ensures b.Shared(n, i) == b.Shared(n, i - 1).ShareEntry(n, i - 1)
  {
  }

  lemma StableFacts(b: Books, z: EmptyNodes, dying: set<SparseArray>)
    requires b.Stable(z, dying)
    ensures b.live <= b.mem.Keys && b.counts.Keys == b.live
    ensures forall n :: n in b.mem ==> NodeTyped(n, b.mem[n])
    ensures forall n, i :: n in b.mem && n !in dying && n.shift > 0 && 0 <= i < DATA_SIZE ==> b.mem[n][i].node in b.mem
    ensures forall e :: e in b.edges ==> e.0 in b.live
    ensures forall n :: n in b.roots ==> n in b.live
  {
  }

  /** A copy shares every subtree of the original and owns a reference to each. */
  lemma CopyStable(b: Books, z: EmptyNodes, source: SparseArray, n: SparseArray)
    requires b.Stable(z, {}) && source in b.live && n !in b.mem && n.shift == source.shift
    ensures b.Allocated(n, b.mem[source]).Shared(n, DATA_SIZE).Stable(z, {})
  {
    hide Books.Stable;
    StableFacts(b, z, {});
    var none: set<SparseArray> := {};
    assert none + {n} == {n};
    CopyAllocatedStable(b, z, {}, n, b.mem[source]);
    var b0 := b.Allocated(n, b.mem[source]);
    SharedStable(b0, z, {n}, n, DATA_SIZE);
    CopyComplete(b0, n);
    StableAgain(b0.Shared(n, DATA_SIZE), z, {}, n);
  }

  lemma CopyComplete(b: Books, n: SparseArray)
    requires n in b.live && n in b.mem && b.counts.Keys == b.live && NodeTyped(n, b.mem[n])
    ensures b.Shared(n, DATA_SIZE).Complete(n, 0) && b.Shared(n, DATA_SIZE).counts[n] == b.counts[n]
  {
    SharedEffect(b, n, DATA_SIZE);
  }

  // ----- destruction -----

  /**
   What a destruction may do to the books: nodes outside `dying` go away, and nodes that
   stay keep their entries and can only lose references.
   */
  ghost predicate Survives(b: Books, b': Books, dying: set<SparseArray>)
  {
    && b'.live <= b.live && b'.edges <= b.edges
    && b.counts.Keys == b.live && b'.counts.Keys == b'.live
    && (forall x :: x in b.live && x in dying ==> x in b'.live)
    && (forall e :: e in b.edges && e.0 in dying ==> e in b'.edges)
    && (forall x :: x in b'.mem ==> x in b.mem && b'.mem[x] == b.mem[x])
    && (forall x :: x in b'.live ==> b'.counts[x] <= b.counts[x])
  }

  lemma SurvivesTransitive(b: Books, b1: Books, b2: Books, dying: set<SparseArray>, more: set<SparseArray>)
    requires Survives(b, b1, dying) && Survives(b1, b2, more) && dying <= more
    ensures Survives(b, b2, dying)
  {
  }

  lemma SurvivesRefl(b: Books, dying: set<SparseArray>)
    requires b.counts.Keys == b.live
    ensures Survives(b, b, dying)
  {
  }

  lemma SurvivesLess(b: Books, b': Books, dying: set<SparseArray>)
    requires Survives(b, b', dying)
    ensures b'.live <= b.live && b'.edges <= b.edges
  {
  }

  /** The nodes being taken apart have no reference left. */
  ghost predicate Spent(b: Books, dying: set<SparseArray>)
  {
    forall x :: x in b.live && x in dying ==> x in b.counts && b.counts[x] == 0
  }

  /** The entries of `n` from `i` on still hold what they refer to. */
  ghost predicate Covered(b: Books, z: EmptyNodes, n: SparseArray, i: nat)
  {
    n in b.mem &&
    forall j :: i <= j < |b.mem[n]| ==>
      b.mem[n][j].Child? && (b.mem[n][j].node in z.All() || (n, j) in b.edges)
  }

  lemma DroppedEffect(b: Books, z: EmptyNodes, dying: set<SparseArray>, n: SparseArray)
    requires b.Stable(z, dying) && Spent(b, dying) && n in b.roots && n !in dying
    ensures b.counts[n] > 0 && Survives(b, b.Dropped(n), dying)
    ensures b.counts[n] > 1 ==> b.Dropped(n).Stable(z, dying)
    ensures b.counts[n] == 1 ==> b.Dropped(n).Stable(z, dying + {n}) && Spent(b.Dropped(n), dying + {n})
    ensures n.shift > 0 ==> Covered(b.Dropped(n), z, n, 0)
    ensures n.shift == 0 ==> forall e :: e in b.edges ==> e.0 != n
  {
    DroppedStable(b, z, dying, n);
    assert NodeTyped(n, b.mem[n]);
    assert b.Complete(n, 0);
  }

  lemma FreedEffect(b: Books, z: EmptyNodes, dying: set<SparseArray>, n: SparseArray)
    requires b.Stable(z, dying + {n}) && Spent(b, dying + {n}) && n in b.live && n !in dying
    requires forall e :: e in b.edges ==> e.0 != n
    ensures b.Freed(n).Stable(z, dying) && Survives(b, b.Freed(n), dying)
  {
    FreedStable(b, z, dying + {n}, n);
    assert dying + {n} - {n} == dying;
  }

  /** A counted entry of a dying node hands its reference over and is then done. */
  lemma ReleasedEffect(b: Books, z: EmptyNodes, dying: set<SparseArray>, n: SparseArray, i: nat)
    requires b.Stable(z, dying) && n in b.live && n in dying && i < DATA_SIZE && n.shift > 0
    requires Covered(b, z, n, i) && b.mem[n][i].node !in z.All() && Spent(b, dying)
    ensures b.mem[n][i].node in b.live && b.mem[n][i].node !in dying
    ensures b.mem[n][i].node.shift < n.shift
    ensures b.Released(n, i) == b.(roots := b.roots + multiset{b.mem[n][i].node}, edges := b.edges - {(n, i)})
    ensures b.Released(n, i).Stable(z, dying) && Spent(b.Released(n, i), dying)
    ensures Survives(b, b.Released(n, i), dying - {n})
    ensures Covered(b.Released(n, i), z, n, i + 1)
  {
    hide Books.Stable;
    ReleasedChild(b, z, dying, n, i);
    ReleasedStable(b, z, dying, n, i);
    StableFacts(b, z, dying);
  }

  lemma ReleasedChild(b: Books, z: EmptyNodes, dying: set<SparseArray>, n: SparseArray, i: nat)
    requires b.Stable(z, dying) && n in b.live && n in dying && i < DATA_SIZE && n.shift > 0
    requires Covered(b, z, n, i) && b.mem[n][i].node !in z.All() && Spent(b, dying)
    ensures |b.mem[n]| == DATA_SIZE && b.mem[n][i].Child? && (n, i) in b.edges
    ensures b.mem[n][i].node in b.live && b.mem[n][i].node !in dying && b.mem[n][i].node.shift < n.shift
  {
    assert NodeTyped(n, b.mem[n]);
    assert (n, i) in b.Into(b.mem[n][i].node);
  }

  /** What a dying node and its entries keep while something else is destroyed. */
  lemma SurvivesDying(b: Books, b': Books, z: EmptyNodes, dying: set<SparseArray>, n: SparseArray, i: nat)
    requires b.Stable(z, dying) && b'.Stable(z, dying) && Survives(b, b', dying)
    requires Spent(b, dying) && n in b.live && n in dying && Covered(b, z, n, i)
    ensures n in b'.live && Spent(b', dying) && Covered(b', z, n, i)
  {
  }

  lemma BuffersGrow(z: EmptyNodes, live: set<SparseArray>, n: SparseArray)
    ensures BuffersOf(z.With(live + {n})) == BuffersOf(z.With(live)) + {n.data}
  {
  }
}
