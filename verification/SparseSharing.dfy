/**
 What insertion, copying, destruction and expansion do to the contents of the arrays that
 share the memory.
 */
module SparseSharing {
  import opened SparseMemory
  import opened SparseCounting

  // ----- insertion -----

  /** An unused node holds nothing. */
  lemma {:induction false} EmptyGet(d: Memory, z: EmptyNodes, n: SparseArray, key: nat)
    requires Shaped(d) && z.Shaped(d) && n in d && d[n] == seq(DATA_SIZE, _ => z.Fill(n.shift))
    ensures Get(d, n, key) == 0
    decreases n.shift
  {
    if n.shift > 0 {
      assert d[n][Digit(key, n.shift)] == z.Fill(n.shift);
      EmptyGet(d, z, z.Fill(n.shift).node, key);
    }
  }

  /**
   The insertion below `n` wrote only the nodes of `touched`, which nothing outside
   `touched` refers to, except to `n` itself.
   */
  ghost predicate Confined(b: Books, b': Books, n: SparseArray, touched: set<SparseArray>)
  {
    && touched <= b.live <= b'.live && n in touched && b'.roots == b.roots
    && b.live <= b.counts.Keys && b'.live <= b'.counts.Keys
    && (forall x :: x in touched ==> x.shift <= n.shift && (x != n ==> x !in b.roots))
    && (forall x :: x in b.mem && x !in touched ==> x in b'.mem && b'.mem[x] == b.mem[x])
    && (forall x, i :: x in b.mem && x !in touched && 0 <= i < |b.mem[x]| && b.mem[x][i].Child? ==>
          b.mem[x][i].node == n || b.mem[x][i].node !in touched)
    && (forall x :: x in b.live && x.shift >= n.shift ==> b'.counts[x] == b.counts[x])
  }

  lemma ConfinedFacts(b: Books, b': Books, n: SparseArray, touched: set<SparseArray>)
    requires Confined(b, b', n, touched)
    ensures b'.roots == b.roots && n in b.counts && n in b'.counts && b'.counts[n] == b.counts[n]
  {
  }

  /** Entry `i` of `n` has been made to point to a node `c` that only it refers to. */
  ghost predicate Prepared(b: Books, b': Books, n: SparseArray, i: nat, c: SparseArray)
  {
    && n in b.live && n in b.mem && i < |b.mem[n]| && b.mem[n][i].Child?
    && b.live <= b'.live && b'.live <= b.live + {c} && c in b'.live && b'.roots == b.roots
    && b.live <= b.counts.Keys && b'.live <= b'.counts.Keys
    && c.shift < n.shift && b'.counts[c] == 1 && (n, i) in b'.edges
    && (if c in b.mem then b' == b && b.mem[n][i] == Child(c)
        else c in b'.mem && b'.mem == b.mem[c := b'.mem[c]][n := b.mem[n][i := Child(c)]])
    && (forall x :: x in b.live && x.shift >= n.shift ==> b'.counts[x] == b.counts[x])
  }

  /** A copy of the child in entry `i` of `n` has been made and put in its place. */
  ghost predicate CopyAttached(b: Books, b': Books, n: SparseArray, i: nat, child: SparseArray, c: SparseArray) {
    && child in b.mem && n in b.mem && |b.mem[child]| == DATA_SIZE && |b.mem[n]| == DATA_SIZE && i < DATA_SIZE
    && b.counts.Keys == b.live
    && b' == b.Allocated(c, b.mem[child]).Shared(c, DATA_SIZE).Stored(n, i, Child(c))
  }

  /** The contents below the prepared node are those below the entry that was there. */
  ghost predicate SameBelow(b: Books, b': Books, n: SparseArray, i: nat, c: SparseArray)
    requires Shaped(b.mem) && Shaped(b'.mem) && Prepared(b, b', n, i, c)
    requires b.mem[n][i].node in b.mem && c in b'.mem
  {
    forall k: nat :: Get(b'.mem, c, k) == Get(b.mem, b.mem[n][i].node, k)
  }

  ghost predicate InsertedBelow(b: Books, b': Books, n: SparseArray, key: nat, value: nat)
    requires Shaped(b.mem) && Shaped(b'.mem) && n in b.mem && n in b'.mem
  {
    forall k: nat :: Get(b'.mem, n, k) == if SameKey(n.shift, k, key) then value else Get(b.mem, n, k)
  }

  /** Only the prepared slot refers to the prepared node. */
  lemma PreparedAlone(b: Books, b1: Books, z: EmptyNodes, n: SparseArray, i: nat, c: SparseArray)
    requires b1.Stable(z, {}) && Prepared(b, b1, n, i, c) && n in b1.mem && i < |b1.mem[n]| && b1.mem[n][i] == Child(c)
    ensures c !in b1.roots
    ensures forall x, j :: x in b1.mem && 0 <= j < |b1.mem[x]| && b1.mem[x][j] == Child(c) ==> x == n && j == i
  {
    OnlyReference(b1, (n, i));
    forall x, j | x in b1.mem && 0 <= j < |b1.mem[x]| && b1.mem[x][j] == Child(c)
      ensures x == n && j == i
    {
      if x in b1.live {
        assert b1.Complete(x, 0);
        assert (x, j) in b1.edges && b1.mem[(x, j).0][(x, j).1] == b1.mem[(n, i).0][(n, i).1];
      }
    }
  }

  lemma ConfinedAbove(b: Books, b1: Books, b2: Books, z: EmptyNodes, n: SparseArray, i: nat, c: SparseArray,
                      touched: set<SparseArray>)
    requires b.Stable(z, {}) && b1.Stable(z, {}) && b2.Stable(z, {})
    requires Prepared(b, b1, n, i, c) && Confined(b1, b2, c, touched)
    ensures Confined(b, b2, n, {n} + touched * b.live)
  {
    hide Books.Stable;
    StableFacts(b, z, {});
    StableFacts(b1, z, {});
    assert b1.mem[n][i] == Child(c);
    PreparedAlone(b, b1, z, n, i, c);
    ConfinedCore(b, b1, b2, n, i, c, touched);
  }

  lemma ConfinedCore(b: Books, b1: Books, b2: Books, n: SparseArray, i: nat, c: SparseArray,
                     touched: set<SparseArray>)
    requires Prepared(b, b1, n, i, c) && Confined(b1, b2, c, touched)
    requires b.live <= b.mem.Keys && c !in b1.roots
    requires forall x, j :: x in b.mem && 0 <= j < |b.mem[x]| && b.mem[x][j].Child? ==> b.mem[x][j].node in b.mem
    requires forall x, j :: x in b1.mem && 0 <= j < |b1.mem[x]| && b1.mem[x][j] == Child(c) ==> x == n && j == i
    ensures Confined(b, b2, n, {n} + touched * b.live)
  {
    var all := {n} + touched * b.live;
    forall x | x in b.mem && x !in all
      ensures x !in touched && x in b1.mem && b1.mem[x] == b.mem[x]
    {
    }
    forall x, j | x in b.mem && x !in all && 0 <= j < |b.mem[x]| && b.mem[x][j].Child?
      ensures b.mem[x][j].node == n || b.mem[x][j].node !in all
    {
      assert b1.mem[x][j].node != c;
    }
  }

  /** An insertion confined below `c` leaves the contents of a node that is not above `c`. */
  lemma UnaffectedBeside(b: Books, b': Books, c: SparseArray, touched: set<SparseArray>, y: SparseArray, key: nat)
    requires Shaped(b.mem) && Shaped(b'.mem) && Confined(b, b', c, touched)
    requires y in b.mem && y !in touched && y.shift <= c.shift
    ensures y in b'.mem && Get(b'.mem, y, key) == Get(b.mem, y, key)
  {
    forall x, i | x in b.mem && x !in touched && 0 < x.shift <= y.shift && 0 <= i < DATA_SIZE
      ensures b.mem[x][i].node !in touched
    {
      assert NodeTyped(x, b.mem[x]);
    }
    GetFrame(b.mem, b'.mem, touched, y, key);
  }

  lemma UnaffectedByPreparing(b: Books, b': Books, n: SparseArray, i: nat, c: SparseArray, y: SparseArray, key: nat)
    requires Shaped(b.mem) && Shaped(b'.mem) && Prepared(b, b', n, i, c)
    requires y in b.mem && y.shift < n.shift
    ensures y in b'.mem && Get(b'.mem, y, key) == Get(b.mem, y, key)
  {
    forall x, j | x in b.mem && x != n && 0 < x.shift <= y.shift && 0 <= j < DATA_SIZE
      ensures b.mem[x][j].node != n
    {
      assert NodeTyped(x, b.mem[x]);
    }
    GetFrame(b.mem, b'.mem, {n}, y, key);
  }

  lemma InsertedBeside(b: Books, b1: Books, b2: Books, n: SparseArray, i: nat, c: SparseArray,
                       touched: set<SparseArray>, key: nat)
    requires Shaped(b.mem) && Shaped(b1.mem) && Shaped(b2.mem)
    requires n.shift in {8, 16, 24} && n in b.mem && n in b1.mem && n in b2.mem && n !in touched
    requires Prepared(b, b1, n, i, c) && Confined(b1, b2, c, touched)
    requires Digit(key, n.shift) != i && b.mem[n][Digit(key, n.shift)] != Child(c)
    ensures Get(b2.mem, n, key) == Get(b.mem, n, key)
  {
    var j := Digit(key, n.shift);
    assert NodeTyped(n, b.mem[n]) && NodeTyped(n, b1.mem[n]) && b2.mem[n] == b1.mem[n];
    var y := b.mem[n][j].node;
    assert b1.mem[n][j] == Child(y);
    assert b1.mem[n][i] == Child(c);
    UnaffectedByPreparing(b, b1, n, i, c, y, key);
    UnaffectedBeside(b1, b2, c, touched, y, key);
  }

  lemma InsertedInto(b: Books, b1: Books, b2: Books, n: SparseArray, c: SparseArray, index: nat, value: nat,
                     touched: set<SparseArray>, key: nat)
    requires Shaped(b.mem) && Shaped(b1.mem) && Shaped(b2.mem)
    requires n.shift in {8, 16, 24} && n in b.mem && n in b1.mem && n in b2.mem && c in b1.mem && c in b2.mem
    requires n !in touched && c.shift == n.shift - 8
    requires Prepared(b, b1, n, Digit(index, n.shift), c) && SameBelow(b, b1, n, Digit(index, n.shift), c)
    requires Confined(b1, b2, c, touched) && InsertedBelow(b1, b2, c, index, value)
    requires Digit(key, n.shift) == Digit(index, n.shift)
    ensures Get(b2.mem, n, key) == if SameKey(n.shift, key, index) then value else Get(b.mem, n, key)
  {
    var i := Digit(index, n.shift);
    assert b2.mem[n] == b1.mem[n] && b2.mem[n][i] == Child(c);
    assert Get(b1.mem, c, key) == Get(b.mem, b.mem[n][i].node, key);
    assert Get(b2.mem, c, key) == if SameKey(c.shift, key, index) then value else Get(b1.mem, c, key);
  }

  /** One level of the insertion: entry `i` leads to `c`, and the key is inserted below it. */
  lemma InsertedAbove(b: Books, b1: Books, b2: Books, n: SparseArray, c: SparseArray, index: nat, value: nat,
                      touched: set<SparseArray>)
    requires Shaped(b.mem) && Shaped(b1.mem) && Shaped(b2.mem)
    requires n.shift in {8, 16, 24} && n in b.mem && n in b1.mem && n in b2.mem && c in b1.mem && c in b2.mem
    requires n !in touched && c.shift == n.shift - 8
    requires Prepared(b, b1, n, Digit(index, n.shift), c) && SameBelow(b, b1, n, Digit(index, n.shift), c)
    requires Confined(b1, b2, c, touched) && InsertedBelow(b1, b2, c, index, value)
    requires forall j :: 0 <= j < DATA_SIZE && j != Digit(index, n.shift) ==> b.mem[n][j] != Child(c)
    ensures InsertedBelow(b, b2, n, index, value)
  {
    hide Prepared, Confined, Get, SameBelow;
    forall k: nat
      ensures Get(b2.mem, n, k) == if SameKey(n.shift, k, index) then value else Get(b.mem, n, k)
    {
      if Digit(k, n.shift) == Digit(index, n.shift) {
        InsertedInto(b, b1, b2, n, c, index, value, touched, k);
      } else {
        InsertedBeside(b, b1, b2, n, Digit(index, n.shift), c, touched, k);
      }
    }
  }

  // ----- the three ways to prepare an entry -----

  lemma StableShaped(b: Books, z: EmptyNodes)
    requires b.Stable(z, {})
    ensures Shaped(b.mem) && z.Shaped(b.mem) && forall n :: n in z.All() ==> n in b.mem
    ensures b.live !! z.All() && b.mem.Keys == b.live + z.All() && b.counts.Keys == b.live
  {
  }

  lemma ChildTyped(d: Memory, n: SparseArray, i: nat, c: SparseArray)
    requires Typed(d) && n in d && n.shift > 0 && i < DATA_SIZE && c.shift == n.shift - 8
    ensures |d[n]| == DATA_SIZE && n.shift in {8, 16, 24}
    ensures NodeTyped(n, d[n][i := Child(c)]) && d[n][i].Child? && d[n][i].node.shift == n.shift - 8
  {
    assert NodeTyped(n, d[n]);
  }

  /** The books `b0` differ from `b` by the new node `c`, owned by the caller. */
  ghost predicate NewNode(b: Books, b0: Books, c: SparseArray)
  {
    && b.counts.Keys == b.live && c !in b.mem && c !in b.live
    && c in b0.mem && b0.mem == b.mem[c := b0.mem[c]] && b0.live == b.live + {c}
    && b0.roots == b.roots + multiset{c} && b0.counts.Keys == b0.live && b0.counts[c] == 1
    && (forall x :: x in b.live && x.shift >= c.shift ==> b0.counts[x] == b.counts[x])
  }

  lemma NewChildOverEmpty(b: Books, b0: Books, n: SparseArray, i: nat, c: SparseArray)
    requires NewNode(b, b0, c)
    requires n in b.live && n in b.mem && n in b0.mem && i < |b.mem[n]| && i < |b0.mem[n]|
    requires c.shift < n.shift && b.mem[n][i].Child? && b.mem[n][i].node !in b.live && b.mem[n][i].node != c
    ensures Prepared(b, b0.Stored(n, i, Child(c)), n, i, c)
    ensures c in b0.Stored(n, i, Child(c)).counts && b0.Stored(n, i, Child(c)).counts[c] == 1
  {
    assert b0.mem[n] == b.mem[n];
    assert b0.roots - multiset{c} == b.roots;
  }

  lemma NewChildOverShared(b: Books, b0: Books, n: SparseArray, i: nat, c: SparseArray)
    requires NewNode(b, b0, c)
    requires n in b.live && n in b.mem && n in b0.mem && i < |b.mem[n]| && i < |b0.mem[n]|
    requires c.shift < n.shift && b.mem[n][i].Child? && b.mem[n][i].node in b.live
    requires b.mem[n][i].node.shift == c.shift && b.counts[b.mem[n][i].node] > 1
    ensures var b1 := b0.Stored(n, i, Child(c));
      var was := b.mem[n][i].node;
      && was in b1.live && was in b1.roots && was in b1.counts && b1.counts[was] > 1
      && Prepared(b, b1.Dropped(was), n, i, c)
    ensures var b1 := b0.Stored(n, i, Child(c)); c in b1.live && c in b1.counts && b1.counts[c] == 1
  {
    var was := b.mem[n][i].node;
    assert b0.mem[n] == b.mem[n];
    assert b0.roots + multiset{was} - multiset{c} - multiset{was} == b.roots;
    assert was in b0.roots + multiset{was} - multiset{c};
  }

  lemma FreshBelow(b: Books, b': Books, z: EmptyNodes, n: SparseArray, i: nat, c: SparseArray)
    requires Shaped(b.mem) && Shaped(b'.mem) && z.Shaped(b.mem) && z.Shaped(b'.mem)
    requires Prepared(b, b', n, i, c) && b.mem[n][i].node in b.mem && c in b'.mem
    requires b'.mem[c] == seq(DATA_SIZE, _ => z.Fill(c.shift)) && b.mem[n][i].node in z.All()
    ensures SameBelow(b, b', n, i, c)
  {
    forall k: nat
      ensures Get(b'.mem, c, k) == Get(b.mem, b.mem[n][i].node, k)
    {
      EmptyGet(b'.mem, z, c, k);
      EmptyGet(b.mem, z, b.mem[n][i].node, k);
    }
  }

  lemma CopyBelow(b: Books, b': Books, n: SparseArray, i: nat, c: SparseArray)
    requires Shaped(b.mem) && Shaped(b'.mem)
    requires Prepared(b, b', n, i, c) && b.mem[n][i].node in b.mem && c in b'.mem
    requires c.shift == b.mem[n][i].node.shift && b'.mem[c] == b.mem[b.mem[n][i].node]
    ensures SameBelow(b, b', n, i, c)
  {
    var child := b.mem[n][i].node;
    forall k: nat
      ensures Get(b'.mem, c, k) == Get(b.mem, child, k)
    {
      if c.shift > 0 {
        assert NodeTyped(child, b.mem[child]);
        UnaffectedByPreparing(b, b', n, i, c, b.mem[child][Digit(k, c.shift)].node, k);
      }
    }
  }

  /** The entry was unused: a new node takes its place. */
  lemma PreparedFresh(b: Books, b': Books, z: EmptyNodes, n: SparseArray, i: nat, c: SparseArray)
    requires b.Stable(z, {}) && n in b.live && n.shift > 0 && i < DATA_SIZE
    requires b.mem[n][i].node in z.All() && c !in b.mem && c.shift == n.shift - 8
    requires b' == b.Allocated(c, seq(DATA_SIZE, _ => z.Fill(c.shift))).Stored(n, i, Child(c))
    ensures b'.Stable(z, {}) && Prepared(b, b', n, i, c) && c in b'.counts && b'.counts[c] == 1
    ensures b.mem[n][i].node in b.mem && SameBelow(b, b', n, i, c)
  {
    hide Books.Stable, Prepared, SameBelow, Get, Shaped, EmptyNodes.Shaped;
    StableShaped(b, z);
    ChildTyped(b.mem, n, i, c);
    var b0 := b.Allocated(c, seq(DATA_SIZE, _ => z.Fill(c.shift)));
    AllocatedStable(b, z, {}, c);
    StableFacts(b0, z, {});
    ChildTyped(b0.mem, n, i, c);
    StoredStable(b0, z, {}, n, i, Child(c));
    NewChildOverEmpty(b, b0, n, i, c);
    StableShaped(b', z);
    FreshBelow(b, b', z, n, i, c);
  }

  /** The entry was shared: a copy takes its place and the shared node loses a reference. */
  lemma PreparedCopy(b: Books, b': Books, z: EmptyNodes, n: SparseArray, i: nat, c: SparseArray)
    requires b.Stable(z, {}) && n in b.live && n.shift > 0 && i < DATA_SIZE
    requires b.mem[n][i].node in b.live && b.counts[b.mem[n][i].node] > 1
    requires c !in b.mem && c.shift == n.shift - 8
    requires b' == b.Allocated(c, b.mem[b.mem[n][i].node]).Shared(c, DATA_SIZE).Stored(n, i, Child(c))
    ensures b'.Stable(z, {})
    ensures var was := b.mem[n][i].node;
      was in b'.roots && was in b'.live && b'.counts[was] > 1 &&
      b'.Dropped(was).Stable(z, {}) && Prepared(b, b'.Dropped(was), n, i, c) && SameBelow(b, b'.Dropped(was), n, i, c)
    ensures c in b'.live && c in b'.counts && b'.counts[c] == 1 && c != b.mem[n][i].node
  {
    hide Books.Stable, Prepared, SameBelow, Get, Shaped, EmptyNodes.Shaped, Books.Shared, NewNode;
    StableShaped(b, z);
    ChildTyped(b.mem, n, i, c);
    var was := b.mem[n][i].node;
    var b1 := b.Allocated(c, b.mem[was]).Shared(c, DATA_SIZE);
    CopyNewNode(b, z, was, c);
    ChildTyped(b1.mem, n, i, c);
    StoredStable(b1, z, {}, n, i, Child(c));
    NewChildOverShared(b, b1, n, i, c);
    DroppedStable(b', z, {}, was);
    StableShaped(b'.Dropped(was), z);
    CopyBelow(b, b'.Dropped(was), n, i, c);
  }

  lemma CopyNewNode(b: Books, z: EmptyNodes, source: SparseArray, c: SparseArray)
    requires b.Stable(z, {}) && source in b.live && source in b.mem && c !in b.mem && c.shift == source.shift
    ensures |b.mem[source]| == DATA_SIZE
    ensures var b1 := b.Allocated(c, b.mem[source]).Shared(c, DATA_SIZE);
      && NewNode(b, b1, c) && b1.Stable(z, {}) && c in b1.live && c in b1.roots
      && b1.mem == b.mem[c := b.mem[source]] && Typed(b1.mem)
  {
    hide Books.Stable;
    CopyStable(b, z, source, c);
    StableFacts(b, z, {});
    SharedEffect(b.Allocated(c, b.mem[source]), c, DATA_SIZE);
  }

  /** The entry was held by this array alone: it is used as it is. */
  lemma PreparedOwn(b: Books, z: EmptyNodes, n: SparseArray, i: nat)
    requires b.Stable(z, {}) && n in b.live && n.shift > 0 && i < DATA_SIZE
    requires b.mem[n][i].node in b.live && b.counts[b.mem[n][i].node] == 1
    ensures Prepared(b, b, n, i, b.mem[n][i].node) && SameBelow(b, b, n, i, b.mem[n][i].node)
  {
    assert b.Complete(n, 0);
    assert NodeTyped(n, b.mem[n]);
  }

  /** At a leaf the entry itself is overwritten. */
  lemma LeafWritten(b: Books, z: EmptyNodes, n: SparseArray, index: nat, value: nat)
    requires b.Stable(z, {}) && n in b.live && n.shift == 0
    ensures n in b.mem && |b.mem[n]| == DATA_SIZE
    ensures var b' := b.Written(n, Digit(index, 0), Address(value));
      b'.Stable(z, {}) && Confined(b, b', n, {n}) && InsertedBelow(b, b', n, index, value)
  {
    hide Books.Stable;
    StableFacts(b, z, {});
    var i := Digit(index, 0);
    assert NodeTyped(n, b.mem[n]) && NodeTyped(n, b.mem[n][i := Address(value)]);
    LeafNotCounted(b, z, n, i);
    assert b.Written(n, i, Address(value)) == b.Stored(n, i, Address(value));
    StoredStable(b, z, {}, n, i, Address(value));
    var b' := b.Written(n, i, Address(value));
    StableShaped(b, z);
    StableShaped(b', z);
    LeafInserted(b, b', n, index, value);
  }

  lemma LeafNotCounted(b: Books, z: EmptyNodes, n: SparseArray, i: nat)
    requires b.Stable(z, {}) && n in b.live && n.shift == 0
    ensures (n, i) !in b.edges
  {
    assert NodeTyped(n, b.mem[n]);
  }

  lemma LeafInserted(b: Books, b': Books, n: SparseArray, index: nat, value: nat)
    requires Shaped(b.mem) && Shaped(b'.mem) && n in b.mem && n in b'.mem && n.shift == 0
    requires |b.mem[n]| == DATA_SIZE && b'.mem[n] == b.mem[n][Digit(index, 0) := Address(value)]
    ensures InsertedBelow(b, b', n, index, value)
  {
    assert NodeTyped(n, b.mem[n]);
    forall k: nat
      ensures Get(b'.mem, n, k) == if SameKey(n.shift, k, index) then value else Get(b.mem, n, k)
    {
    }
  }

  /** One whole level of an insertion, from the level below. */
  lemma InsertedLevel(b: Books, b1: Books, b2: Books, z: EmptyNodes, n: SparseArray, c: SparseArray, index: nat,
                      value: nat, touched: set<SparseArray>)
    requires b.Stable(z, {}) && b1.Stable(z, {}) && b2.Stable(z, {}) && n in b.live
    requires n.shift in {8, 16, 24} && c.shift == n.shift - 8 && n in b.mem && |b.mem[n]| == DATA_SIZE
    requires Prepared(b, b1, n, Digit(index, n.shift), c)
    requires b.mem[n][Digit(index, n.shift)].node in b.mem && SameBelow(b, b1, n, Digit(index, n.shift), c)
    requires Confined(b1, b2, c, touched) && c in b2.mem && InsertedBelow(b1, b2, c, index, value)
    ensures Confined(b, b2, n, {n} + touched * b.live)
    ensures n in b2.mem && InsertedBelow(b, b2, n, index, value)
  {
    hide Books.Stable, SameBelow, InsertedBelow;
    var i := Digit(index, n.shift);
    StableShaped(b, z);
    StableShaped(b1, z);
    StableShaped(b2, z);
    ConfinedAbove(b, b1, b2, z, n, i, c, touched);
    assert b1.mem[n] == b.mem[n][i := Child(c)];
    PreparedAlone(b, b1, z, n, i, c);
    forall j | 0 <= j < DATA_SIZE && j != i
      ensures b.mem[n][j] != Child(c)
    {
      assert b1.mem[n][j] == b.mem[n][j];
    }
    InsertedAbove(b, b1, b2, n, c, index, value, touched);
  }

  // ----- what the owners of other arrays see -----

  /** The array rooted at `r` holds the same as before. */
  ghost predicate SameContents(b: Books, b': Books, r: SparseArray)
    requires Shaped(b.mem) && Shaped(b'.mem) && r in b.mem && r in b'.mem
  {
    forall k: nat :: Get(b'.mem, r, k) == Get(b.mem, r, k)
  }

  /** An insertion into one array is not seen by any other. */
  lemma OthersUnaffected(b: Books, b': Books, z: EmptyNodes, n: SparseArray, touched: set<SparseArray>, r: SparseArray)
    requires b.Stable(z, {}) && Shaped(b.mem) && Shaped(b'.mem) && Confined(b, b', n, touched)
    requires n in b.roots && b.counts[n] == 1 && r in b.roots && r != n && r in b.mem
    ensures r in b'.mem && SameContents(b, b', r)
  {
    NoSlotHolds(b, z, n);
    hide Books.Stable;
    forall k: nat
      ensures r in b'.mem && Get(b'.mem, r, k) == Get(b.mem, r, k)
    {
      forall x, i | x in b.mem && x !in touched && 0 < x.shift <= r.shift && 0 <= i < DATA_SIZE
        ensures b.mem[x][i].node !in touched
      {
        assert NodeTyped(x, b.mem[x]);
      }
      GetFrame(b.mem, b'.mem, touched, r, k);
    }
  }

  lemma AllOthersUnaffected(b: Books, b': Books, z: EmptyNodes, n: SparseArray, touched: set<SparseArray>)
    requires b.Stable(z, {}) && Shaped(b.mem) && Shaped(b'.mem) && Confined(b, b', n, touched)
    requires n in b.roots && b.counts[n] == 1
    ensures forall r :: r in b.roots && r != n ==> r in b.mem && r in b'.mem && SameContents(b, b', r)
  {
    StableFacts(b, z, {});
    hide Books.Stable, Confined, SameContents;
    forall r | r in b.roots && r != n
      ensures r in b.mem && r in b'.mem && SameContents(b, b', r)
    {
      OthersUnaffected(b, b', z, n, touched, r);
    }
  }

  lemma InsertedModulo(b: Books, b': Books, n: SparseArray, key: nat, value: nat)
    requires Shaped(b.mem) && Shaped(b'.mem) && n in b.mem && n in b'.mem && n.shift in {0, 8, 16, 24}
    requires InsertedBelow(b, b', n, key, value)
    ensures forall k: nat ::
      Get(b'.mem, n, k) == if k % Capacity(n.shift) == key % Capacity(n.shift) then value else Get(b.mem, n, k)
  {
    forall k: nat
      ensures SameKey(n.shift, k, key) <==> k % Capacity(n.shift) == key % Capacity(n.shift)
    {
      SameKeyIsModulo(n.shift, k, key);
    }
  }

  lemma NoSlotHolds(b: Books, z: EmptyNodes, n: SparseArray)
    requires b.Stable(z, {}) && n in b.roots && b.counts[n] == 1
    ensures forall x, i :: x in b.mem && 0 <= i < |b.mem[x]| ==> b.mem[x][i] != Child(n)
  {
    OnlyOwner(b, n);
    forall x, i | x in b.mem && 0 <= i < |b.mem[x]|
      ensures b.mem[x][i] != Child(n)
    {
      if x in b.live {
        assert b.Complete(x, 0);
        assert (x, i) in b.edges ==> b.mem[x][i] != Child(n);
      }
    }
  }

  /** Nodes that come or go do not change what is stored below a node that stays. */
  lemma {:induction false} GetKept(d: Memory, d': Memory, n: SparseArray, key: nat)
    requires Shaped(d) && Shaped(d') && n in d && n in d'
    requires forall x :: x in d && x in d' ==> d'[x] == d[x]
    ensures Get(d', n, key) == Get(d, n, key)
    decreases n.shift
  {
    if n.shift > 0 {
      GetKept(d, d', d[n][Digit(key, n.shift)].node, key);
    }
  }

  lemma KeptContents(b: Books, b': Books, n: SparseArray)
    requires Shaped(b.mem) && Shaped(b'.mem) && n in b.mem && n in b'.mem
    requires forall x :: x in b.mem && x in b'.mem ==> b'.mem[x] == b.mem[x]
    ensures SameContents(b, b', n)
  {
    forall k: nat
      ensures Get(b'.mem, n, k) == Get(b.mem, n, k)
    {
      GetKept(b.mem, b'.mem, n, k);
    }
  }

  /** A copy holds what the original holds. */
  lemma CopyContents(b: Books, b': Books, source: SparseArray, copy: SparseArray)
    requires Shaped(b.mem) && Shaped(b'.mem) && source in b.mem && copy !in b.mem && copy.shift == source.shift
    requires b'.mem == b.mem[copy := b.mem[source]]
    ensures forall k: nat :: Get(b'.mem, copy, k) == Get(b.mem, source, k)
  {
    forall k: nat
      ensures Get(b'.mem, copy, k) == Get(b.mem, source, k)
    {
      if source.shift > 0 {
        GetKept(b.mem, b'.mem, b.mem[source][Digit(k, source.shift)].node, k);
      }
    }
  }

  /** What a copy leaves: the copy, with one reference, and every array as it was. */
  lemma CopiedAll(b: Books, b': Books, z: EmptyNodes, source: SparseArray, copy: SparseArray)
    requires b.Stable(z, {}) && b'.Stable(z, {}) && source in b.live && source in b.mem && copy !in b.mem
    requires |b.mem[source]| == DATA_SIZE && copy.shift == source.shift && b.counts.Keys == b.live
    requires b' == b.Allocated(copy, b.mem[source]).Shared(copy, DATA_SIZE)
    ensures Shaped(b.mem) && Shaped(b'.mem) && copy in b'.mem && copy in b'.counts && b'.counts[copy] == 1
    ensures b'.roots == b.roots + multiset{copy}
    ensures forall k: nat :: Get(b'.mem, copy, k) == Get(b.mem, source, k)
    ensures forall r :: r in b.roots ==> r in b.mem && r in b'.mem && SameContents(b, b', r)
  {
    hide Books.Stable, Shaped, SameContents, Get, Books.Shared;
    StableShaped(b, z);
    StableShaped(b', z);
    StableFacts(b, z, {});
    SourceTyped(b, source);
    var b0 := b.Allocated(copy, b.mem[source]);
    SharedEffect(b0, copy, DATA_SIZE);
    CopyContents(b, b', source, copy);
    forall r | r in b.roots
      ensures r in b.mem && r in b'.mem && SameContents(b, b', r)
    {
      KeptContents(b, b', r);
    }
  }

  lemma SourceTyped(b: Books, source: SparseArray)
    requires Shaped(b.mem) && source in b.mem
    ensures NodeTyped(source, b.mem[source])
  {
  }

  // ----- nothing leaks and nothing dangles -----

  ghost predicate Reaches(d: Memory, r: SparseArray, n: SparseArray)
    requires Shaped(d) && r in d
    decreases r.shift
  {
    r == n || (r.shift > 0 && exists i :: 0 <= i < DATA_SIZE && Reaches(d, d[r][i].node, n))
  }

  lemma {:induction false} ReachesChild(d: Memory, r: SparseArray, p: SparseArray, i: nat)
    requires Shaped(d) && r in d && p in d && Reaches(d, r, p) && p.shift > 0 && i < DATA_SIZE
    ensures Reaches(d, r, d[p][i].node)
    decreases r.shift
  {
    if r == p {
      assert Reaches(d, d[r][i].node, d[p][i].node);
    } else {
      var j :| 0 <= j < DATA_SIZE && Reaches(d, d[r][j].node, p);
      ReachesChild(d, d[r][j].node, p, i);
    }
  }

  lemma {:induction false} ReachedFromRoot(b: Books, z: EmptyNodes, n: SparseArray)
    requires b.Stable(z, {}) && Shaped(b.mem) && n in b.live
    ensures exists r :: r in b.roots && r in b.mem && Reaches(b.mem, r, n)
    decreases 24 - n.shift
  {
    assert NodeTyped(n, b.mem[n]);
    if n in b.roots {
      assert Reaches(b.mem, n, n);
    } else {
      assert b.counts[n] > 0;
      var e :| e in b.Into(n);
      assert NodeTyped(e.0, b.mem[e.0]);
      ReachedFromRoot(b, z, e.0);
      var r :| r in b.roots && r in b.mem && Reaches(b.mem, r, e.0);
      ReachesChild(b.mem, r, e.0, e.1);
    }
  }

  lemma {:induction false} ReachedIsAllocated(b: Books, z: EmptyNodes, r: SparseArray, n: SparseArray)
    requires b.Stable(z, {}) && Shaped(b.mem) && r in b.mem && Reaches(b.mem, r, n)
    ensures n in b.mem
    decreases r.shift
  {
    if r != n {
      var i :| 0 <= i < DATA_SIZE && Reaches(b.mem, b.mem[r][i].node, n);
      ReachedIsAllocated(b, z, b.mem[r][i].node, n);
    }
  }

  /**
   The allocated nodes are exactly those that some owner can reach, so that a destruction
   frees a node exactly when nothing refers to it any more.
   */
  lemma AllocatedIsReachable(b: Books, z: EmptyNodes, n: SparseArray)
    requires b.Stable(z, {}) && Shaped(b.mem)
    ensures n in b.live <==> !z.Has(n) && exists r :: r in b.roots && r in b.mem && Reaches(b.mem, r, n)
  {
    hide Books.Stable, Reaches, Shaped;
    StableShaped(b, z);
    if n in b.live {
      ReachedFromRoot(b, z, n);
    } else if exists r :: r in b.roots && r in b.mem && Reaches(b.mem, r, n) {
      var r :| r in b.roots && r in b.mem && Reaches(b.mem, r, n);
      ReachedIsAllocated(b, z, r, n);
    }
  }

  // ----- expansion -----

  /** An expanded array: the old one becomes entry 0 of a larger root. */
  ghost function Expanded(b: Books, z: EmptyNodes, sarray: SparseArray, n: SparseArray): Books
    requires n.shift in {8, 16, 24}
  {
    b.Allocated(n, seq(DATA_SIZE, _ => z.Fill(n.shift))).Stored(n, 0, Child(sarray))
  }

  lemma ExpandedStable(b: Books, z: EmptyNodes, sarray: SparseArray, n: SparseArray)
    requires b.Stable(z, {}) && sarray in b.roots && n !in b.mem && n.shift in {8, 16, 24}
    requires sarray.shift == n.shift - 8
    ensures Expanded(b, z, sarray, n).Stable(z, {})
    ensures Expanded(b, z, sarray, n).roots == b.roots + multiset{n} - multiset{sarray}
    ensures Expanded(b, z, sarray, n).mem == b.mem[n := seq(DATA_SIZE, _ => z.Fill(n.shift))[0 := Child(sarray)]]
  {
    hide Books.Stable, Books.Stored;
    StableFacts(b, z, {});
    StableShaped(b, z);
    AllocatedStable(b, z, {}, n);
    var b0 := b.Allocated(n, seq(DATA_SIZE, _ => z.Fill(n.shift)));
    StableShaped(b0, z);
    ChildTyped(b0.mem, n, 0, sarray);
    StoredStable(b0, z, {}, n, 0, Child(sarray));
    assert b0.mem[n][0] == z.Fill(n.shift) && z.Fill(n.shift).node in z.All();
    StoredOverEmpty(b0, n, 0, sarray);
  }

  lemma StoredOverEmpty(b: Books, n: SparseArray, i: nat, c: SparseArray)
    requires n in b.mem && i < |b.mem[n]| && !b.Holds(b.mem[n][i]) && c in b.live
    ensures b.Stored(n, i, Child(c)).roots == b.roots - multiset{c}
    ensures b.Stored(n, i, Child(c)).mem == b.mem[n := b.mem[n][i := Child(c)]]
  {
  }

  /** The old keys keep their values and all new keys are empty. */
  lemma ExpandedContents(b: Books, b': Books, z: EmptyNodes, sarray: SparseArray, n: SparseArray, key: nat)
    requires Shaped(b.mem) && Shaped(b'.mem) && z.Shaped(b'.mem) && sarray in b.mem && n !in b.mem
    requires n.shift in {8, 16, 24} && sarray.shift == n.shift - 8 && key < Capacity(n.shift)
    requires b'.mem == b.mem[n := seq(DATA_SIZE, _ => z.Fill(n.shift))[0 := Child(sarray)]]
    ensures Get(b'.mem, n, key) == if key < Capacity(sarray.shift) then Get(b.mem, sarray, key) else 0
  {
    FirstDigitIsZero(key, n.shift);
    hide Capacity, Digit, Shaped, EmptyNodes.Shaped;
    var j := Digit(key, n.shift);
    if j == 0 {
      GetKept(b.mem, b'.mem, sarray, key);
    } else {
      assert b'.mem[n][j] == z.Fill(n.shift);
      EmptyBelow(b', z, n, j);
      EmptyGet(b'.mem, z, z.Fill(n.shift).node, key);
    }
  }

  lemma EmptyBelow(b: Books, z: EmptyNodes, n: SparseArray, j: nat)
    requires Shaped(b.mem) && z.Shaped(b.mem) && n.shift in {8, 16, 24} && n in b.mem
    requires j < DATA_SIZE && j < |b.mem[n]| && b.mem[n][j] == z.Fill(n.shift)
    ensures z.Fill(n.shift).node in b.mem
    ensures b.mem[z.Fill(n.shift).node] == seq(DATA_SIZE, _ => z.Fill(z.Fill(n.shift).node.shift))
  {
  }

  lemma FirstDigitIsZero(key: nat, shift: nat)
    requires shift in {8, 16, 24} && key < Capacity(shift)
    ensures Digit(key, shift) == 0 <==> key < Capacity(shift - 8)
  {
    assert Capacity(shift - 8) == Scale(shift);
  }

  lemma ExpandedAll(b: Books, b': Books, z: EmptyNodes, sarray: SparseArray, n: SparseArray)
    requires b.Stable(z, {}) && sarray in b.roots && n !in b.mem && n.shift in {8, 16, 24}
    requires sarray.shift == n.shift - 8 && sarray in b.mem && b' == Expanded(b, z, sarray, n)
    ensures b'.Stable(z, {}) && b'.roots == b.roots + multiset{n} - multiset{sarray} && Shaped(b.mem) && Shaped(b'.mem)
    ensures n in b'.mem
    ensures forall k :: 0 <= k < Capacity(n.shift) ==>
      Get(b'.mem, n, k) == if k < Capacity(sarray.shift) then Get(b.mem, sarray, k) else 0
    ensures forall r :: r in b.roots && r in b'.roots ==> r in b.mem && r in b'.mem && SameContents(b, b', r)
  {
    hide Books.Stable, Shaped, EmptyNodes.Shaped, SameContents, Get, Expanded;
    StableFacts(b, z, {});
    StableShaped(b, z);
    ExpandedStable(b, z, sarray, n);
    StableShaped(b', z);
    StableFacts(b', z, {});
    forall k: nat | k < Capacity(n.shift)
      ensures Get(b'.mem, n, k) == if k < Capacity(sarray.shift) then Get(b.mem, sarray, k) else 0
    {
      ExpandedContents(b, b', z, sarray, n, k);
    }
    forall r | r in b.roots && r in b'.roots
      ensures r in b.mem && r in b'.mem && SameContents(b, b', r)
    {
      KeptContents(b, b', r);
    }
  }

  /** A new array holds nothing, and all others hold what they held. */
  lemma NewContents(b: Books, z: EmptyNodes, n: SparseArray)
    requires b.Stable(z, {}) && n !in b.mem && n.shift in {0, 8, 16, 24}
    ensures var b' := b.Allocated(n, seq(DATA_SIZE, _ => z.Fill(n.shift)));
      && b'.Stable(z, {}) && Shaped(b.mem) && Shaped(b'.mem) && n in b'.mem
      && (forall k: nat :: Get(b'.mem, n, k) == 0)
      && forall r :: r in b.roots ==> r in b'.mem && r in b.mem && SameContents(b, b', r)
  {
    hide Books.Stable, Shaped, EmptyNodes.Shaped, SameContents, Get;
    var b' := b.Allocated(n, seq(DATA_SIZE, _ => z.Fill(n.shift)));
    StableFacts(b, z, {});
    StableShaped(b, z);
    AllocatedStable(b, z, {}, n);
    StableShaped(b', z);
    forall k: nat
      ensures Get(b'.mem, n, k) == 0
    {
      EmptyGet(b'.mem, z, n, k);
    }
    forall r | r in b.roots
      ensures r in b'.mem && r in b.mem && SameContents(b, b', r)
    {
      KeptContents(b, b', r);
    }
  }
}
