/**
 The nodes of the copy-on-write sparse array and the pure reasoning about them.

 A sparse array is a 256-way radix tree.  A node of shift 0 holds addresses, a node of a
 higher shift holds child nodes of the next lower shift.  Subtrees are shared between
 arrays, so the memory is a directed acyclic graph; `Memory` is a snapshot of the `data`
 fields of all its nodes.
 */
module SparseMemory {
  import opened Arithmetic

  const DATA_SIZE := 256

  /** What one entry of `data` can hold.  `Address(0)` is the empty entry. */
  datatype Slot = Address(a: nat) | Child(node: SparseArray)

  class SparseArray {
    const shift: nat
    var refCount: nat
    const data: array<Slot>

    constructor (shift: nat, fill: Slot)
      ensures this.shift == shift && refCount == 1
      ensures fresh(data) && data.Length == DATA_SIZE
      ensures data[..] == seq(DATA_SIZE, _ => fill)
    {
      this.shift := shift;
      refCount := 1;
      data := new Slot[DATA_SIZE](_ => fill);
      new;
      assert data[..] == seq(DATA_SIZE, _ => fill);
    }

    constructor Copy(source: SparseArray)
      requires source.data.Length == DATA_SIZE
      ensures shift == source.shift && refCount == 1
      ensures fresh(data) && data.Length == DATA_SIZE && data[..] == source.data[..]
    {
      shift := source.shift;
      refCount := 1;
      data := new Slot[DATA_SIZE](i requires 0 <= i < DATA_SIZE reads source.data => source.data[i]);
      new;
      assert data[..] == source.data[..];
    }
  }

  ghost function BuffersOf(nodes: set<SparseArray>): set<object> {
    set n | n in nodes :: n.data
  }

  /** No two nodes share a buffer. */
  ghost predicate Separate(nodes: set<SparseArray>) {
    forall m, n :: m in nodes && n in nodes && m != n ==> m.data != n.data
  }

  type Memory = map<SparseArray, seq<Slot>>

  /** The place of the digit that a node of the given shift consumes. */
  function Scale(shift: nat): (s: nat)
    requires shift in {0, 8, 16, 24}
    ensures s > 0
  {
    if shift == 0 then 1 else if shift == 8 then 0x100 else if shift == 16 then 0x1_0000 else 0x100_0000
  }

  function Digit(key: nat, shift: nat): (d: nat)
    requires shift in {0, 8, 16, 24}
    ensures d < DATA_SIZE
  {
    key / Scale(shift) % DATA_SIZE
  }

  // ----- shape -----

  ghost predicate NodeTyped(n: SparseArray, slots: seq<Slot>)
  {
    && n.shift in {0, 8, 16, 24}
    && |slots| == DATA_SIZE
    && forall i :: 0 <= i < DATA_SIZE ==>
         if n.shift == 0 then slots[i].Address? else slots[i].Child? && slots[i].node.shift == n.shift - 8
  }

  ghost predicate Typed(d: Memory)
  {
    forall n :: n in d ==> NodeTyped(n, d[n])
  }

  /** Every child of a node outside `dying` is still allocated. */
  ghost predicate Closed(d: Memory, dying: set<SparseArray>)
    requires Typed(d)
  {
    forall n, i :: n in d && n !in dying && n.shift > 0 && 0 <= i < DATA_SIZE ==> d[n][i].node in d
  }

  ghost predicate Shaped(d: Memory)
  {
    Typed(d) && Closed(d, {})
  }

  // ----- contents -----

  /** The address stored at `key` in the array rooted at `n`. */
  ghost function Get(d: Memory, n: SparseArray, key: nat): nat
    requires Shaped(d) && n in d
    decreases n.shift
  {
    var slot := d[n][Digit(key, n.shift)];
    if n.shift == 0 then slot.a else Get(d, slot.node, key)
  }

  /** Two keys that select the same leaf entry below a node of the given shift. */
  ghost predicate SameKey(shift: nat, j: nat, k: nat)
    requires shift in {0, 8, 16, 24}
    decreases shift
  {
    Digit(j, shift) == Digit(k, shift) && (shift > 0 ==> SameKey(shift - 8, j, k))
  }

  /** The number of keys an array of the given shift can tell apart. */
  function Capacity(shift: nat): nat
    requires shift in {0, 8, 16, 24}
  {
    Scale(shift) * DATA_SIZE
  }

  lemma SplitModulo(key: nat, s: nat)
    requires s in {0x100, 0x1_0000, 0x100_0000}
    ensures key % (s * DATA_SIZE) == key / s % DATA_SIZE * s + key % s
  {
    var q, r := key / s, key % s;
    var a, d := q / DATA_SIZE, q % DATA_SIZE;
    Quotient(s, q, r);
    Regroup(s, a, d, r);
    TimesAtLeast(DATA_SIZE - d, s);
    assert (DATA_SIZE - d) * s == s * DATA_SIZE - d * s;
    ModUnique(key, a, d * s + r, s * DATA_SIZE);
  }

  lemma Quotient(s: nat, q: nat, r: nat)
    requires s > 0
    ensures forall key: nat :: key / s == q && key % s == r ==> key == q * s + r
  {
  }

  lemma Regroup(s: nat, a: nat, d: nat, r: nat)
    ensures (a * DATA_SIZE + d) * s + r == a * (s * DATA_SIZE) + (d * s + r)
  {
  }

  lemma DigitsAreUnique(s: nat, a: nat, b: nat, a': nat, b': nat)
    requires s in {0x100, 0x1_0000, 0x100_0000} && b < s && b' < s
    ensures a * s + b == a' * s + b' <==> a == a' && b == b'
  {
    if a * s + b == a' * s + b' {
      ModUnique(a * s + b, a, b, s);
      ModUnique(a * s + b, a', b', s);
      TimesAtLeast(a - a', s);
      TimesAtLeast(a' - a, s);
      assert (a - a') * s == a * s - a' * s && (a' - a) * s == a' * s - a * s;
    }
  }

  /** Keys are told apart exactly by their value modulo the capacity. */
  lemma {:induction false} SameKeyIsModulo(shift: nat, j: nat, k: nat)
    requires shift in {0, 8, 16, 24}
    ensures SameKey(shift, j, k) <==> j % Capacity(shift) == k % Capacity(shift)
    decreases shift
  {
    if shift > 0 {
      var s := Scale(shift);
      SameKeyIsModulo(shift - 8, j, k);
      assert Capacity(shift - 8) == s;
      SplitModulo(j, s);
      SplitModulo(k, s);
      DigitsAreUnique(s, Digit(j, shift), j % s, Digit(k, shift), k % s);
    }
  }

  /** Changing only nodes of `touched`, none of which is below `n`, leaves `n`'s contents. */
  lemma {:induction false} GetFrame(d: Memory, d': Memory, touched: set<SparseArray>, n: SparseArray, key: nat)
    requires Shaped(d) && Shaped(d')
    requires n in d && n !in touched
    requires forall x :: x in d && x !in touched && x.shift <= n.shift ==> x in d' && d'[x] == d[x]
    requires forall x, i :: x in d && x !in touched && 0 < x.shift <= n.shift && 0 <= i < DATA_SIZE ==>
      d[x][i].node !in touched
    ensures n in d' && Get(d', n, key) == Get(d, n, key)
    decreases n.shift
  {
    if n.shift > 0 {
      var i := Digit(key, n.shift);
      assert d[n][i].node !in touched;
      GetFrame(d, d', touched, d[n][i].node, key);
    }
  }

  // ----- reference counts -----

  /** A slot that holds a counted reference. */
  type Edge = (SparseArray, nat)

  /** The shared, statically allocated empty nodes; their counts are never touched. */
  datatype EmptyNodes = EmptyNodes(e0: SparseArray, e8: SparseArray, e16: SparseArray, e24: SparseArray)
  {
    predicate Has(n: SparseArray) {
      n == e0 || n == e8 || n == e16 || n == e24
    }

    ghost function All(): set<SparseArray> {
      {e0, e8, e16, e24}
    }

    ghost function With(live: set<SparseArray>): set<SparseArray> {
      live + All()
    }

    /** The entry that fills the unused part of a node of the given shift. */
    function Fill(shift: nat): Slot
      requires shift in {0, 8, 16, 24}
    {
      if shift == 0 then Address(0)
      else if shift == 8 then Child(e0)
      else if shift == 16 then Child(e8)
      else Child(e16)
    }

    ghost predicate Shaped(d: Memory) {
      && e0.shift == 0 && e8.shift == 8 && e16.shift == 16 && e24.shift == 24
      && forall n :: n in All() ==> n in d && d[n] == seq(DATA_SIZE, _ => Fill(n.shift))
    }
  }

  /**
   The memory together with the books kept about it: the allocated nodes (`live`), the
   references held by callers (`roots`), the slots whose reference has been counted
   (`edges`) and the reference counts of the allocated nodes.
   */
  datatype Books = Books(mem: Memory, live: set<SparseArray>, roots: multiset<SparseArray>, edges: set<Edge>,
                         counts: map<SparseArray, nat>)
  {
    ghost function Into(n: SparseArray): set<Edge> {
      set e | e in edges && e.0 in mem && e.1 < |mem[e.0]| && mem[e.0][e.1] == Child(n)
    }

    ghost predicate EdgesClosed() {
      forall e :: e in edges ==>
        && e.0 in live && e.0 in mem && e.1 < |mem[e.0]|
        && mem[e.0][e.1].Child? && mem[e.0][e.1].node in live
    }

    /** Every reference count is the number of counted slots and owners that hold the node. */
    ghost predicate Counted() {
      && counts.Keys == live && live <= mem.Keys
      && EdgesClosed()
      && (forall n :: n in roots ==> n in live)
      && (forall n :: n in live ==> counts[n] == |Into(n)| + roots[n])
    }

    /** Every slot of `p` that points to an allocated node is counted, from slot `from` on. */
    ghost predicate Complete(p: SparseArray, from: nat)
      requires p in mem
    {
      forall i :: from <= i < |mem[p]| && mem[p][i].Child? && mem[p][i].node in live ==> (p, i) in edges
    }

    /** The invariant while the nodes of `dying` are being taken apart. */
    ghost predicate Stable(z: EmptyNodes, dying: set<SparseArray>) {
      Structured(z, dying) && Counted() && Kept(dying)
    }

    ghost predicate Structured(z: EmptyNodes, dying: set<SparseArray>) {
      && live !! z.All() && mem.Keys == live + z.All()
      && Typed(mem) && Closed(mem, dying) && z.Shaped(mem)
    }

    /** Every node outside `dying` is referred to, and all its own references are counted. */
    ghost predicate Kept(dying: set<SparseArray>)
      requires live <= mem.Keys && live <= counts.Keys
    {
      forall p :: p in live && p !in dying ==> counts[p] > 0 && Complete(p, 0)
    }

    /** Whether an entry holds a counted reference. */
    ghost predicate Holds(slot: Slot) {
      slot.Child? && slot.node in live
    }

    /** After allocating `n`, owned by the caller. */
    ghost function Allocated(n: SparseArray, slots: seq<Slot>): Books {
      Books(mem[n := slots], live + {n}, roots + multiset{n}, edges, counts[n := 1])
    }

    /** The reference of entry `i` of `n` passes to the caller. */
    ghost function Released(n: SparseArray, i: nat): Books
      requires n in mem && i < |mem[n]|
    {
      this.(roots := if Holds(mem[n][i]) then roots + multiset{mem[n][i].node} else roots, edges := edges - {(n, i)})
    }

    /** The caller's reference to the child in entry `i` of `n` passes to that entry. */
    ghost function Attached(n: SparseArray, i: nat): Books
      requires n in mem && i < |mem[n]| && mem[n][i].Child?
    {
      this.(roots := roots - multiset{mem[n][i].node}, edges := edges + {(n, i)})
    }

    ghost function Written(n: SparseArray, i: nat, slot: Slot): Books
      requires n in mem && i < |mem[n]|
    {
      this.(mem := mem[n := mem[n][i := slot]])
    }

    /** Entry `i` of `n` has been overwritten; the reference that it held goes to the caller. */
    ghost function Stored(n: SparseArray, i: nat, slot: Slot): Books
      requires n in mem && i < |mem[n]|
    {
      var b := Released(n, i).Written(n, i, slot);
      if Holds(slot) then b.Attached(n, i) else b
    }

    /** A reference to `n` taken by a new owner. */
    ghost function Retained(n: SparseArray): Books
      requires n in counts
    {
      this.(roots := roots + multiset{n}, counts := counts[n := counts[n] + 1])
    }

    /** An owner gives up its reference to `n`. */
    ghost function Dropped(n: SparseArray): Books
      requires n in counts && counts[n] > 0
    {
      this.(roots := roots - multiset{n}, counts := counts[n := counts[n] - 1])
    }

    /** After the first `i` entries of the new copy `n` have taken their references. */
    ghost function Shared(n: SparseArray, i: nat): Books
      requires n in mem && i <= |mem[n]| && counts.Keys == live
      ensures Shared(n, i).mem == mem && Shared(n, i).live == live && Shared(n, i).counts.Keys == live
    {
      if i == 0 then this else Shared(n, i - 1).ShareEntry(n, i - 1)
    }

    ghost function ShareEntry(n: SparseArray, i: nat): Books
      requires n in mem && i < |mem[n]| && counts.Keys == live
    {
      if Holds(mem[n][i]) then Retained(mem[n][i].node).Attached(n, i) else this
    }

    ghost function Freed(n: SparseArray): Books {
      this.(mem := mem - {n}, live := live - {n}, counts := counts - {n})
    }
  }
}
