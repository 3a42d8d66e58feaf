/**
 The hopscotch hash table: the invariant of its cells, and what each update does to them.

 A cell's bitmap is the set of the distances, 1 to 32, at which the neighbours that
 belong to the cell are found: distance `d` stands for bit `d - 1`.
 */
module Hopscotch {
  import opened Wrappers
  import opened Arithmetic

  datatype Value = Value(key: nat, data: nat)

  datatype Cell = Cell(hops: set<nat>, value: Option<Value>)

  const NEIGHBOURS := 32
  const UINT32 := 0x1_0000_0000

  /** The sizes a table can have: powers of two from 64 on. */
  ghost predicate GoodSize(n: nat) {
    exists e {:trigger Pow2(e)} :: 6 <= e <= 31 && n == Pow2(e)
  }

  lemma SmallPowers()
    ensures Pow2(6) == 64 && Pow2(31) == 0x8000_0000 && Pow2(32) == UINT32
  {
    assert Pow2(2) == 2 * Pow2(1) == 4;
    Pow2Sum(2, 2);
    Pow2Sum(2, 4);
    Pow2Sum(4, 4);
    Pow2Sum(8, 8);
    Pow2Sum(16, 16);
    assert Pow2(32) == 2 * Pow2(31);
  }

  /** A size is a divisor of the range of hashes and leaves room for all neighbours. */
  lemma SizeFacts(n: nat)
    requires GoodSize(n)
    ensures n >= 2 * NEIGHBOURS && UINT32 % n == 0
  {
    var e :| 6 <= e <= 31 && n == Pow2(e);
    PowerFacts(n, e);
  }

  lemma PowerFacts(n: nat, e: nat)
    requires 6 <= e <= 31 && n == Pow2(e)
    ensures n >= 2 * NEIGHBOURS && UINT32 % n == 0
  {
    hide Pow2;
    SmallPowers();
    Pow2Sum(6, e - 6);
    Pow2Sum(e, 32 - e);
    TimesAtLeast(Pow2(e - 6), 64);
    var k := Pow2(32 - e);
    assert UINT32 == n * k == k * n;
    ModUnique(UINT32, k, 0, n);
  }

  lemma DoubleSize(n: nat)
    requires GoodSize(n) && n < 0x8000_0000
    ensures GoodSize(2 * n)
  {
    var e :| 6 <= e <= 31 && n == Pow2(e);
    SmallPowers();
    assert 2 * n == Pow2(e + 1);
  }

  /** The index that the source computes for the cell at a distance from a hash. */
  function CellIndex(hash: nat, distance: nat, n: nat): (p: nat)
    requires n > 0
    ensures p < n
  {
    (hash + distance) % UINT32 % n
  }

  function Base(hash: nat -> nat, v: Value, n: nat): (b: nat)
    requires n > 0
    ensures b < n
  {
    CellIndex(hash(v.key), 0, n)
  }

  /** Since the size divides the range of hashes, wrapping around in either does not matter. */
  lemma CellIndexFromBase(hash: nat, distance: nat, n: nat)
    requires GoodSize(n)
    ensures CellIndex(hash, distance, n) == (CellIndex(hash, 0, n) + distance) % n
  {
    SizeFacts(n);
    ModTwice(hash, n);
    ModTwice(hash + distance, n);
    ModPlus(hash, distance, n);
  }

  lemma ModTwice(x: nat, n: nat)
    requires n > 0 && UINT32 % n == 0
    ensures x % UINT32 % n == x % n
  {
    var k, q := UINT32 / n, x / UINT32;
    assert UINT32 == k * n;
    var r := x % UINT32;
    assert x == q * UINT32 + r;
    assert q * UINT32 == q * k * n by {
      assert q * (k * n) == q * k * n;
    }
    ModMultiple(r, q * k, n);
  }

  /** The base cell of a value is where its 32-bit hash comes to, modulo the size. */
  lemma BaseIsModulo(hash: nat -> nat, v: Value, n: nat)
    requires GoodSize(n) && hash(v.key) < 0x1_0000_0000
    ensures Base(hash, v, n) == hash(v.key) % n
  {
  }

  /** The cell at a distance from a hash is empty. */
  ghost predicate EmptyCell(cells: seq<Cell>, hash: nat, d: nat) {
    cells != [] && cells[(hash + d) % |cells|].value.None?
  }

  /** There is room for a value just if one of the 33 cells from its hash on is empty. */
  lemma RoomIn33Cells(hash: nat -> nat, cells: seq<Cell>, v: Value)
    requires GoodSize(|cells|) && hash(v.key) < 0x1_0000_0000
    ensures RoomFor(hash, cells, v) <==> exists d: nat :: d < 33 && EmptyCell(cells, hash(v.key), d)
  {
    hide GoodSize;
    var n, h := |cells|, hash(v.key);
    SizeFacts(n);
    var b := Base(hash, v, n);
    forall d: nat | d < 33
      ensures EmptyCell(cells, h, d) <==> cells[Ahead(b, d, n)].value.None?
    {
      EmptyAhead(cells, h, d);
    }
    assert Ahead(b, 0, n) == b;
    if cells[b].value.None? {
      assert EmptyCell(cells, h, 0);
    }
  }

  lemma EmptyAhead(cells: seq<Cell>, h: nat, d: nat)
    requires |cells| > NEIGHBOURS && UINT32 % |cells| == 0 && d <= NEIGHBOURS && h < 0x1_0000_0000
    ensures var b := CellIndex(h, 0, |cells|);
      b < |cells| && (EmptyCell(cells, h, d) <==> cells[Ahead(b, d, |cells|)].value.None?)
  {
    ModTwice(h, |cells|);
    ModPlus(h, d, |cells|);
  }

  /** The cell at a distance from a cell. */
  ghost function Ahead(b: nat, d: nat, n: nat): (p: nat)
    requires b < n && d < n
    ensures p < n && p == (b + d) % n
  {
    ModUnique(b + d, if b + d < n then 0 else 1, if b + d < n then b + d else b + d - n, n);
    if b + d < n then b + d else b + d - n
  }

  /** The base cell of a value or one of the 32 cells behind it is empty. */
  ghost predicate RoomFor(hash: nat -> nat, cells: seq<Cell>, v: Value) {
    && |cells| > NEIGHBOURS
    && var b := Base(hash, v, |cells|);
      || cells[b].value.None?
      || exists d {:trigger Ahead(b, d, |cells|)} :: 0 < d <= NEIGHBOURS && cells[Ahead(b, d, |cells|)].value.None?
  }

  // ----- the invariant -----

  ghost predicate ValueOk(hash: nat -> nat, cells: seq<Cell>, p: nat)
    requires p < |cells|
  {
    cells[p].value.Some? ==>
      var b := Base(hash, cells[p].value.value, |cells|);
      p == b || exists d :: d in cells[b].hops && 0 < d <= NEIGHBOURS && d < |cells| && p == Ahead(b, d, |cells|)
  }

  ghost predicate HopOk(hash: nat -> nat, cells: seq<Cell>, b: nat, d: nat)
    requires b < |cells|
  {
    && 0 < d <= NEIGHBOURS && d < |cells|
    && cells[Ahead(b, d, |cells|)].value.Some?
    && Base(hash, cells[Ahead(b, d, |cells|)].value.value, |cells|) == b
  }

  ghost predicate HopsOk(hash: nat -> nat, cells: seq<Cell>) {
    forall b, d {:trigger d in cells[b].hops} :: 0 <= b < |cells| && d in cells[b].hops ==> HopOk(hash, cells, b, d)
  }

  /**
   Every value is in its base cell or in a neighbour marked there, every marked neighbour
   belongs to that base, and an empty cell marks no neighbours.
   */
  ghost predicate Inv(hash: nat -> nat, cells: seq<Cell>) {
    && GoodSize(|cells|) && |cells| > NEIGHBOURS && HopsOk(hash, cells)
    && (forall p {:trigger ValueOk(hash, cells, p)} :: 0 <= p < |cells| ==> ValueOk(hash, cells, p))
    && (forall b {:trigger cells[b].hops} :: 0 <= b < |cells| && cells[b].value.None? ==> cells[b].hops == {})
  }

  /** The value in cell `e` is not to be there any more, and no cell marks it. */
  ghost predicate HoleAt(hash: nat -> nat, cells: seq<Cell>, e: nat) {
    && GoodSize(|cells|) && |cells| > NEIGHBOURS && HopsOk(hash, cells) && e < |cells| && cells[e].value.Some?
    && (forall p {:trigger ValueOk(hash, cells, p)} :: 0 <= p < |cells| && p != e ==> ValueOk(hash, cells, p))
    && (forall b {:trigger cells[b].hops} :: 0 <= b < |cells| && cells[b].value.None? ==> cells[b].hops == {})
    && (forall b, d {:trigger d in cells[b].hops} ::
          0 <= b < |cells| && d in cells[b].hops ==> Ahead(b, d, |cells|) != e)
  }

  // ----- what a search comes to first -----

  /** Where a search from a base cell ends that finds the values of `hits` equal to its key. */
  ghost function FirstEqual(cells: seq<Cell>, base: nat, hits: set<Value>): Option<nat>
    requires base < |cells|
  {
    if cells[base].value.None? then None
    else if cells[base].value.value in hits then Some(base)
    else NearestHop(cells, base, cells[base].hops, hits)
  }

  /** The nearest of some neighbours that holds one of the values. */
  ghost function NearestHop(cells: seq<Cell>, base: nat, jump: set<nat>, hits: set<Value>): Option<nat>
    requires base < |cells|
  {
    if jump == {} then None
    else
      var d := Least(jump);
      if
        && d < |cells| && cells[Ahead(base, d, |cells|)].value.Some?
        && cells[Ahead(base, d, |cells|)].value.value in hits
      then Some(Ahead(base, d, |cells|))
      else NearestHop(cells, base, jump - {d}, hits)
  }

  lemma NextHop(cells: seq<Cell>, base: nat, jump: set<nat>, hop: nat, hits: set<Value>)
    requires base < |cells| && hop in jump && forall d :: d in jump ==> hop <= d
    ensures NearestHop(cells, base, jump, hits) ==
      if
        && hop < |cells| && cells[Ahead(base, hop, |cells|)].value.Some?
        && cells[Ahead(base, hop, |cells|)].value.value in hits
      then Some(Ahead(base, hop, |cells|))
      else NearestHop(cells, base, jump - {hop}, hits)
  {
    assert Least(jump) == hop;
  }

  lemma NoHop(cells: seq<Cell>, base: nat, hits: set<Value>)
    requires base < |cells|
    ensures NearestHop(cells, base, {}, hits).None?
  {
  }

  // ----- contents -----

  function Single(value: Option<Value>): multiset<Value> {
    if value.Some? then multiset{value.value} else multiset{}
  }

  ghost function Values(cells: seq<Cell>): multiset<Value> {
    if cells == [] then multiset{} else Single(cells[0].value) + Values(cells[1..])
  }

  lemma {:induction false} ValuesUpdate(cells: seq<Cell>, p: nat, c: Cell)
    requires p < |cells|
    ensures Values(cells[p := c]) + Single(cells[p].value) == Values(cells) + Single(c.value)
  {
    hide Single;
    var cells' := cells[p := c];
    if p == 0 {
      assert cells'[1..] == cells[1..];
    } else {
      assert cells'[1..] == cells[1..][p - 1 := c];
      ValuesUpdate(cells[1..], p - 1, c);
      AddBoth(Single(cells[0].value), Values(cells'[1..]), Single(cells[p].value), Values(cells[1..]), Single(c.value));
    }
  }

  lemma AddBoth(x: multiset<Value>, a: multiset<Value>, s: multiset<Value>, b: multiset<Value>, t: multiset<Value>)
    requires a + s == b + t
    ensures x + a + s == x + b + t
  {
    assert x + a + s == x + (a + s);
    assert x + b + t == x + (b + t);
  }

  lemma {:induction false} ValuesMember(cells: seq<Cell>, v: Value)
    ensures v in Values(cells) <==> exists p :: 0 <= p < |cells| && cells[p].value == Some(v)
  {
    if cells != [] {
      ValuesMember(cells[1..], v);
      if exists p :: 0 <= p < |cells| && cells[p].value == Some(v) {
        var p :| 0 <= p < |cells| && cells[p].value == Some(v);
        if p > 0 {
          assert cells[1..][p - 1].value == Some(v);
        }
      }
      if v in Values(cells) && cells[0].value != Some(v) {
        var p :| 0 <= p < |cells[1..]| && cells[1..][p].value == Some(v);
        assert cells[p + 1].value == Some(v);
      }
    }
  }

  lemma {:induction false} ValuesSize(cells: seq<Cell>)
    ensures |Values(cells)| <= |cells|
  {
    if cells != [] {
      ValuesSize(cells[1..]);
    }
  }

  lemma {:induction false} ValuesAppend(cells: seq<Cell>, c: Cell)
    ensures Values(cells + [c]) == Values(cells) + Single(c.value)
  {
    if cells == [] {
      assert cells + [c] == [c];
    } else {
      assert (cells + [c])[1..] == cells[1..] + [c];
      ValuesAppend(cells[1..], c);
    }
  }

  lemma {:induction false} NoValues(cells: seq<Cell>)
    requires forall p :: 0 <= p < |cells| ==> cells[p].value.None?
    ensures Values(cells) == multiset{}
  {
    if cells != [] {
      NoValues(cells[1..]);
    }
  }

  /** The number of marks, which falls whenever a value is moved up. */
  ghost function Marks(cells: seq<Cell>): nat {
    if cells == [] then 0 else |cells[0].hops| + Marks(cells[1..])
  }

  lemma {:induction false} MarksUpdate(cells: seq<Cell>, p: nat, c: Cell)
    requires p < |cells|
    ensures Marks(cells[p := c]) + |cells[p].hops| == Marks(cells) + |c.hops|
  {
    var cells' := cells[p := c];
    if p == 0 {
      assert cells'[1..] == cells[1..];
    } else {
      assert cells'[1..] == cells[1..][p - 1 := c];
      MarksUpdate(cells[1..], p - 1, c);
    }
  }

  // ----- updates -----

  lemma AheadDistinct(b: nat, d: nat, d': nat, n: nat)
    requires b < n && d < n && d' < n
    ensures Ahead(b, d, n) == Ahead(b, d', n) <==> d == d'
  {
  }

  lemma StoredInBase(hash: nat -> nat, cells: seq<Cell>, v: Value)
    requires Inv(hash, cells) && cells[Base(hash, v, |cells|)].value.None?
    ensures Inv(hash, cells[Base(hash, v, |cells|) := Cell({}, Some(v))])
  {
    var b := Base(hash, v, |cells|);
    var cells' := cells[b := Cell({}, Some(v))];
    forall p | 0 <= p < |cells'|
      ensures ValueOk(hash, cells', p)
    {
      assert ValueOk(hash, cells, p);
      assert cells[b].hops == {};
    }
    forall c, d | 0 <= c < |cells'| && d in cells'[c].hops
      ensures HopOk(hash, cells', c, d)
    {
      assert d in cells[c].hops && HopOk(hash, cells, c, d);
    }
  }

  lemma StoredNearby(hash: nat -> nat, cells: seq<Cell>, v: Value, d: nat)
    requires Inv(hash, cells) && 0 < d <= NEIGHBOURS
    requires var b := Base(hash, v, |cells|); cells[b].value.Some? && cells[Ahead(b, d, |cells|)].value.None?
    ensures var b := Base(hash, v, |cells|); var q := Ahead(b, d, |cells|);
      Inv(hash, cells[b := cells[b].(hops := cells[b].hops + {d})][q := cells[q].(value := Some(v))])
  {
    var n := |cells|;
    var b := Base(hash, v, n);
    var q := Ahead(b, d, n);
    var cells' := cells[b := cells[b].(hops := cells[b].hops + {d})][q := cells[q].(value := Some(v))];
    assert q != b && cells[q].hops == {};
    forall p | 0 <= p < n
      ensures ValueOk(hash, cells', p)
    {
      assert ValueOk(hash, cells, p);
      if p == q {
        assert d in cells'[b].hops;
      } else if cells[p].value.Some? && p != Base(hash, cells[p].value.value, n) {
        var c := Base(hash, cells[p].value.value, n);
        var e :| e in cells[c].hops && 0 < e <= NEIGHBOURS && p == Ahead(c, e, n);
        assert e in cells'[c].hops;
      }
    }
    forall c, e | 0 <= c < n && e in cells'[c].hops
      ensures HopOk(hash, cells', c, e)
    {
      if c == b && e == d {
      } else {
        assert e in cells[c].hops && HopOk(hash, cells, c, e);
      }
    }
  }

  /** A value that is to be removed is in a hole once its base does not mark it any more. */
  lemma Unmarked(hash: nat -> nat, cells: seq<Cell>, p: nat)
    requires Inv(hash, cells) && p < |cells| && cells[p].value.Some?
    ensures var b := Base(hash, cells[p].value.value, |cells|);
      && (p == b ==> HoleAt(hash, cells, p))
      && (forall d {:trigger Ahead(b, d, |cells|)} :: 0 < d <= NEIGHBOURS && p == Ahead(b, d, |cells|) ==>
            d in cells[b].hops && HoleAt(hash, cells[b := cells[b].(hops := cells[b].hops - {d})], p))
  {
    var n := |cells|;
    var b := Base(hash, cells[p].value.value, n);
    assert ValueOk(hash, cells, p);
    forall c, e | 0 <= c < n && e in cells[c].hops
      ensures Ahead(c, e, n) == p ==> c == b
    {
      assert HopOk(hash, cells, c, e);
    }
    if p == b {
      forall e | e in cells[b].hops
        ensures Ahead(b, e, n) != p
      {
        assert HopOk(hash, cells, b, e);
      }
      forall c, e | 0 <= c < n && e in cells[c].hops
        ensures Ahead(c, e, n) != p
      {
        assert HopOk(hash, cells, c, e);
      }
    }
    forall d | 0 < d <= NEIGHBOURS && p == Ahead(b, d, n)
      ensures d in cells[b].hops && HoleAt(hash, cells[b := cells[b].(hops := cells[b].hops - {d})], p)
    {
      UnmarkedAt(hash, cells, p, b, d);
    }
  }

  lemma UnmarkedAt(hash: nat -> nat, cells: seq<Cell>, p: nat, b: nat, d: nat)
    requires Inv(hash, cells) && p < |cells| && cells[p].value.Some? && b == Base(hash, cells[p].value.value, |cells|)
    requires 0 < d <= NEIGHBOURS && p == Ahead(b, d, |cells|)
    ensures d in cells[b].hops && HoleAt(hash, cells[b := cells[b].(hops := cells[b].hops - {d})], p)
  {
    var n := |cells|;
    var cells' := cells[b := cells[b].(hops := cells[b].hops - {d})];
    assert ValueOk(hash, cells, p);
    assert p != b;
    var d' :| d' in cells[b].hops && 0 < d' <= NEIGHBOURS && p == Ahead(b, d', n);
    AheadDistinct(b, d, d', n);
    forall c, e | 0 <= c < n && e in cells'[c].hops
      ensures HopOk(hash, cells', c, e) && Ahead(c, e, n) != p
    {
      assert e in cells[c].hops && HopOk(hash, cells, c, e);
      if Ahead(c, e, n) == p {
        AheadDistinct(b, d, e, n);
      }
    }
    forall m | 0 <= m < n && m != p
      ensures ValueOk(hash, cells', m)
    {
      assert ValueOk(hash, cells, m);
      if cells[m].value.Some? && m != Base(hash, cells[m].value.value, n) {
        var c := Base(hash, cells[m].value.value, n);
        var e :| e in cells[c].hops && 0 < e <= NEIGHBOURS && m == Ahead(c, e, n);
        assert e in cells'[c].hops;
      }
    }
  }

  /** A hole without neighbours of its own can be emptied. */
  lemma HoleEmptied(hash: nat -> nat, cells: seq<Cell>, e: nat)
    requires HoleAt(hash, cells, e) && cells[e].hops == {}
    ensures Inv(hash, cells[e := Cell({}, None)])
  {
    var n := |cells|;
    var cells' := cells[e := Cell({}, None)];
    forall c, d | 0 <= c < n && d in cells'[c].hops
      ensures HopOk(hash, cells', c, d)
    {
      assert d in cells[c].hops && HopOk(hash, cells, c, d);
    }
    forall p | 0 <= p < n
      ensures ValueOk(hash, cells', p)
    {
      if p != e {
        assert ValueOk(hash, cells, p);
      }
    }
  }

  /** Moving a neighbour up into the hole makes a hole of the neighbour. */
  lemma MovedUp(hash: nat -> nat, cells: seq<Cell>, e: nat, d: nat)
    requires HoleAt(hash, cells, e) && d in cells[e].hops
    ensures HopOk(hash, cells, e, d)
    ensures var q := Ahead(e, d, |cells|);
      q != e && HoleAt(hash, cells[e := Cell(cells[e].hops - {d}, cells[q].value)], q)
  {
    var n := |cells|;
    assert HopOk(hash, cells, e, d);
    var q := Ahead(e, d, n);
    var cells' := cells[e := Cell(cells[e].hops - {d}, cells[q].value)];
    forall c, x | 0 <= c < n && x in cells'[c].hops
      ensures HopOk(hash, cells', c, x) && Ahead(c, x, n) != q
    {
      assert x in cells[c].hops && HopOk(hash, cells, c, x);
      if Ahead(c, x, n) == q {
        AheadDistinct(e, d, x, n);
      }
    }
    forall p | 0 <= p < n && p != q
      ensures ValueOk(hash, cells', p)
    {
      if p != e {
        assert ValueOk(hash, cells, p);
        if cells[p].value.Some? && p != Base(hash, cells[p].value.value, n) {
          var c := Base(hash, cells[p].value.value, n);
          var x :| x in cells[c].hops && 0 < x <= NEIGHBOURS && p == Ahead(c, x, n);
          assert x in cells'[c].hops;
        }
      }
    }
  }

  lemma EmptyMarksNothing(hash: nat -> nat, cells: seq<Cell>, b: nat)
    requires Inv(hash, cells) && b < |cells|
    ensures cells[b].hops != {} ==> cells[b].value.Some?
  {
  }

  /** Where a stored value is found from its base cell. */
  lemma Found(hash: nat -> nat, cells: seq<Cell>, v: Value)
    requires Inv(hash, cells) && v in Values(cells)
    ensures var b := Base(hash, v, |cells|); cells[b].value.Some?
    ensures var b := Base(hash, v, |cells|);
      cells[b].value == Some(v) ||
      exists d {:trigger HopOk(hash, cells, b, d)} ::
        d in cells[b].hops && HopOk(hash, cells, b, d) && cells[Ahead(b, d, |cells|)].value == Some(v)
  {
    var n := |cells|;
    var b := Base(hash, v, n);
    ValuesMember(cells, v);
    var p :| 0 <= p < n && cells[p].value == Some(v);
    assert ValueOk(hash, cells, p);
    EmptyMarksNothing(hash, cells, b);
    if p != b {
      var d :| d in cells[b].hops && 0 < d <= NEIGHBOURS && d < n && p == Ahead(b, d, n);
      assert HopOk(hash, cells, b, d);
    }
  }

  lemma Cancel(a: multiset<Value>, b: multiset<Value>, c: multiset<Value>)
    requires a + c == b + c
    ensures a == b
  {
    forall x
      ensures a[x] == b[x]
    {
      assert (a + c)[x] == (b + c)[x];
    }
  }

  /** Storing in an empty cell adds the value, whatever becomes of the marks of other cells. */
  lemma StoredValues(cells: seq<Cell>, b: nat, c: Cell, q: nat, d: Cell, v: Value)
    requires b < |cells| && q < |cells| && c.value == cells[b].value && b != q
    requires cells[q].value.None? && d.value == Some(v)
    ensures Values(cells[b := c][q := d]) == Values(cells) + multiset{v}
  {
    ValuesUpdate(cells, b, c);
    Cancel(Values(cells[b := c]), Values(cells), Single(c.value));
    ValuesUpdate(cells[b := c], q, d);
  }

  lemma AddedValues(cells: seq<Cell>, b: nat, c: Cell, v: Value)
    requires b < |cells| && cells[b].value.None? && c.value == Some(v)
    ensures Values(cells[b := c]) == Values(cells) + multiset{v}
  {
    ValuesUpdate(cells, b, c);
  }

  lemma MarkedValues(cells: seq<Cell>, b: nat, c: Cell)
    requires b < |cells| && c.value == cells[b].value
    ensures Values(cells[b := c]) == Values(cells)
  {
    ValuesUpdate(cells, b, c);
    Cancel(Values(cells[b := c]), Values(cells), Single(c.value));
  }

  lemma EmptiedValues(cells: seq<Cell>, e: nat, c: Cell)
    requires e < |cells| && cells[e].value.Some? && c.value.None?
    ensures Values(cells[e := c]) + multiset{cells[e].value.value} == Values(cells)
  {
    ValuesUpdate(cells, e, c);
  }

  /** After the move the value that was in the hole is gone, and the one that moved is there twice. */
  lemma MovedValues(cells: seq<Cell>, e: nat, c: Cell, after: multiset<Value>)
    requires e < |cells| && cells[e].value.Some? && c.value.Some?
    requires after + multiset{c.value.value} == Values(cells[e := c])
    ensures after + multiset{cells[e].value.value} == Values(cells)
  {
    ValuesUpdate(cells, e, c);
    var x, y := multiset{cells[e].value.value}, multiset{c.value.value};
    assert after + x + y == after + y + x;
    Cancel(after + x, Values(cells), y);
  }

  /** The invariant depends on the hashes of the stored keys only. */
  lemma SameHashes(hash: nat -> nat, hash': nat -> nat, cells: seq<Cell>)
    requires Inv(hash, cells) && forall v :: v in Values(cells) ==> hash'(v.key) == hash(v.key)
    ensures Inv(hash', cells)
  {
    forall p | 0 <= p < |cells| && cells[p].value.Some?
      ensures Base(hash', cells[p].value.value, |cells|) == Base(hash, cells[p].value.value, |cells|)
    {
      ValuesMember(cells, cells[p].value.value);
    }
    forall p | 0 <= p < |cells|
      ensures ValueOk(hash', cells, p)
    {
      assert ValueOk(hash, cells, p);
    }
    forall b, d | 0 <= b < |cells| && d in cells[b].hops
      ensures HopOk(hash', cells, b, d)
    {
      assert HopOk(hash, cells, b, d);
    }
  }
}
