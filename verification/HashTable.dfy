/**
 The operations of the hash table.
 */
module HashTable {
  import opened Wrappers
  import opened Arithmetic
  import opened Hopscotch

  /** `NeedsRebalance` and `CopyNeedsRebalance` stand where the source would move a gap closer. */
  datatype Outcome = Stored | NeedsRebalance | CopyNeedsRebalance

  class HopscotchTable {
    const hash: nat -> nat
    var cells: array<Cell>
    var used: nat

    ghost predicate Valid()
      reads this, cells
    {
      Inv(hash, cells[..]) && used == |Values(cells[..])|
    }

    ghost function Contents(): multiset<Value>
      reads this, cells
    {
      Values(cells[..])
    }

    constructor (hash: nat -> nat, capacity: nat)
      requires GoodSize(capacity)
      ensures Valid() && Contents() == multiset{} && this.hash == hash && cells.Length == capacity && fresh(cells)
    {
      this.hash := hash;
      cells := new Cell[capacity](_ => Cell({}, None));
      used := 0;
      new;
      NoValues(cells[..]);
      SizeFacts(capacity);
    }

    /** Takes the least hop out of a bitmap. */
    method FirstHop(jump: set<nat>) returns (hop: nat)
      requires jump != {}
      ensures hop in jump && forall d :: d in jump ==> hop <= d
    {
      ghost var least := HasLeast(jump);
      hop :| hop in jump && forall d :: d in jump ==> hop <= d;
    }

    /** The cell that holds a value with the given key. */
    method GetCell(key: nat) returns (cell: Option<nat>)
      requires Valid()
      ensures cell.Some? ==> cell.value < cells.Length
      ensures cell.Some? ==> cells[cell.value].value.Some? && cells[cell.value].value.value.key == key
      ensures cell.None? ==> forall v :: v in Contents() ==> v.key != key
    {
      cell := FindCell(hash(key), (v: Value) => v.key == key, set v | v in Contents() && v.key == key);
    }

    /**
     The cell that holds a value which the comparison finds equal to a key with the hash `h`;
     of several such values, the first one on the way from the base cell.
     */
    method FindCell(h: nat, equal: Value ~> bool, ghost hits: set<Value>) returns (cell: Option<nat>)
      requires Valid() && Comparable(h, equal) && forall v :: v in Contents() ==> (v in hits <==> equal(v))
      ensures cells.Length > 0 && cell == FirstEqual(cells[..], CellIndex(h, 0, cells.Length), hits)
      ensures cell.Some? ==> cell.value < cells.Length && cells[cell.value].value.Some?
      ensures cell.Some? ==> cells[cell.value].value.value in Contents() && equal(cells[cell.value].value.value)
      ensures cell.None? ==> forall v :: v in Contents() ==> !equal(v)
    {
      var base := CellIndex(h, 0, cells.Length);
      if cells[base].value.Some? {
        CellInContents(base);
        if equal(cells[base].value.value) {
          return Some(base);
        }
        cell := FindInHops(h, equal, hits);
        if cell.Some? {
          return;
        }
      }
      NotStored(h, equal);
      return None;
    }

    /** The nearest marked neighbour that holds an equal value. */
    method FindInHops(h: nat, equal: Value ~> bool, ghost hits: set<Value>) returns (cell: Option<nat>)
      requires Valid() && Comparable(h, equal) && forall v :: v in Contents() ==> (v in hits <==> equal(v))
      requires cells[CellIndex(h, 0, cells.Length)].value.Some?
      ensures var base := CellIndex(h, 0, cells.Length); cell == NearestHop(cells[..], base, cells[base].hops, hits)
      ensures cell.Some? ==> cell.value < cells.Length && cells[cell.value].value.Some?
      ensures cell.Some? ==> cells[cell.value].value.value in Contents() && equal(cells[cell.value].value.value)
      ensures cell.None? ==> var base := CellIndex(h, 0, cells.Length);
        forall d :: d in cells[base].hops ==> Passed(equal, base, d)
    {
      hide Inv, Values, NearestHop, CellIndex;
      var n := cells.Length;
      var base := CellIndex(h, 0, n);
      TableFacts();
      var jump := cells[base].hops;
      while jump != {}
        invariant jump <= cells[base].hops
        invariant NearestHop(cells[..], base, jump, hits) == NearestHop(cells[..], base, cells[base].hops, hits)
        invariant forall d :: d in cells[base].hops && d !in jump ==> Passed(equal, base, d)
        decreases jump
      {
        var hop := FirstHop(jump);
        HopIsOk(base, hop);
        NextHop(cells[..], base, jump, hop, hits);
        var hopCell := CellIndex(h, hop, n);
        CellIndexFromBase(h, hop, n);
        CellInContents(hopCell);
        if equal(cells[hopCell].value.value) {
          return Some(hopCell);
        }
        jump := jump - {hop};
      }
      NoHop(cells[..], base, hits);
      return None;
    }

    lemma TableFacts()
      requires Valid()
      ensures GoodSize(cells.Length) && cells.Length > NEIGHBOURS
    {
    }

    lemma HopIsOk(base: nat, hop: nat)
      requires Valid() && base < cells.Length && hop in cells[base].hops
      ensures HopOk(hash, cells[..], base, hop)
    {
      assert hop in cells[..][base].hops;
    }

    /** The comparison can be made with every stored value, and equal values have the hash `h`. */
    ghost predicate Comparable(h: nat, equal: Value ~> bool)
      reads *
    {
      forall v :: v in Contents() ==> equal.requires(v) && (equal(v) ==> hash(v.key) == h)
    }

    /** The neighbour has been compared, in vain. */
    ghost predicate Passed(equal: Value ~> bool, base: nat, d: nat)
      requires Valid() && base < cells.Length
      reads *
    {
      && HopOk(hash, cells[..], base, d) && cells[Ahead(base, d, cells.Length)].value.value in Contents()
      && var v := cells[Ahead(base, d, cells.Length)].value.value;
        equal.requires(v) && !equal(v)
    }

    lemma CellInContents(p: nat)
      requires Valid() && p < cells.Length && cells[p].value.Some?
      ensures cells[p].value.value in Contents()
    {
      ValuesMember(cells[..], cells[p].value.value);
      assert cells[..][p].value == Some(cells[p].value.value);
    }

    /** If neither the base cell nor a marked neighbour has been found equal, no stored value is. */
    lemma NotStored(h: nat, equal: Value ~> bool)
      requires Valid() && Comparable(h, equal)
      requires var base := CellIndex(h, 0, cells.Length);
        cells[base].value.Some? ==>
          && equal.requires(cells[base].value.value) && !equal(cells[base].value.value)
          && forall d :: d in cells[base].hops ==> Passed(equal, base, d)
      ensures forall v :: v in Contents() ==> !equal(v)
    {
      forall v | v in Contents()
        ensures !equal(v)
      {
        Found(hash, cells[..], v);
      }
    }

    /** Stores a value if its base cell is empty, or one of the neighbours, and otherwise changes nothing. */
    method Place(value: Value) returns (ok: bool)
      requires Valid()
      modifies this`used, cells
      ensures ok <==> old(RoomFor(hash, cells[..], value))
      ensures Valid() && Contents() == if ok then old(Contents()) + multiset{value} else old(Contents())
      ensures used == old(used) + if ok then 1 else 0
      ensures !ok ==> cells[..] == old(cells[..])
    {
      SizeFacts(cells.Length);
      var n := cells.Length;
      var h := hash(value.key);
      var base := CellIndex(h, 0, n);
      if cells[base].value.None? {
        PutInBase(base, value);
        return true;
      }
      for i := 1 to NEIGHBOURS + 1
        invariant cells[..] == old(cells[..]) && used == old(used)
        invariant forall d {:trigger Ahead(base, d, n)} :: 0 < d < i ==> cells[Ahead(base, d, n)].value.Some?
      {
        var second := CellIndex(h, i, n);
        CellIndexFromBase(h, i, n);
        if cells[second].value.None? {
          PutNearby(base, i, second, value);
          return true;
        }
      }
      return false;
    }

    method PutInBase(base: nat, value: Value)
      requires Valid() && base == Base(hash, value, cells.Length) && cells[base].value.None?
      modifies this`used, cells
      ensures Valid() && Contents() == old(Contents()) + multiset{value} && used == old(used) + 1
    {
      ghost var s := cells[..];
      StoredInBase(hash, s, value);
      AddedValues(s, base, Cell({}, Some(value)), value);
      cells[base] := Cell({}, Some(value));
      used := used + 1;
      assert cells[..] == s[base := Cell({}, Some(value))];
    }

    method PutNearby(base: nat, i: nat, second: nat, value: Value)
      requires Valid() && base == Base(hash, value, cells.Length) && cells[base].value.Some?
      requires 0 < i <= NEIGHBOURS && second == Ahead(base, i, cells.Length) && cells[second].value.None?
      modifies this`used, cells
      ensures Valid() && Contents() == old(Contents()) + multiset{value} && used == old(used) + 1
    {
      ghost var s := cells[..];
      ghost var marked := s[base].(hops := s[base].hops + {i});
      ghost var filled := s[second].(value := Some(value));
      StoredNearby(hash, s, value, i);
      StoredValues(s, base, marked, second, filled, value);
      cells[base] := cells[base].(hops := cells[base].hops + {i});
      cells[second] := cells[second].(value := Some(value));
      used := used + 1;
      assert cells[..] == s[base := marked][second := filled];
    }

    /**
     Inserts a value.  If there is no room for it nearby, a table that is more than four
     fifths full is doubled; that and the insertion thereafter succeed unless there is no
     room nearby for a value in the new table either.
     */
    method Insert(value: Value) returns (r: Outcome)
      requires Valid() && cells.Length < 0x8000_0000
      modifies this, cells
      ensures if old(RoomFor(hash, cells[..], value) || 5 * used <= 4 * cells.Length) then cells == old(cells)
        else Doubled()
      ensures old(RoomFor(hash, cells[..], value)) ==> r == Stored
      ensures old(!RoomFor(hash, cells[..], value) && 5 * used <= 4 * cells.Length) ==> r == NeedsRebalance
      ensures Valid()
      ensures r == Stored ==> Contents() == old(Contents()) + multiset{value}
      ensures r == NeedsRebalance ==> Contents() == old(Contents()) && !RoomFor(hash, cells[..], value)
      ensures r == CopyNeedsRebalance ==> Doubled() && CopyFails(old(Contents()))
    {
      var placed := Place(value);
      if placed {
        return Stored;
      }
      if 5 * used > 4 * cells.Length {
        ValuesSize(cells[..]);
        var copied := Resize();
        if !copied {
          return CopyNeedsRebalance;
        }
        var room := Place(value);
        r := if room then Stored else NeedsRebalance;
        return r;
      }
      return NeedsRebalance;
    }

    twostate predicate Doubled()
      reads this
    {
      fresh(cells) && cells.Length == 2 * old(cells.Length)
    }

    /** Some of the values `all` have been copied, and there is no room nearby for another of them. */
    ghost predicate CopyFails(all: multiset<Value>)
      reads this, cells
    {
      exists v :: v in all && Contents() + multiset{v} <= all && !RoomFor(hash, cells[..], v)
    }

    /** Replaces the cells by twice as many empty ones. */
    method Double()
      requires Valid() && cells.Length < 0x8000_0000
      modifies this
      ensures Valid() && Contents() == multiset{} && fresh(cells) && cells.Length == 2 * old(cells.Length)
    {
      DoubleSize(cells.Length);
      SizeFacts(2 * cells.Length);
      cells := new Cell[2 * cells.Length](_ => Cell({}, None));
      used := 0;
      NoValues(cells[..]);
    }

    /** Doubles the table and inserts all values again. */
    method Resize() returns (copied: bool)
      requires Valid() && cells.Length < 0x8000_0000
      modifies this
      ensures Doubled() && Valid()
      ensures copied ==> Contents() == old(Contents()) && 5 * used <= 4 * cells.Length
      ensures !copied ==> CopyFails(old(Contents()))
    {
      hide Values, Inv, GoodSize;
      var former := cells;
      ghost var s := cells[..];
      Double();
      NoValues(s[..0]);
      for i := 0 to former.Length
        invariant fresh(cells) && cells.Length == 2 * former.Length && former[..] == s
        invariant Valid() && Contents() == Values(s[..i]) && 5 * |s| <= 4 * cells.Length
      {
        MoreValues(s, i);
        if former[i].value.Some? {
          var placed := Place(former[i].value.value);
          if !placed {
            PartOfValues(s, i);
            return false;
          }
        }
      }
      assert s[..former.Length] == s;
      ValuesSize(s);
      return true;
    }

    /**
     The next value of an enumeration that has looked at `index` cells and seen `seen`
     values in them.  The source counts the values so as not to look at the cells after the
     last one.
     */
    method Next(index: nat, seen: nat) returns (value: Option<Value>, index': nat, seen': nat)
      requires Valid() && index <= cells.Length && seen == |Values(cells[..index])|
      ensures index <= index' <= cells.Length && seen' == |Values(cells[..index'])|
      ensures value.None? ==> Values(cells[..index]) == Contents()
      ensures value.Some? ==>
        Values(cells[..index']) == Values(cells[..index]) + multiset{value.value} && index < index'
      ensures value.Some? ==>
        cells[index' - 1].value == value && forall p :: index <= p < index' - 1 ==> cells[p].value.None?
    {
      hide Values, Inv, Single;
      ghost var s := cells[..];
      assert s[..|s|] == s && forall i :: 0 <= i <= |s| ==> cells[..i] == s[..i];
      if seen >= used {
        AllSeen(s, index);
        return None, index, seen;
      }
      var p := NextFull(index);
      SkipEmpty(s, index, p);
      if p == cells.Length {
        return None, p, seen;
      }
      MoreValues(s, p);
      OneMore(Values(s[..p]), s[p].value);
      return cells[p].value, p + 1, seen + 1;
    }

    /** The first cell from `index` on that holds a value. */
    method NextFull(index: nat) returns (p: nat)
      requires index <= cells.Length
      ensures index <= p <= cells.Length && (p < cells.Length ==> cells[p].value.Some?)
      ensures forall q :: index <= q < p ==> cells[q].value.None?
    {
      p := index;
      while p < cells.Length && cells[p].value.None?
        invariant index <= p <= cells.Length && forall q :: index <= q < p ==> cells[q].value.None?
      {
        p := p + 1;
      }
    }

    /** Fills a hole with a neighbour of its own, then the hole that this leaves, and so on. */
    method MoveSecond(emptyCell: nat)
      requires HoleAt(hash, cells[..], emptyCell) && cells[emptyCell].hops != {}
      modifies cells
      ensures Inv(hash, cells[..])
      ensures Contents() + multiset{old(cells[emptyCell].value.value)} == old(Contents())
      decreases Marks(cells[..])
    {
      var n := cells.Length;
      ghost var s := cells[..];
      var hop := FirstHop(cells[emptyCell].hops);
      MovedUp(hash, s, emptyCell, hop);
      var hopCell := (emptyCell + hop) % n;
      ghost var moved := Cell(s[emptyCell].hops - {hop}, s[hopCell].value);
      MarksUpdate(s, emptyCell, moved);
      cells[emptyCell] := Cell(cells[emptyCell].hops - {hop}, cells[hopCell].value);
      assert cells[..] == s[emptyCell := moved];
      if cells[hopCell].hops == {} {
        EmptyHole(hopCell);
      } else {
        MoveSecond(hopCell);
      }
      MovedValues(s, emptyCell, moved, Contents());
    }

    method EmptyHole(cell: nat)
      requires HoleAt(hash, cells[..], cell) && cells[cell].hops == {}
      modifies cells
      ensures Inv(hash, cells[..])
      ensures Contents() + multiset{old(cells[cell].value.value)} == old(Contents())
    {
      ghost var s := cells[..];
      HoleEmptied(hash, s, cell);
      EmptiedValues(s, cell, Cell({}, None));
      cells[cell] := cells[cell].(value := None);
      assert cells[..] == s[cell := Cell({}, None)];
    }

    /** The base of a value that is to be removed does not mark it any more. */
    method Unmark(cell: nat, base: nat)
      requires Inv(hash, cells[..]) && cell < cells.Length && cells[cell].value.Some?
      requires base == Base(hash, cells[cell].value.value, cells.Length)
      modifies cells
      ensures HoleAt(hash, cells[..], cell) && Contents() == old(Contents())
      ensures cells[cell].value == old(cells[cell].value)
    {
      var n := cells.Length;
      ghost var s := cells[..];
      Unmarked(hash, s, cell);
      if base != cell {
        var displacement := (cell - base + n) % n;
        Displacement(hash, s, cell, base, displacement);
        ghost var unmarked := s[base].(hops := s[base].hops - {displacement});
        MarkedValues(s, base, unmarked);
        cells[base] := cells[base].(hops := cells[base].hops - {displacement});
        assert cells[..] == s[base := unmarked];
      }
    }

    /** Removes a value with the given key and moves up what was displaced by it. */
    method Remove(key: nat) returns (removed: Option<Value>)
      requires Valid()
      modifies this`used, cells
      ensures Valid()
      ensures removed.None? ==> Contents() == old(Contents()) && forall v :: v in Contents() ==> v.key != key
      ensures removed.Some? ==>
        && removed.value.key == key && removed.value in old(Contents())
        && Contents() == old(Contents()) - multiset{removed.value}
    {
      var found := GetCell(key);
      if found.None? {
        return None;
      }
      var cell := found.value;
      removed := cells[cell].value;
      ValuesMember(cells[..], removed.value);
      Unmark(cell, CellIndex(hash(key), 0, cells.Length));
      if cells[cell].hops == {} {
        EmptyHole(cell);
      } else {
        MoveSecond(cell);
      }
      used := used - 1;
    }
  }

  /** Once as many values as there are have been seen, there are none in the other cells. */
  lemma AllSeen(s: seq<Cell>, i: nat)
    requires i <= |s| && |Values(s[..i])| >= |Values(s)|
    ensures Values(s[..i]) == Values(s)
  {
    SplitValues(s, i);
    assert |Values(s)| == |Values(s[..i])| + |Values(s[i..])|;
  }

  lemma {:induction false} SplitValues(s: seq<Cell>, i: nat)
    requires i <= |s|
    ensures Values(s) == Values(s[..i]) + Values(s[i..])
    decreases |s| - i
  {
    hide Single;
    if i == |s| {
      assert s[..i] == s && s[i..] == [];
    } else {
      SplitValues(s, i + 1);
      MoreValues(s, i);
      FirstValue(s, i);
    }
  }

  lemma FirstValue(s: seq<Cell>, i: nat)
    requires i < |s|
    ensures Values(s[i..]) == Single(s[i].value) + Values(s[i + 1..])
  {
    hide Single;
    assert s[i..][0] == s[i] && s[i..][1..] == s[i + 1..];
  }

  lemma {:induction false} SkipEmpty(s: seq<Cell>, i: nat, p: nat)
    requires i <= p <= |s| && forall q :: i <= q < p ==> s[q].value.None?
    ensures Values(s[..p]) == Values(s[..i])
    decreases p
  {
    if i < p {
      SkipEmpty(s, i, p - 1);
      MoreValues(s, p - 1);
    }
  }

  /** The cells at distances up to `k` from a base. */
  ghost function Neighbourhood(b: nat, k: nat, n: nat): (r: set<nat>)
    requires b < n && k < n
    ensures forall p :: p in r ==> p < n
  {
    set d: nat | d <= k :: Ahead(b, d, n)
  }

  lemma {:induction false} NeighbourhoodSize(b: nat, k: nat, n: nat)
    requires b < n && k < n
    ensures |Neighbourhood(b, k, n)| == k + 1
  {
    if k == 0 {
      assert Neighbourhood(b, 0, n) == {Ahead(b, 0, n)};
    } else {
      NeighbourhoodSize(b, k - 1, n);
      assert Neighbourhood(b, k, n) == Neighbourhood(b, k - 1, n) + {Ahead(b, k, n)};
      assert Ahead(b, k, n) !in Neighbourhood(b, k - 1, n);
    }
  }

  lemma {:induction false} FullCells(s: seq<Cell>, full: set<nat>)
    requires forall p :: p in full ==> p < |s| && s[p].value.Some?
    ensures |full| <= |Values(s)|
    decreases |s|
  {
    if s == [] {
      assert full == {};
    } else {
      var last := |s| - 1;
      MoreValues(s, last);
      assert s[..|s|] == s;
      FullCells(s[..last], full - {last});
    }
  }

  /** As long as a table holds no more than 32 values there is room for any value. */
  lemma FewValuesLeaveRoom(hash: nat -> nat, cells: seq<Cell>, v: Value)
    requires GoodSize(|cells|) && |Values(cells)| <= NEIGHBOURS
    ensures RoomFor(hash, cells, v)
  {
    var n := |cells|;
    SizeFacts(n);
    var b := Base(hash, v, n);
    if !RoomFor(hash, cells, v) {
      NeighbourhoodSize(b, NEIGHBOURS, n);
      assert Ahead(b, 0, n) == b;
      FullCells(cells, Neighbourhood(b, NEIGHBOURS, n));
    }
  }

  /** What has been seen before a cell, together with the value in it, is part of all values. */
  lemma PartOfValues(s: seq<Cell>, i: nat)
    requires i < |s| && s[i].value.Some?
    ensures s[i].value.value in Values(s) && Values(s[..i]) + multiset{s[i].value.value} <= Values(s)
  {
    MoreValues(s, i);
    SplitValues(s, i + 1);
  }

  lemma OneMore(vs: multiset<Value>, value: Option<Value>)
    ensures value.None? ==> vs + Single(value) == vs
    ensures value.Some? ==> vs + Single(value) == vs + multiset{value.value} && |vs + Single(value)| == |vs| + 1
  {
  }

  lemma MoreValues(s: seq<Cell>, i: nat)
    requires i < |s|
    ensures Values(s[..i + 1]) == Values(s[..i]) + Single(s[i].value)
  {
    hide Single, Values;
    assert s[..i + 1] == s[..i] + [s[i]];
    ValuesAppend(s[..i], s[i]);
  }

  /** The displacement that is computed from two cells is the distance between them. */
  lemma Displacement(hash: nat -> nat, cells: seq<Cell>, p: nat, b: nat, d: nat)
    requires Inv(hash, cells) && p < |cells| && b < |cells| && p != b && d == (p - b + |cells|) % |cells|
    requires cells[p].value.Some? && Base(hash, cells[p].value.value, |cells|) == b
    ensures 0 < d <= NEIGHBOURS && p == Ahead(b, d, |cells|)
  {
    var n := |cells|;
    assert ValueOk(hash, cells, p);
    var e :| e in cells[b].hops && 0 < e <= NEIGHBOURS && e < n && p == Ahead(b, e, n);
    if p > b {
      ModUnique(p - b + n, 1, p - b, n);
    } else {
      ModUnique(p - b + n, 0, p - b + n, n);
    }
  }
}
