/**
 The registry of selectors, in the build without type-dependent dispatch: registering a
 selector replaces its name by an index, while the selector is a key of the table.

 The table is a hash table.  Its cells hold pointers to selectors, here the place of each
 selector in the sequence of all that are in the table.  The hash of a selector is that of
 its name, which stays the same when the name is replaced by an index.
 */
module SelectorTable {
  import opened Wrappers
  import opened Arithmetic
  import opened SelectorTypes
  import Hopscotch
  import HashTable

  /** The union in a selector: a pointer to the name, or the index once it is registered. */
  datatype SelName = Ptr(text: string) | Index(index: nat)

  class Selector {
    var name: SelName
    const types: Option<string>

    constructor (name: SelName, types: Option<string>)
      ensures this.name == name && this.types == types
    {
      this.name, this.types := name, types;
    }
  }

  /** An entry of `selector_list`: the name and the type encodings that it was registered with. */
  datatype TypeList = TypeList(value: string, types: seq<string>)

  function Text(list: seq<Option<TypeList>>, name: SelName): string {
    match name
    case Ptr(text) => text
    case Index(i) => if i < |list| && list[i].Some? then list[i].value.value else ""
  }

  /**
   A snapshot: `names` holds what has become of the names of all selectors that have an
   index, whether they are in the table or only equal to one that is.
   */
  datatype Book = Book(list: seq<Option<TypeList>>, names: map<Selector, SelName>, table: set<Selector>)
  {
    ghost function NameOf(s: Selector): string {
      if s in names then Text(list, names[s]) else ""
    }

    ghost predicate IndexOk(s: Selector, n: nat) {
      s in names && names[s].Index? && 1 <= names[s].index < n
    }

    /** A selector without types that has the same name is always in the table. */
    ghost predicate HasUntyped(s: Selector) {
      s in names && exists u :: u in table && u in names && u.types.None? && names[u] == names[s]
    }

    /** The entries below `n`, and no others, are in use; equal names have equal indices. */
    ghost predicate Sound(n: nat) {
      && table <= names.Keys && 1 <= n <= |list|
      && (forall i :: 1 <= i < n ==> list[i].Some?) && (forall i :: n <= i < |list| ==> list[i].None?)
      && (forall s {:trigger IndexOk(s, n)} :: s in names ==> IndexOk(s, n))
      && (forall s {:trigger HasUntyped(s)} :: s in names ==> HasUntyped(s))
      && (forall s, t {:trigger NameOf(s), NameOf(t)} ::
            s in names && t in names && NameOf(s) == NameOf(t) ==> names[s] == names[t])
    }

    /** Every listed encoding is that of a selector in the table. */
    ghost predicate ListedOk(i: nat) {
      i < |list| && list[i].Some? ==> forall t :: t in list[i].value.types ==> Typed(i, t)
    }

    ghost predicate Typed(i: nat, t: string) {
      exists x :: x in table && x in names && names[x] == Index(i) && x.types == Some(t)
    }

    /** The encoding of every selector in the table is listed. */
    ghost predicate TypeListed(x: Selector) {
      x in names && names[x].Index? && names[x].index < |list| && list[names[x].index].Some? && x.types.Some? ==>
        x.types.value in list[names[x].index].value.types
    }

    ghost predicate Listed() {
      && (forall i: nat {:trigger ListedOk(i)} :: ListedOk(i))
      && (forall x {:trigger TypeListed(x)} :: x in table ==> TypeListed(x))
    }
  }

  /** A selector enters the table at `idx` with the index `uid`. */
  ghost function Added(b: Book, sel: Selector, uid: nat, idx: nat, text: string): Book
    requires idx <= |b.list| && |b.list| > 0
  {
    var list := if idx >= |b.list| then b.list + seq(|b.list|, _ => None) else b.list;
    Book(list[idx := Some(TypeList(text, []))], b.names[sel := Index(uid)], b.table + {sel})
  }

  /** What is known of the index that a selector is to get. */
  ghost predicate GoodUid(b: Book, sel: Selector, uid: nat, idx: nat, text: string) {
    if uid == idx then sel.types.None? && forall s {:trigger b.NameOf(s)} :: s in b.names ==> b.NameOf(s) != text
    else exists u :: u in b.table && u in b.names && u.types.None? && b.names[u] == Index(uid) && b.NameOf(u) == text
  }

  lemma AddedNames(b: Book, sel: Selector, uid: nat, idx: nat, text: string)
    requires b.Sound(idx) && sel !in b.names && GoodUid(b, sel, uid, idx, text)
    ensures var b' := Added(b, sel, uid, idx, text);
      && b'.NameOf(sel) == text && (forall s {:trigger b'.NameOf(s)} :: s in b.names ==> b'.NameOf(s) == b.NameOf(s))
      && idx + 1 <= |b'.list| && forall i :: 0 <= i < idx ==> b'.list[i] == b.list[i]
  {
    var b' := Added(b, sel, uid, idx, text);
    forall s | s in b.names
      ensures b'.NameOf(s) == b.NameOf(s)
    {
      assert b.IndexOk(s, idx);
    }
    if uid != idx {
      var u :| u in b.table && u in b.names && u.types.None? && b.names[u] == Index(uid) && b.NameOf(u) == text;
      assert b.IndexOk(u, idx);
    }
  }

  /** Entering a selector keeps the names of all others, and equal names with equal indices. */
  lemma AddedSound(b: Book, sel: Selector, uid: nat, idx: nat, text: string)
    requires b.Sound(idx) && sel !in b.names && GoodUid(b, sel, uid, idx, text)
    ensures Added(b, sel, uid, idx, text).Sound(idx + 1)
  {
    hide Added, GoodUid, Book.NameOf, Book.Sound, Book.IndexOk, Book.HasUntyped;
    SoundFits(b, idx);
    var b' := Added(b, sel, uid, idx, text);
    AddedShape(b, sel, uid, idx, text);
    forall s | s in b'.names
      ensures b'.IndexOk(s, idx + 1) && b'.HasUntyped(s)
    {
      AddedHasUntyped(b, sel, uid, idx, text, s);
    }
    forall s, t | s in b'.names && t in b'.names && b'.NameOf(s) == b'.NameOf(t)
      ensures b'.names[s] == b'.names[t]
    {
      AddedUnique(b, sel, uid, idx, text, s, t);
    }
    SoundMade(b', idx + 1);
  }

  lemma SoundFits(b: Book, n: nat)
    requires b.Sound(n)
    ensures 1 <= n <= |b.list|
  {
  }

  lemma SoundMade(b: Book, n: nat)
    requires b.table <= b.names.Keys && 1 <= n <= |b.list|
    requires forall i :: 1 <= i < n ==> b.list[i].Some?
    requires forall i :: n <= i < |b.list| ==> b.list[i].None?
    requires forall s :: s in b.names ==> b.IndexOk(s, n) && b.HasUntyped(s)
    requires forall s, t :: s in b.names && t in b.names && b.NameOf(s) == b.NameOf(t) ==> b.names[s] == b.names[t]
    ensures b.Sound(n)
  {
    hide Book.IndexOk, Book.HasUntyped, Book.NameOf;
  }

  lemma AddedShape(b: Book, sel: Selector, uid: nat, idx: nat, text: string)
    requires b.Sound(idx) && sel !in b.names
    ensures var b' := Added(b, sel, uid, idx, text);
      && b'.table <= b'.names.Keys && b'.names.Keys == b.names.Keys + {sel} && idx + 1 <= |b'.list|
      && (forall i :: 1 <= i < idx + 1 ==> b'.list[i].Some?)
      && (forall i :: idx + 1 <= i < |b'.list| ==> b'.list[i].None?)
  {
  }

  lemma AddedUnique(b: Book, sel: Selector, uid: nat, idx: nat, text: string, s: Selector, t: Selector)
    requires b.Sound(idx) && sel !in b.names && GoodUid(b, sel, uid, idx, text)
    requires var b' := Added(b, sel, uid, idx, text); s in b'.names && t in b'.names && b'.NameOf(s) == b'.NameOf(t)
    ensures var b' := Added(b, sel, uid, idx, text); b'.names[s] == b'.names[t]
  {
    hide Book.NameOf, GoodUid;
    AddedNames(b, sel, uid, idx, text);
    if s == sel && t != sel {
      AddedSameName(b, sel, uid, idx, text, t);
    } else if t == sel && s != sel {
      AddedSameName(b, sel, uid, idx, text, s);
    } else if s != sel {
      assert b.NameOf(s) == b.NameOf(t);
    }
  }

  lemma AddedHasUntyped(b: Book, sel: Selector, uid: nat, idx: nat, text: string, s: Selector)
    requires b.Sound(idx) && sel !in b.names && GoodUid(b, sel, uid, idx, text) && (s in b.names || s == sel)
    ensures var b' := Added(b, sel, uid, idx, text); b'.IndexOk(s, idx + 1) && b'.HasUntyped(s)
  {
    var b' := Added(b, sel, uid, idx, text);
    if s != sel {
      assert b.IndexOk(s, idx) && b.HasUntyped(s);
      var u :| u in b.table && u in b.names && u.types.None? && b.names[u] == b.names[s];
      assert u in b'.table && b'.names[u] == b'.names[s];
    } else if uid != idx {
      var u :| u in b.table && u in b.names && u.types.None? && b.names[u] == Index(uid) && b.NameOf(u) == text;
      assert b.IndexOk(u, idx);
      assert u in b'.table && b'.names[u] == b'.names[s];
    } else {
      assert sel in b'.table && b'.names[sel] == b'.names[s];
    }
  }

  lemma AddedSameName(b: Book, sel: Selector, uid: nat, idx: nat, text: string, t: Selector)
    requires b.Sound(idx) && sel !in b.names && GoodUid(b, sel, uid, idx, text) && t in b.names && b.NameOf(t) == text
    ensures b.names[t] == Index(uid)
  {
    if uid != idx {
      var u :| u in b.table && u in b.names && u.types.None? && b.names[u] == Index(uid) && b.NameOf(u) == text;
      assert b.NameOf(u) == b.NameOf(t);
    }
  }

  /** A type encoding is listed behind the name. */
  ghost function Behind(list: seq<Option<TypeList>>, i: nat, t: string): seq<Option<TypeList>>
    requires i < |list| && list[i].Some?
  {
    list[i := Some(TypeList(list[i].value.value, [t] + list[i].value.types))]
  }

  lemma BehindSound(b: Book, i: nat, t: string, n: nat)
    requires b.Sound(n) && i < |b.list| && b.list[i].Some?
    ensures b.(list := Behind(b.list, i, t)).Sound(n)
    ensures forall s {:trigger b.(list := Behind(b.list, i, t)).NameOf(s)} ::
      b.(list := Behind(b.list, i, t)).NameOf(s) == b.NameOf(s)
  {
    var b' := b.(list := Behind(b.list, i, t));
    forall s
      ensures b'.NameOf(s) == b.NameOf(s)
    {
    }
    forall s | s in b'.names
      ensures b'.IndexOk(s, n) && b'.HasUntyped(s)
    {
      assert b.IndexOk(s, n) && b.HasUntyped(s);
    }
  }

  /** A selector without types needs no listing. */
  lemma UntypedListed(b: Book, sel: Selector, idx: nat, text: string)
    requires b.Listed() && b.Sound(idx) && sel !in b.names && GoodUid(b, sel, idx, idx, text)
    ensures Added(b, sel, idx, idx, text).Listed()
  {
    var b' := Added(b, sel, idx, idx, text);
    AddedNames(b, sel, idx, idx, text);
    forall i: nat
      ensures b'.ListedOk(i)
    {
      assert b.ListedOk(i);
      if i < idx && b'.list[i].Some? {
        forall t | t in b'.list[i].value.types
          ensures b'.Typed(i, t)
        {
          assert b.Typed(i, t);
        }
      }
    }
    forall x | x in b'.table
      ensures b'.TypeListed(x)
    {
      if x != sel {
        assert b.TypeListed(x) && b.IndexOk(x, idx);
      }
    }
  }

  /** The encoding of a selector with types is listed behind its name. */
  lemma TypedListed(b: Book, sel: Selector, uid: nat, idx: nat, text: string)
    requires b.Listed() && b.Sound(idx) && sel !in b.names && GoodUid(b, sel, uid, idx, text)
    requires uid != idx && sel.types.Some?
    ensures var b' := Added(b, sel, uid, idx, text); uid < |b'.list| && b'.list[uid].Some?
    ensures var b' := Added(b, sel, uid, idx, text); b'.(list := Behind(b'.list, uid, sel.types.value)).Listed()
  {
    var b1 := Added(b, sel, uid, idx, text);
    AddedNames(b, sel, uid, idx, text);
    AddedHasUntyped(b, sel, uid, idx, text, sel);
    GoodUidFits(b, sel, uid, idx, text);
    var b' := b1.(list := Behind(b1.list, uid, sel.types.value));
    forall i: nat
      ensures b'.ListedOk(i)
    {
      assert b.ListedOk(i);
      if i < idx && b'.list[i].Some? {
        forall t | t in b'.list[i].value.types
          ensures b'.Typed(i, t)
        {
          if i == uid && t == sel.types.value {
            assert sel in b'.table && b'.names[sel] == Index(i);
          } else {
            assert b.Typed(i, t);
            var x :| x in b.table && x in b.names && b.names[x] == Index(i) && x.types == Some(t);
            assert x in b'.table && b'.names[x] == Index(i);
          }
        }
      }
    }
    forall x | x in b'.table
      ensures b'.TypeListed(x)
    {
      if x != sel {
        assert b.TypeListed(x) && b.IndexOk(x, idx);
      }
    }
  }

  lemma GoodUidFits(b: Book, sel: Selector, uid: nat, idx: nat, text: string)
    requires b.Sound(idx) && GoodUid(b, sel, uid, idx, text) && uid != idx
    ensures 1 <= uid < idx && uid < |b.list| && b.list[uid].Some? && b.list[uid].value.value == text
  {
    var u :| u in b.table && u in b.names && u.types.None? && b.names[u] == Index(uid) && b.NameOf(u) == text;
    assert b.IndexOk(u, idx);
  }

  // ----- the hash table -----

  /** `hash_selector`, of a selector with this name. */
  function NameHash(name: string): nat {
    HashFrom(5381, name)
  }

  function HashFrom(hash: nat, name: string): nat
    decreases |name|
  {
    if name == "" then hash else HashFrom((hash * 33 + name[0] as nat) % 0x1_0000_0000, name[1..])
  }

  /** The values in the cells stand for the selectors in the table, with the hashes of their names. */
  ghost predicate Keyed(b: Book, entries: seq<Selector>, values: multiset<Hopscotch.Value>) {
    && (forall v :: v in values ==> v.data < |entries| && v == Pointer(b, entries, v.data))
    && (forall i: nat {:trigger entries[i]} :: i < |entries| ==> Pointer(b, entries, i) in values)
  }

  ghost function Pointer(b: Book, entries: seq<Selector>, i: nat): Hopscotch.Value
    requires i < |entries|
  {
    Hopscotch.Value(NameHash(b.NameOf(entries[i])), i)
  }

  ghost predicate ListsAll(b: Book, entries: seq<Selector>) {
    (forall s :: s in entries ==> s in b.table) && (forall s :: s in b.table ==> s in entries)
  }

  /** As long as the selectors in the table keep their names, the cells stay as good as they are. */
  lemma KeyedKept(b: Book, b': Book, entries: seq<Selector>, values: multiset<Hopscotch.Value>)
    requires Keyed(b, entries, values) && ListsAll(b, entries) && b.table <= b.names.Keys && Keeps(b, b')
    ensures Keyed(b', entries, values)
  {
    forall i: nat | i < |entries|
      ensures Pointer(b', entries, i) == Pointer(b, entries, i)
    {
      assert entries[i] in entries;
      assert b'.NameOf(entries[i]) == b.NameOf(entries[i]);
    }
  }

  /** A selector has been entered under the hash of its name. */
  lemma KeyedMore(b: Book, b': Book, entries: seq<Selector>, values: multiset<Hopscotch.Value>, sel: Selector)
    requires Keyed(b, entries, values) && ListsAll(b, entries) && b.table <= b.names.Keys && Keeps(b, b')
    ensures Keyed(b', entries + [sel], values + multiset{Pointer(b', entries + [sel], |entries|)})
  {
    hide Book.NameOf, NameHash, Keeps, ListsAll;
    var more := entries + [sel];
    var all := values + multiset{Pointer(b', more, |entries|)};
    KeyedKept(b, b', entries, values);
    forall i: nat | i < |more|
      ensures Pointer(b', more, i) in all
    {
      assert i < |entries| ==> Pointer(b', more, i) == Pointer(b', entries, i);
    }
    forall v | v in all
      ensures v.data < |more| && v == Pointer(b', more, v.data)
    {
      assert v in values ==> Pointer(b', more, v.data) == Pointer(b', entries, v.data);
    }
  }

  lemma InitialSizes()
    ensures Pow2(8) == 256 && Hopscotch.GoodSize(4096)
  {
    Pow2Sum(4, 8);
    assert Pow2(4) == 16 && Pow2(8) == 256;
    assert Pow2(12) == 4096;
  }

  class Registry {
    /** `selector_count` */
    var count: nat
    /** `selector_list`; its length is `table_size`. */
    var list: seq<Option<TypeList>>
    /** `sel_table` */
    const cells: HashTable.HopscotchTable
    /** The selectors in the table, which the values in its cells stand for. */
    var entries: seq<Selector>
    /** The hash table has had to be rebalanced, or is as large as it can be; how it goes on is not followed. */
    var rebalanced: bool
    ghost var table: set<Selector>
    ghost var known: set<Selector>
    var dtableDepth: nat

    ghost function Names(): map<Selector, SelName>
      reads this, known
    {
      map s | s in known :: s.name
    }

    ghost function Now(): Book
      reads this, known
    {
      Book(list, Names(), table)
    }

    /** All is well, and every index fits in `selector_list` and in a dispatch table. */
    ghost predicate Valid()
      reads this, known, cells, cells.cells
    {
      && Now().Sound(count) && Now().Listed() && count < Pow2(dtableDepth) && dtableDepth in {8, 16, 24}
      && TableOk()
    }

    /** The cells hold the selectors in the table, unless they are not followed any more. */
    ghost predicate TableOk()
      reads this, known, cells, cells.cells
    {
      && ListsAll(Now(), entries)
      && (!rebalanced ==> cells.Valid() && (forall k :: cells.hash(k) == k) && Keyed(Now(), entries, cells.Contents()))
    }

    /** The cells are the same array, or a new one. */
    twostate predicate CellsKept()
      reads cells
    {
      cells.cells == old(cells.cells) || fresh(cells.cells)
    }

    constructor ()
      ensures Valid() && known == {} && table == {} && !rebalanced
    {
      InitialSizes();
      count, list, table, known, dtableDepth := 1, seq(4096, _ => None), {}, {}, 8;
      cells := new HashTable.HopscotchTable(k => k, 4096);
      entries, rebalanced := [], false;
      new;
    }

    /** `sel_getNameNonUnique` */
    function NameOf(sel: Selector): string
      reads this, sel
    {
      Text(list, sel.name)
    }

    /** Two registered selectors have the same index just if they have the same name. */
    lemma SameIndexSameName(s: Selector, t: Selector)
      requires Valid() && s in known && t in known
      ensures s.name == t.name <==> NameOf(s) == NameOf(t)
    {
      assert Now().NameOf(s) == NameOf(s) && Now().NameOf(t) == NameOf(t);
    }

    /** Every index of a registered selector is in the range of `selector_list` and of every table. */
    lemma IndexFits(s: Selector)
      requires Valid() && s in known
      ensures s.name.Index? && 0 < s.name.index < |list| && s.name.index < Pow2(dtableDepth)
      ensures list[s.name.index].Some? && list[s.name.index].value.value == NameOf(s)
    {
      assert Now().IndexOk(s, count);
    }

    /** The encodings listed for a name are those of the selectors with that name in the table. */
    lemma TypesAreListed(s: Selector, t: string)
      requires Valid() && s in table
      ensures s.name.Index? && s.name.index < |list| && list[s.name.index].Some?
      ensures t in list[s.name.index].value.types <==>
        exists x :: x in table && NameOf(x) == NameOf(s) && x.types == Some(t)
    {
      var b := Now();
      assert s in b.table;
      assert b.IndexOk(s, count) && b.ListedOk(s.name.index);
      if t in list[s.name.index].value.types {
        assert b.Typed(s.name.index, t);
        var x :| x in b.table && x in b.names && b.names[x] == Index(s.name.index) && x.types == Some(t);
        assert x in table && NameOf(x) == NameOf(s) && x.types == Some(t);
      }
      if x :| x in table && NameOf(x) == NameOf(s) && x.types == Some(t) {
        assert x in b.table;
        SameIndexSameName(x, s);
        assert b.TypeListed(x);
      }
    }

    /** `selector_identical` */
    predicate Identical(s: Selector, name: string, types: Option<string>)
      reads this, s
    {
      NameOf(s) == name && TypesEqual(types, s.types)
    }

    /** The values in the cells that stand for a selector with the name and equal types. */
    ghost function Hits(name: string, types: Option<string>): set<Hopscotch.Value>
      reads this, entries, cells, cells.cells
    {
      set v | v in cells.Contents() && v.data < |entries| && Identical(entries[v.data], name, types)
    }

    /** What a lookup finds: of several identical selectors the one that the search comes to first. */
    ghost function Hit(name: string, types: Option<string>): Option<Selector>
      reads this, entries, cells, cells.cells
    {
      if rebalanced || cells.cells.Length == 0 then FirstMatch(0, name, types)
      else
        var base := Hopscotch.CellIndex(NameHash(name), 0, cells.cells.Length);
        InCell(Hopscotch.FirstEqual(cells.cells[..], base, Hits(name, types)))
    }

    ghost function InCell(cell: Option<nat>): Option<Selector>
      reads this, cells, cells.cells
    {
      if cell.Some? && cell.value < cells.cells.Length && cells.cells[cell.value].value.Some? then
        var i := cells.cells[cell.value].value.value.data;
        if i < |entries| then Some(entries[i]) else None
      else None
    }

    ghost function FirstMatch(i: nat, name: string, types: Option<string>): Option<Selector>
      reads this, entries
      decreases |entries| - i
    {
      if i >= |entries| then None
      else if Identical(entries[i], name, types) then Some(entries[i])
      else FirstMatch(i + 1, name, types)
    }

    /**
     `selector_lookup`: probes the hash table.  When that is not followed any more, some
     identical selector is found, here the one that has been in the table for the longest.
     */
    method SelectorLookup(name: string, types: Option<string>) returns (found: Option<Selector>)
      requires Valid()
      ensures found.Some? ==> found.value in table && Identical(found.value, name, types)
      ensures found.None? ==> forall s :: s in table && NameOf(s) == name ==> !TypesEqual(types, s.types)
      ensures found == Hit(name, types)
    {
      hide Book.Sound, Book.Listed, Book.NameOf, NameHash, Keyed, EqualFrom;
      EntriesKnown();
      if !rebalanced {
        found := Probe(name, types);
        return;
      }
      for i := 0 to |entries|
        invariant FirstMatch(0, name, types) == FirstMatch(i, name, types)
        invariant forall j :: 0 <= j < i ==> !Identical(entries[j], name, types)
      {
        if Identical(entries[i], name, types) {
          return Some(entries[i]);
        }
      }
      return None;
    }

    method Probe(name: string, types: Option<string>) returns (found: Option<Selector>)
      requires Valid() && !rebalanced
      ensures found.Some? ==> found.value in table && Identical(found.value, name, types)
      ensures found.None? ==> forall s :: s in table && NameOf(s) == name ==> !TypesEqual(types, s.types)
      ensures found == Hit(name, types)
    {
      hide Book.Sound, Book.Listed, NameHash, Keyed, EqualFrom, HashTable.HopscotchTable.Valid,
        HashTable.HopscotchTable.Contents;
      EntriesKnown();
      ValuesFit(name, types);
      var cell := cells.FindCell(NameHash(name),
                                 (v: Hopscotch.Value) requires v.data < |entries| reads this, set s | s in entries =>
                                   Identical(entries[v.data], name, types),
                                 Hits(name, types));
      if cell.None? {
        NotFound(name, types);
        return None;
      }
      return Some(entries[cells.cells[cell.value].value.value.data]);
    }

    lemma EntriesKnown()
      requires Valid()
      ensures table <= known && (forall s :: s in entries <==> s in table)
      ensures forall s :: s in entries ==> Now().NameOf(s) == NameOf(s)
    {
    }

    /** A value that is found equal has the hash of the name. */
    lemma ValuesFit(name: string, types: Option<string>)
      requires Valid() && !rebalanced
      ensures forall v :: v in cells.Contents() ==> v.data < |entries|
      ensures forall v {:trigger v.data} :: v in cells.Contents() && Identical(entries[v.data], name, types) ==>
        cells.hash(v.key) == NameHash(name)
    {
      hide Book.Sound, Book.Listed, NameHash, EqualFrom;
      EntriesKnown();
      forall v | v in cells.Contents()
        ensures v.data < |entries| && (Identical(entries[v.data], name, types) ==> cells.hash(v.key) == NameHash(name))
      {
        assert v == Pointer(Now(), entries, v.data);
      }
    }

    lemma NotFound(name: string, types: Option<string>)
      requires Valid() && !rebalanced
      requires forall v :: v in cells.Contents() ==> v.data < |entries| && !Identical(entries[v.data], name, types)
      ensures forall s :: s in table && NameOf(s) == name ==> !TypesEqual(types, s.types)
    {
      hide Book.Sound, Book.Listed, NameHash;
      forall s | s in table && NameOf(s) == name
        ensures !TypesEqual(types, s.types)
      {
        var i: nat :| i < |entries| && entries[i] == s;
        assert Pointer(Now(), entries, i) in cells.Contents();
        assert !Identical(entries[Pointer(Now(), entries, i).data], name, types);
      }
    }

    /**
     Enters a selector and its name, making room if there is none, and then replaces the
     name in the selector by `uid`: its own index or that of the untyped selector.
     */
    method AddSelectorToTable(sel: Selector, uid: nat, idx: nat)
      requires Now().Sound(idx) && GoodUid(Now(), sel, uid, idx, if sel.name.Ptr? then sel.name.text else "")
      requires TableOk() && sel !in known && sel.name.Ptr?
      modifies this`list, this`table, this`known, this`entries, this`rebalanced, sel`name, cells, cells.cells
      ensures 0 < idx <= |old(list)| && Now() == Added(old(Now()), sel, uid, idx, old(sel.name).text) && sel in known
      ensures known == old(known) + {sel} && table == old(table) + {sel} && TableOk() && CellsKept()
    {
      hide Keyed, Book.Sound, GoodUid, Keeps, Book.NameOf;
      ghost var b, former, text := Now(), entries, sel.name.text;
      ghost var values := if rebalanced then multiset{} else cells.Contents();
      SoundFits(b, idx);
      StoreName(idx, sel.name.text);
      EnterCells(sel);
      SwapName(sel, uid);
      Entered(b, sel, uid, idx, text, former, values);
    }

    /** The name is stored at the index, after making room. */
    method StoreName(idx: nat, name: string)
      requires 0 < idx <= |list|
      modifies this`list
      ensures Names() == old(Names()) && table == old(table)
      ensures list ==
        (if idx >= |old(list)| then old(list) + seq(|old(list)|, _ => None) else old(list))
          [idx := Some(TypeList(name, []))]
    {
      var entry := TypeList(name, []);
      if idx >= |list| {
        list := list + seq(|list|, _ => None);
      }
      list := list[idx := Some(entry)];
      assert Names() == old(Names());
    }

    /** The index takes the place of the name. */
    method SwapName(sel: Selector, uid: nat)
      requires sel !in known
      modifies this`table, this`known, sel`name
      ensures table == old(table) + {sel} && known == old(known) + {sel}
      ensures Names() == old(Names())[sel := Index(uid)]
    {
      ghost var names := Names();
      table, known := table + {sel}, known + {sel};
      sel.name := Index(uid);
      assert Names() == names[sel := Index(uid)];
    }

    /** Nothing has happened to the table since `b`, and all names are what they were. */
    lemma StillOk(b: Book)
      requires ListsAll(b, entries) && b.table <= b.names.Keys && Now().table == b.table && Keeps(b, Now())
      requires !rebalanced ==> cells.Valid() && (forall k :: cells.hash(k) == k) && Keyed(b, entries, cells.Contents())
      ensures TableOk()
    {
      hide Keyed, Keeps;
      if !rebalanced {
        KeyedKept(b, Now(), entries, cells.Contents());
      }
    }

    /** The value that stands for the selector goes into a cell near its hash. */
    method EnterCells(sel: Selector)
      requires sel.name.Ptr? && (!rebalanced ==> cells.Valid() && forall k :: cells.hash(k) == k)
      modifies this`entries, this`rebalanced, cells, cells.cells
      ensures entries == old(entries) + [sel] && CellsKept() && (old(rebalanced) ==> rebalanced)
      ensures !rebalanced ==>
        && cells.Valid()
        && cells.Contents() ==
             old(cells.Contents()) + multiset{Hopscotch.Value(NameHash(sel.name.text), |old(entries)|)}
    {
      hide NameHash;
      if !rebalanced {
        if cells.cells.Length < 0x8000_0000 {
          var outcome := cells.Insert(Hopscotch.Value(NameHash(sel.name.text), |entries|));
          rebalanced := outcome != HashTable.Stored;
        } else {
          rebalanced := true;
        }
      }
      entries := entries + [sel];
    }

    lemma Entered(b: Book, sel: Selector, uid: nat, idx: nat, text: string, former: seq<Selector>,
                  values: multiset<Hopscotch.Value>)
      requires b.Sound(idx) && sel !in b.names && GoodUid(b, sel, uid, idx, text) && ListsAll(b, former)
      requires Now() == Added(b, sel, uid, idx, text) && entries == former + [sel]
      requires !rebalanced ==> cells.Valid() && (forall k :: cells.hash(k) == k) && Keyed(b, former, values)
      requires !rebalanced ==> cells.Contents() == values + multiset{Hopscotch.Value(NameHash(text), |former|)}
      ensures TableOk()
    {
      hide Keyed, Book.Sound, GoodUid, NameHash, Book.NameOf;
      AddedKeeps(b, sel, uid, idx, text);
      AddedNames(b, sel, uid, idx, text);
      AliasTable(b, idx);
      if !rebalanced {
        KeyedMore(b, Now(), former, values, sel);
      }
    }

    /** Makes the dispatch tables deep enough for all selectors. */
    method ResizeDtables(newSize: nat)
      requires dtableDepth in {8, 16, 24} && newSize < Pow2(dtableDepth) + 2 && newSize < Pow2(24)
      modifies this`dtableDepth
      ensures dtableDepth in {8, 16, 24} && newSize < Pow2(dtableDepth) && dtableDepth >= old(dtableDepth)
      ensures Now() == old(Now()) && (old(TableOk()) ==> TableOk())
    {
      hide Keyed, Book.NameOf, Pow2;
      PowersOf8();
      if PowerOf(dtableDepth) > newSize {
        return;
      }
      assert dtableDepth != 24;
      dtableDepth := dtableDepth + 8;
      assert Names() == old(Names());
    }

    /** If the lookup of a name without types fails, no selector with an index has that name. */
    lemma NameIsNew(text: string)
      requires Valid() && forall s :: s in table && NameOf(s) == text ==> !TypesEqual(None, s.types)
      ensures forall s {:trigger Now().NameOf(s)} :: s in known ==> Now().NameOf(s) != text
    {
      var b := Now();
      forall s | s in known
        ensures b.NameOf(s) != text
      {
        assert b.HasUntyped(s);
        var u :| u in b.table && u in b.names && u.types.None? && b.names[u] == b.names[s];
        assert NameOf(u) == b.NameOf(s);
      }
    }

    /** Registers a selector that has no index yet and its name, if that is new, without types too. */
    method RegisterSelectorLocked(sel: Selector)
      requires Valid() && sel !in known && sel.name.Ptr? && count + 2 < Pow2(24)
      requires forall s :: s in table && NameOf(s) == sel.name.text ==> !TypesEqual(sel.types, s.types)
      modifies this`count, this`list, this`table, this`known, this`dtableDepth, sel`name
      modifies this`entries, this`rebalanced, cells, cells.cells
      ensures Valid() && CellsKept() && Keeps(old(Now()), Now()) && sel in table && sel in known
      ensures Now().NameOf(sel) == old(sel.name).text && count <= old(count) + 2
      ensures forall s :: s in table ==> s in old(table) || s == sel || (s.types.None? && sel.types.Some?)
    {
      hide Book.Sound, Book.Listed, Book.NameOf, Keeps, TableOk, CellsKept;
      ghost var b, text := Now(), sel.name.text;
      KeepsSelf(b);
      if sel.types.None? {
        NameIsNew(sel.name.text);
        RegisterUntyped(sel);
        ResizeDtables(count);
        return;
      }
      RegisterWithTypes(sel);
      ResizeDtables(count);
    }

    /** The name is registered without types first, unless it has been. */
    method RegisterWithTypes(sel: Selector)
      requires Valid() && sel !in known && sel.name.Ptr? && sel.types.Some?
      modifies this`count, this`list, this`table, this`known, sel`name
      modifies this`entries, this`rebalanced, cells, cells.cells
      ensures TableOk() && CellsKept()
      ensures Now().Sound(count) && Now().Listed() && Keeps(old(Now()), Now()) && sel in table && sel in known
      ensures old(count) <= count <= old(count) + 2 && Now().NameOf(sel) == old(sel.name).text
      ensures forall s :: s in table ==> s in old(table) || s == sel || s.types.None?
    {
      hide Book.Sound, Book.Listed, Book.NameOf, Keeps;
      var found := SelectorLookup(sel.name.text, None);
      if found.None? {
        NameIsNew(sel.name.text);
        RegisterBoth(sel);
      } else {
        assert TypesEqual(None, found.value.types);
        KnownName(found.value);
        RegisterTyped(sel, found.value);
      }
    }

    /** A selector with types and a new name: the name is registered without types first. */
    method RegisterBoth(sel: Selector)
      requires TableOk() && Now().Sound(count) && Now().Listed() && sel !in known && sel.name.Ptr? && sel.types.Some?
      requires forall s {:trigger Now().NameOf(s)} :: s in known ==> Now().NameOf(s) != sel.name.text
      modifies this`count, this`list, this`table, this`known, sel`name
      modifies this`entries, this`rebalanced, cells, cells.cells
      ensures TableOk() && CellsKept()
      ensures Now().Sound(count) && Now().Listed() && Keeps(old(Now()), Now()) && sel in table && sel in known
      ensures count == old(count) + 2 && Now().NameOf(sel) == old(sel.name).text
      ensures forall s :: s in table ==> s in old(table) || s == sel || s.types.None?
    {
      hide Book.Sound, Book.Listed, Book.NameOf, Keeps;
      ghost var b := Now();
      var untyped := new Selector(Ptr(sel.name.text), None);
      assert Names() == b.names;
      RegisterUntyped(untyped);
      ghost var b1 := Now();
      RegisterTyped(sel, untyped);
      KeepsTransitive(b, b1, Now());
    }

    /** The selector gets the next index. */
    method RegisterUntyped(sel: Selector)
      requires TableOk() && Now().Sound(count) && Now().Listed() && sel !in known && sel.name.Ptr? && sel.types.None?
      requires forall s {:trigger Now().NameOf(s)} :: s in known ==> Now().NameOf(s) != sel.name.text
      modifies this`count, this`list, this`table, this`known, sel`name
      modifies this`entries, this`rebalanced, cells, cells.cells
      ensures TableOk() && CellsKept()
      ensures Now().Sound(count) && Now().Listed() && Keeps(old(Now()), Now()) && sel in table
      ensures known == old(known) + {sel} && table == old(table) + {sel}
      ensures count == old(count) + 1 && Now().NameOf(sel) == old(sel.name).text
    {
      hide Book.Sound, Book.Listed, Book.NameOf, Keeps, Added;
      ghost var b, text := Now(), sel.name.text;
      SoundFits(b, count);
      var idx := count;
      count := count + 1;
      assert Names() == b.names;
      AddSelectorToTable(sel, idx, idx);
      AddedSound(b, sel, idx, idx, text);
      UntypedListed(b, sel, idx, text);
      AddedNames(b, sel, idx, idx, text);
      AddedKeeps(b, sel, idx, idx, text);
    }

    /** The selector gets the index of the untyped one; its own entry holds the name once more. */
    method RegisterTyped(sel: Selector, untyped: Selector)
      requires TableOk() && Now().Sound(count) && Now().Listed() && sel !in known && sel.name.Ptr? && sel.types.Some?
      requires untyped in table && untyped in known && untyped.types.None? && Now().NameOf(untyped) == sel.name.text
      modifies this`count, this`list, this`table, this`known, sel`name
      modifies this`entries, this`rebalanced, cells, cells.cells
      ensures TableOk() && CellsKept()
      ensures Now().Sound(count) && Now().Listed() && Keeps(old(Now()), Now()) && sel in table
      ensures known == old(known) + {sel} && table == old(table) + {sel}
      ensures count == old(count) + 1 && Now().NameOf(sel) == old(sel.name).text
    {
      hide Book.Sound, Book.Listed, Book.NameOf, Keeps, Added, Behind;
      ghost var b, text := Now(), sel.name.text;
      var idx := count;
      UntypedUid(b, untyped, sel, idx, text);
      count := count + 1;
      assert Names() == b.names;
      var uid := untyped.name.index;
      AddSelectorToTable(sel, uid, idx);
      AddedSound(b, sel, uid, idx, text);
      TypedListed(b, sel, uid, idx, text);
      AddedNames(b, sel, uid, idx, text);
      AddedKeeps(b, sel, uid, idx, text);
      ghost var b1 := Now();
      AddType(uid, sel.types.value);
      BehindSound(b1, uid, sel.types.value, idx + 1);
      BehindKeeps(b1, uid, sel.types.value, idx + 1);
      AliasTable(b1, idx + 1);
      StillOk(b1);
      KeepsTransitive(b, b1, Now());
    }

    /** Lists a type encoding behind the name that it goes with. */
    method AddType(uid: nat, types: string)
      requires uid < |list| && list[uid].Some?
      modifies this`list
      ensures Now() == old(Now()).(list := Behind(old(list), uid, types))
    {
      list := list[uid := Some(TypeList(list[uid].value.value, [types] + list[uid].value.types))];
      assert Names() == old(Names());
    }

    lemma KnownName(s: Selector)
      requires Valid() && s in table
      ensures s in known && Now().NameOf(s) == NameOf(s)
    {
    }

    /** A selector with the name and equal types is in the table. */
    ghost predicate HasEqual(name: string, types: Option<string>)
      reads this, known
    {
      exists s :: s in table && s in known && NameOf(s) == name && TypesEqual(types, s.types)
    }

    lemma HitIsEqual(name: string, types: Option<string>, found: Option<Selector>)
      requires Valid()
      requires found.Some? ==> found.value in table && Identical(found.value, name, types)
      requires found.None? ==> forall s :: s in table && NameOf(s) == name ==> !TypesEqual(types, s.types)
      ensures HasEqual(name, types) <==> found.Some?
    {
      hide Book.Sound, Book.Listed, EqualFrom;
      EntriesKnown();
    }

    /**
     `objc_register_selector`: a selector that has no index yet takes over that of an equal one
     in the table, which stays as it is; if there is none, it goes into the table itself.
     */
    method RegisterSelector(sel: Selector) returns (registered: Selector)
      requires Valid() && count + 2 < Pow2(24) && (sel in known || sel.name.Ptr?)
      modifies this`count, this`list, this`table, this`known, this`dtableDepth, sel`name
      modifies this`entries, this`rebalanced, cells, cells.cells
      ensures Valid() && CellsKept() && Keeps(old(Now()), Now()) && sel in known && registered in known
      ensures Now().NameOf(sel) == old(NameOf(sel)) == Now().NameOf(registered)
      ensures registered != sel ==> registered in old(table) && TypesEqual(sel.types, registered.types)
      ensures old(sel.name.Index?) ==> registered == sel && Now() == old(Now()) && count == old(count)
      ensures old(sel.name.Ptr? && HasEqual(sel.name.text, sel.types)) ==>
        && registered in old(table) && registered != sel && sel.name == registered.name
        && table == old(table) && list == old(list) && count == old(count)
      ensures old(sel.name.Ptr? && !HasEqual(sel.name.text, sel.types)) ==>
        registered == sel && sel in table && sel !in old(table)
    {
      hide Valid, Keeps, Book.NameOf, ListsAll, EqualFrom, TypesEqual, HasEqual, Hit;
      ghost var b := Now();
      KeepsSelf(b);
      if sel.name.Index? {
        NowName(sel);
        return sel;
      }
      UnknownPtr(sel);
      EntriesKnown();
      var found := SelectorLookup(sel.name.text, sel.types);
      HitIsEqual(sel.name.text, sel.types, found);
      if found.Some? {
        registered := found.value;
        ShareIndex(sel, registered);
        return;
      }
      RegisterSelectorLocked(sel);
      return sel;
    }

    /** A selector that has been found to be equal to a registered one. */
    method ShareIndex(sel: Selector, registered: Selector)
      requires Valid() && sel !in known && registered in table
      modifies this`known, sel`name
      ensures Valid() && CellsKept() && Keeps(old(Now()), Now()) && sel in known && registered in known
      ensures Now().NameOf(sel) == Now().NameOf(registered) == old(NameOf(registered))
      ensures sel.name == registered.name && sel != registered
    {
      hide Book.Sound, Book.Listed, Keeps, Book.NameOf;
      ghost var b := Now();
      AliasTable(b, count);
      KnownName(registered);
      TakeIndex(sel, registered);
      AliasSound(b, sel, registered, count);
      StillOk(b);
    }

    /** A selector that is equal to a registered one becomes registered too, outside the table. */
    method TakeIndex(sel: Selector, registered: Selector)
      requires sel !in known && registered in known
      modifies this`known, sel`name
      ensures sel.name == registered.name
      ensures Now() == old(Now()).(names := old(Names())[sel := old(Names())[registered]])
      ensures known == old(known) + {sel}
    {
      ghost var names := Names();
      sel.name := registered.name;
      known := known + {sel};
      assert Names() == names[sel := names[registered]];
    }

    lemma NowName(s: Selector)
      requires s in known
      ensures Now().NameOf(s) == NameOf(s)
    {
    }

    lemma UnknownPtr(s: Selector)
      requires Valid() && s.name.Ptr?
      ensures s !in known
    {
      assert s in known ==> Now().IndexOk(s, count);
    }

    /**
     `objc_register_selector_copy`: an equal selector that is in the table is what is returned,
     and nothing changes; if there is none, a copy goes into the table and is the only one there.
     */
    method RegisterSelectorCopy(name: string, types: Option<string>) returns (registered: Selector)
      requires Valid() && count + 2 < Pow2(24)
      modifies this`count, this`list, this`table, this`known, this`dtableDepth
      modifies this`entries, this`rebalanced, cells, cells.cells
      ensures Valid() && CellsKept() && Keeps(old(Now()), Now())
      ensures registered in table && Now().NameOf(registered) == name && count <= old(count) + 2
      ensures TypesEqual(types, registered.types)
      ensures old(HasEqual(name, types)) ==>
        && registered in old(table) && old(Hit(name, types)) == Some(registered)
        && Now() == old(Now()) && unchanged(this) && unchanged(cells) && unchanged(cells.cells)
      ensures !old(HasEqual(name, types)) ==>
        && registered !in old(known) && registered.types == types
        && forall s :: s in table && NameOf(s) == name && TypesEqual(types, s.types) ==> s == registered
    {
      hide Valid, Book.Sound, Book.Listed, Keeps, EqualFrom, TypesEqual, HasEqual, Hit, TableOk;
      ghost var b := Now();
      KeepsSelf(b);
      var found := SelectorLookup(name, types);
      HitIsEqual(name, types, found);
      if found.Some? {
        KnownName(found.value);
        return found.value;
      }
      registered := EnterCopy(name, types);
    }

    /** A new selector, for which there is no equal one. */
    method EnterCopy(name: string, types: Option<string>) returns (registered: Selector)
      requires Valid() && count + 2 < Pow2(24)
      requires forall s :: s in table && NameOf(s) == name ==> !TypesEqual(types, s.types)
      modifies this`count, this`list, this`table, this`known, this`dtableDepth
      modifies this`entries, this`rebalanced, cells, cells.cells
      ensures Valid() && CellsKept() && Keeps(old(Now()), Now())
      ensures registered in table && Now().NameOf(registered) == name && count <= old(count) + 2
      ensures registered !in old(known) && registered.types == types && TypesEqual(types, types)
      ensures forall s :: s in table && NameOf(s) == name && TypesEqual(types, s.types) ==> s == registered
    {
      hide Book.Sound, Book.Listed, Keeps, EqualFrom, TypesEqual, TableOk;
      ghost var b := Now();
      EntriesKnown();
      AliasTable(b, count);
      registered := new Selector(Ptr(name), types);
      assert Names() == b.names;
      RegisterSelectorLocked(registered);
      OnlyOne(b, registered, name, types);
      TypesEqualSelf(types);
    }

    lemma OnlyOne(b: Book, registered: Selector, name: string, types: Option<string>)
      requires Valid() && Keeps(b, Now()) && b.table <= b.names.Keys
      requires forall s :: s in b.table && b.NameOf(s) == name ==> !TypesEqual(types, s.types)
      requires forall s :: s in table ==> s in b.table || s == registered || (s.types.None? && types.Some?)
      ensures forall s :: s in table && NameOf(s) == name && TypesEqual(types, s.types) ==> s == registered
    {
      hide Book.Sound, Book.Listed, EqualFrom, TableOk;
      forall s | s in table && NameOf(s) == name && TypesEqual(types, s.types)
        ensures s == registered
      {
        KnownName(s);
        assert s in b.table ==> Now().NameOf(s) == b.NameOf(s);
      }
    }

    /** Registering the same name and types twice gives the same selector twice. */
    method RegisterTwice(name: string, types: Option<string>) returns (first: Selector, second: Selector)
      requires Valid() && count + 4 < Pow2(24)
      modifies this`count, this`list, this`table, this`known, this`dtableDepth
      modifies this`entries, this`rebalanced, cells, cells.cells
      ensures Valid() && second == first && first in table && Now().NameOf(first) == name
    {
      hide Valid, Book.NameOf, Hit, TypesEqual, Keeps;
      first := RegisterSelectorCopy(name, types);
      TypesEqualSelf(types);
      KnownName(first);
      second := RegisterSelectorCopy(name, types);
      KnownName(second);
    }
  }

  /** Selectors that have an index keep it, and their names. */
  ghost predicate Keeps(b: Book, b': Book) {
    && b.table <= b'.table
    && forall s {:trigger b'.NameOf(s)} :: s in b.names ==>
         s in b'.names && b'.names[s] == b.names[s] && b'.NameOf(s) == b.NameOf(s)
  }

  lemma KeepsSelf(b: Book)
    ensures Keeps(b, b)
  {
  }

  lemma KeepsTransitive(b: Book, b1: Book, b2: Book)
    requires Keeps(b, b1) && Keeps(b1, b2)
    ensures Keeps(b, b2)
    ensures forall s {:trigger b2.NameOf(s)} :: s in b1.names ==> b2.NameOf(s) == b1.NameOf(s)
  {
    forall s | s in b.names
      ensures s in b2.names && b2.names[s] == b.names[s] && b2.NameOf(s) == b.NameOf(s)
    {
      assert b1.NameOf(s) == b.NameOf(s);
      assert b2.NameOf(s) == b1.NameOf(s);
    }
  }

  lemma AddedKeeps(b: Book, sel: Selector, uid: nat, idx: nat, text: string)
    requires b.Sound(idx) && sel !in b.names && GoodUid(b, sel, uid, idx, text)
    ensures idx <= |b.list| && Keeps(b, Added(b, sel, uid, idx, text))
  {
    AddedNames(b, sel, uid, idx, text);
  }

  lemma BehindKeeps(b: Book, i: nat, t: string, n: nat)
    requires b.Sound(n) && i < |b.list| && b.list[i].Some?
    ensures Keeps(b, b.(list := Behind(b.list, i, t)))
  {
    BehindSound(b, i, t, n);
  }

  /** The index of the untyped selector is a good one for a selector with the same name. */
  lemma UntypedUid(b: Book, u: Selector, sel: Selector, idx: nat, text: string)
    requires b.Sound(idx) && u in b.table && u in b.names && u.types.None? && b.NameOf(u) == text && sel.types.Some?
    ensures b.names[u].Index? && b.names[u].index < idx && GoodUid(b, sel, b.names[u].index, idx, text)
    ensures 1 <= idx <= |b.list|
  {
    assert b.IndexOk(u, idx);
  }

  /** A selector that is equal to one in the table takes over its index. */
  lemma AliasSound(b: Book, sel: Selector, s: Selector, n: nat)
    requires b.Sound(n) && b.Listed() && sel !in b.names && s in b.table && s in b.names
    ensures var b' := b.(names := b.names[sel := b.names[s]]);
      b'.Sound(n) && b'.Listed() && Keeps(b, b') && b'.NameOf(sel) == b.NameOf(s) == b'.NameOf(s)
  {
    hide Book.NameOf, Keeps, Book.Listed, Book.Sound, Book.IndexOk, Book.HasUntyped;
    var b' := b.(names := b.names[sel := b.names[s]]);
    AliasNames(b, sel, s);
    AliasTable(b, n);
    forall x | x in b'.names
      ensures b'.IndexOk(x, n) && b'.HasUntyped(x)
    {
      AliasHasUntyped(b, sel, s, n, x);
    }
    forall x, y | x in b'.names && y in b'.names && b'.NameOf(x) == b'.NameOf(y)
      ensures b'.names[x] == b'.names[y]
    {
      AliasUnique(b, sel, s, n, x, y);
    }
    AliasMade(b, sel, s, n);
    AliasListed(b, sel, s);
  }

  lemma AliasTable(b: Book, n: nat)
    requires b.Sound(n)
    ensures b.table <= b.names.Keys
  {
  }

  lemma AliasHasUntyped(b: Book, sel: Selector, s: Selector, n: nat, x: Selector)
    requires b.Sound(n) && sel !in b.names && s in b.names && (x in b.names || x == sel)
    ensures var b' := b.(names := b.names[sel := b.names[s]]); b'.IndexOk(x, n) && b'.HasUntyped(x)
  {
    var b' := b.(names := b.names[sel := b.names[s]]);
    var y: Selector := if x == sel then s else x;
    assert b.IndexOk(y, n) && b.HasUntyped(y);
    var u :| u in b.table && u in b.names && u.types.None? && b.names[u] == b.names[y];
    assert u in b'.table && b'.names[u] == b'.names[x];
  }

  lemma AliasUnique(b: Book, sel: Selector, s: Selector, n: nat, x: Selector, y: Selector)
    requires b.Sound(n) && sel !in b.names && s in b.names && (x in b.names || x == sel) && (y in b.names || y == sel)
    requires var b' := b.(names := b.names[sel := b.names[s]]); b'.NameOf(x) == b'.NameOf(y)
    ensures var b' := b.(names := b.names[sel := b.names[s]]); b'.names[x] == b'.names[y]
  {
    hide Book.NameOf;
    AliasNames(b, sel, s);
    var v: Selector, w: Selector := if x == sel then s else x, if y == sel then s else y;
    assert b.NameOf(v) == b.NameOf(w);
  }

  lemma AliasMade(b: Book, sel: Selector, s: Selector, n: nat)
    requires b.Sound(n)
    requires sel !in b.names && s in b.names
    requires var b' := b.(names := b.names[sel := b.names[s]]);
      && (forall x :: x in b'.names ==> b'.IndexOk(x, n) && b'.HasUntyped(x))
      && (forall x, y :: x in b'.names && y in b'.names && b'.NameOf(x) == b'.NameOf(y) ==> b'.names[x] == b'.names[y])
    ensures b.(names := b.names[sel := b.names[s]]).Sound(n)
  {
    hide Book.NameOf, Book.IndexOk, Book.HasUntyped;
    SoundMade(b.(names := b.names[sel := b.names[s]]), n);
  }

  lemma AliasNames(b: Book, sel: Selector, s: Selector)
    requires sel !in b.names && s in b.names
    ensures var b' := b.(names := b.names[sel := b.names[s]]);
      && b'.NameOf(sel) == b.NameOf(s) && Keeps(b, b')
      && forall x {:trigger b'.NameOf(x)} :: x in b.names ==> b'.NameOf(x) == b.NameOf(x)
  {
  }

  lemma AliasListed(b: Book, sel: Selector, s: Selector)
    requires b.Listed() && sel !in b.names && b.table <= b.names.Keys && s in b.names
    ensures b.(names := b.names[sel := b.names[s]]).Listed()
  {
    var b' := b.(names := b.names[sel := b.names[s]]);
    forall i: nat
      ensures b'.ListedOk(i)
    {
      assert b.ListedOk(i);
      if i < |b.list| && b.list[i].Some? {
        forall t | t in b.list[i].value.types
          ensures b'.Typed(i, t)
        {
          assert b.Typed(i, t);
        }
      }
    }
    forall x | x in b'.table
      ensures b'.TypeListed(x)
    {
      assert b.TypeListed(x);
    }
  }

  /** `1 << e` */
  function PowerOf(e: nat): (r: nat)
    ensures r == Pow2(e)
  {
    if e == 0 then 1 else 2 * PowerOf(e - 1)
  }
}
