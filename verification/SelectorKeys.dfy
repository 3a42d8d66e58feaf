/**
 Selectors as keys of a hash table.  The hash of a selector is that of its name, and the
 name is a pointer when the selector is entered but an index afterwards.
 */
module SelectorKeys {
  import opened Wrappers
  import opened Hopscotch
  import opened SelectorTable

  /** The hash of the selector that a key stands for, as long as the registry is as `b` says. */
  ghost function HashIn(b: Book, who: nat -> Selector, hashName: string -> nat): nat -> nat {
    k => hashName(b.NameOf(who(k)))
  }

  /** The same while `sel` still has a pointer to its name. */
  ghost function HashEntering(b: Book, sel: Selector, text: string, who: nat -> Selector,
                                hashName: string -> nat): nat -> nat {
    k => if who(k) == sel then hashName(text) else hashName(b.NameOf(who(k)))
  }

  /** Replacing the name of a selector by an index, while it is a key, leaves the table as good as it was. */
  lemma NameSwapHarmless(b: Book, sel: Selector, uid: nat, idx: nat, text: string, who: nat -> Selector,
                         hashName: string -> nat, cells: seq<Cell>)
    requires b.Sound(idx) && sel !in b.names && GoodUid(b, sel, uid, idx, text)
    requires Inv(HashEntering(b, sel, text, who, hashName), cells)
    requires forall v :: v in Values(cells) ==> who(v.key) == sel || who(v.key) in b.names
    ensures Inv(HashIn(Added(b, sel, uid, idx, text), who, hashName), cells)
  {
    hide Inv, Added, Book.NameOf, Book.Sound, GoodUid;
    SoundFits(b, idx);
    AddedNames(b, sel, uid, idx, text);
    SameHashes(HashEntering(b, sel, text, who, hashName), HashIn(Added(b, sel, uid, idx, text), who, hashName), cells);
  }

  /** A stored selector is found by its name: in the base cell of the name, or in a neighbour marked there. */
  lemma FoundByName(b: Book, who: nat -> Selector, hashName: string -> nat, cells: seq<Cell>, v: Value)
    requires Inv(HashIn(b, who, hashName), cells) && v in Values(cells)
    ensures |cells| > NEIGHBOURS
    ensures var base := CellIndex(hashName(b.NameOf(who(v.key))), 0, |cells|);
      || cells[base].value == Some(v)
      || exists d :: d in cells[base].hops && 0 < d <= NEIGHBOURS && cells[Ahead(base, d, |cells|)].value == Some(v)
  {
    hide Book.NameOf;
    ValuesMember(cells, v);
    var p :| 0 <= p < |cells| && cells[p].value == Some(v);
    assert ValueOk(HashIn(b, who, hashName), cells, p);
  }
}
