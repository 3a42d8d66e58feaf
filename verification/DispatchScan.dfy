/**
 What walking over a dispatch table comes to: the enumeration of the sparse array that holds
 the table, and what that means for the operations that walk over tables.
 */
module DispatchScan {
  import opened Wrappers
  import opened DispatchModel
  import opened DispatchAgreement
  import opened SparseMemory
  import opened SparseEnumeration

  /** The array at `n` holds the table: under each selector the address of its method, or nothing. */
  ghost predicate HoldsTable(d: Memory, n: SparseArray, t: Table, address: Method -> nat)
    requires Shaped(d) && n in d && n.shift in {0, 8, 16, 24}
  {
    && (forall m :: address(m) != 0) && (forall s :: s in t ==> s < Capacity(n.shift))
    && forall s: nat :: s < Capacity(n.shift) ==> Get(d, n, s) == if s in t then address(t[s]) else 0
  }

  /**
   The keys that the enumeration of a table of the current size comes to are exactly the
   selectors in the table that the dispatch part takes it to come to.
   */
  method EnumerateTable(z: EmptyNodes, ghost d: Memory, sarray: SparseArray, ghost w: World, ghost t: Table,
                        ghost address: Method -> nat) returns (entries: seq<(nat, nat)>)
    requires Readable(z, d, sarray) && sarray.shift in {0, 8} && w.depth == sarray.shift + 8
    requires HoldsTable(d, sarray, t, address) && (sarray.shift == 0 ==> 0xff !in t)
    ensures forall s: nat :: (exists i :: 0 <= i < |entries| && entries[i].0 == s) <==> s in t && w.Scanned(s)
    ensures forall i :: 0 <= i < |entries| ==> entries[i].0 in t && entries[i].1 == address(t[entries[i].0])
    ensures forall i, j :: 0 <= i < j < |entries| ==> entries[i].0 < entries[j].0
  {
    hide Get, Shaped, EmptyNodes.Shaped;
    entries := Enumerate(z, d, sarray);
    forall s: nat
      ensures (exists i :: 0 <= i < |entries| && entries[i].0 == s) <==> s in t && w.Scanned(s)
    {
      if s in t && w.Scanned(s) {
        var i :| 0 <= i < |entries| && entries[i] == (s, Get(d, sarray, s));
      }
    }
  }

  /**
   The last method that is added for a selector to a class with a table is what the table
   holds afterwards, and if it is the only one all tables hold what the slow lookup finds: at
   every selector from 1 to 0xFE in tables of 8 bits, and from 1 to 0xFEFF in tables of 16.
   */
  lemma AddedIsFound(w: World, w': World, c: Class, list: seq<Method>, s: nat)
    requires Settled(w, {}) && AddStep(w, w', c, list) && c in w.tables
    requires (w.depth == 8 && 0 < s < 0xFF) || (w.depth == 16 && 0 < s < 0xFF00)
    requires Last(list, s).Some? && w.Own(c, s).None?
    requires w.Inherited(c, s).Some? ==> w.Inherited(c, s).value.imp != Last(list, s).value.imp
    ensures w'.Entry(c, s) == Last(list, s)
    ensures Last(list, s) == Find(list, s, None) ==> forall d :: d in w.tables ==> w'.Entry(d, s) == w'.Resolve(d, s)
  {
    AddedAgreesAt(w, w', c, list, s);
    SettledAgrees(w);
    assert w.AgreesAt(s) && FollowsParent(w, c) && w.Entry(c, s) == w.Resolve(c, s);
  }

  /** A single method, as `class_addMethod` adds it. */
  lemma AddedMethodIsFound(w: World, w': World, c: Class, m: Method)
    requires Settled(w, {}) && AddStep(w, w', c, [m]) && c in w.tables && w.Own(c, m.selector).None?
    requires (w.depth == 8 && 0 < m.selector < 0xFF) || (w.depth == 16 && 0 < m.selector < 0xFF00)
    requires w.Inherited(c, m.selector).Some? ==> w.Inherited(c, m.selector).value.imp != m.imp
    ensures w'.Entry(c, m.selector) == Some(m)
  {
    assert Last([m], m.selector) == Some(m) == Find([m], m.selector, None);
    AddedIsFound(w, w', c, [m], m.selector);
  }

  /** Where the selector is one of these, a rebuilt table holds what the new superclass's table holds. */
  lemma RebuiltIsFound(w: World, w': World, c: Class, d: Class, s: nat)
    requires RebaseStep(w, w', c) && d in w.tables && w.Under({c}, d) && w.Own(d, s).None?
    requires (w.depth == 8 && 0 < s < 0xFF) || (w.depth == 16 && 0 < s < 0xFF00)
    ensures w'.Entry(d, s) == if w'.sup[d].Some? then w'.Entry(w'.sup[d].value, s) else None
  {
  }
}
