/**
 Pure reasoning for rebuilding the tables of a class and of everything below it, and for
 moving a class and its metaclass in the hierarchy.
 */
module DispatchRebase {
  import opened Wrappers
  import opened DispatchModel
  import opened DispatchAgreement

  /** Below `c` every class with a table has a superclass with a table. */
  ghost predicate ClosedBelow(w: World, c: Class)
    requires w.Sound()
  {
    forall d {:trigger Above(w, d)} :: d in w.tables && w.Under({c}, d) && d != c ==> Above(w, d)
  }

  lemma {:induction false} TowardUnder(w: World, c: Class, d: Class)
    requires w.Sound() && c in w.classes
    ensures Toward(w, c, d).Some? ==> w.IsSup(Toward(w, c, d).value, c) && w.Under({Toward(w, c, d).value}, d)
    ensures w.Under({c}, d) && d != c ==> Toward(w, c, d).Some?
    decreases if d in w.rank then w.rank[d] else 0
  {
    if d in w.classes && w.sup[d].Some? {
      assert w.IsSup(d, w.sup[d].value);
      TowardUnder(w, c, w.sup[d].value);
    }
  }

  lemma {:induction false} TableAbove(w: World, k: Class, d: Class)
    requires w.Sound() && d in w.tables && w.Under({k}, d) && ClosedBelow(w, k)
    ensures k in w.tables
    decreases w.rank[d]
  {
    if d != k {
      assert w.IsSup(d, w.sup[d].value) && Above(w, d);
      TableAbove(w, k, w.sup[d].value);
    }
  }

  ghost function RebasedEntry(w: World, w': World, d: Class, s: nat): Option<Method>
    requires w.Sound() && w'.Sound() && d in w.classes && d in w'.classes
  {
    if w.Own(d, s).Some? || !w.Scanned(s) then w.Entry(d, s) else ParentEntry(w', d, s)
  }

  /** The table of `c` and those below its first `i` children have been rebuilt. */
  ghost predicate RebasedPart(w: World, w': World, c: Class, i: nat)
    requires w.Sound() && c in w.classes && i <= |w.subs[c]|
  {
    && w'.Sound() && SameShape(w, w')
    && (forall d, s {:trigger w'.Entry(d, s)} :: d in w.tables ==>
          w'.Entry(d, s) == if d == c || Seen(w, c, i, d) then RebasedEntry(w, w', d, s) else w.Entry(d, s))
  }

  lemma RebasedStart(w: World, w': World, c: Class)
    requires w.Sound() && w'.Sound() && SameShape(w, w') && c in w.tables
    requires forall d :: d in w.tables && d != c ==> w'.tables[d] == w.tables[d]
    requires forall s {:trigger w'.Entry(c, s)} :: w'.Entry(c, s) == RebasedEntry(w, w, c, s)
    ensures RebasedPart(w, w', c, 0)
  {
    if w.sup[c].Some? {
      assert w.IsSup(c, w.sup[c].value);
    }
    assert forall d :: !Seen(w, c, 0, d);
    forall d, s | d in w.tables
      ensures w'.Entry(d, s) == if d == c then RebasedEntry(w, w', d, s) else w.Entry(d, s)
    {
    }
  }

  lemma RebasedNext(w: World, w1: World, w2: World, c: Class, i: nat)
    requires w.Sound() && c in w.tables && i < |w.subs[c]| && ClosedBelow(w, c) && RebasedPart(w, w1, c, i)
    requires var k := w.subs[c][i]; if k in w.tables then RebaseStep(w1, w2, k) else w2 == w1
    ensures RebasedPart(w, w2, c, i + 1)
  {
    var k := w.subs[c][i];
    forall d, s | d in w.tables
      ensures w2.Entry(d, s) == if d == c || Seen(w, c, i + 1, d) then RebasedEntry(w, w2, d, s) else w.Entry(d, s)
    {
      RebasedNextAt(w, w1, w2, c, i, d, s);
    }
  }

  lemma RebasedNextAt(w: World, w1: World, w2: World, c: Class, i: nat, d: Class, s: nat)
    requires w.Sound() && c in w.tables && i < |w.subs[c]| && ClosedBelow(w, c) && RebasedPart(w, w1, c, i)
    requires var k := w.subs[c][i]; if k in w.tables then RebaseStep(w1, w2, k) else w2 == w1
    requires d in w.tables
    ensures w2.Entry(d, s) == if d == c || Seen(w, c, i + 1, d) then RebasedEntry(w, w2, d, s) else w.Entry(d, s)
  {
    var k := w.subs[c][i];
    SeenStep(w, c, i, d);
    UnderFrame(w, w1, {k}, d);
    ResolveFrame(w, w1, d, s);
    TowardUnder(w, c, d);
    if w.Under({k}, d) {
      UnderChild(w, c, k, d);
      ChildClosed(w, c, k);
      TableAbove(w, k, d);
    } else {
      assert w2.Entry(d, s) == w1.Entry(d, s);
      assert Toward(w, c, d) != Some(k);
      if w.sup[d].Some? {
        var p := w.sup[d].value;
        assert w.IsSup(d, p);
        UnderFrame(w, w1, {k}, p);
        if p in w.tables {
          assert w2.Entry(p, s) == w1.Entry(p, s);
        }
      }
    }
  }

  lemma ChildClosed(w: World, c: Class, k: Class)
    requires w.Sound() && w.IsSup(k, c) && ClosedBelow(w, c)
    ensures ClosedBelow(w, k)
  {
    forall d | d in w.tables && w.Under({k}, d) && d != k
      ensures Above(w, d)
    {
      UnderChild(w, c, k, d);
    }
  }

  lemma ClosedFrame(w: World, w': World, c: Class)
    requires w.Sound() && w'.Sound() && SameShape(w, w') && ClosedBelow(w, c)
    ensures ClosedBelow(w', c)
  {
    forall d | d in w'.tables && w'.Under({c}, d) && d != c
      ensures Above(w', d)
    {
      UnderFrame(w, w', {c}, d);
      assert Above(w, d);
      forall p | w'.IsSup(d, p)
        ensures p in w'.tables
      {
        assert w.IsSup(d, p);
      }
    }
  }

  lemma RebasedEnd(w: World, w': World, c: Class)
    requires w.Sound() && c in w.tables && RebasedPart(w, w', c, |w.subs[c]|)
    ensures RebaseStep(w, w', c)
  {
    assert w.subs[c][..|w.subs[c]|] == w.subs[c];
    forall d, s | d in w.tables
      ensures w'.Entry(d, s) ==
        if !w.Under({c}, d) || w.Own(d, s).Some? || !w.Scanned(s) then w.Entry(d, s) else ParentEntry(w', d, s)
    {
      TowardUnder(w, c, d);
      if Toward(w, c, d).Some? {
        UnderChild(w, c, Toward(w, c, d).value, d);
        assert w.IsSup(Toward(w, c, d).value, c);
      }
    }
  }

  // ----- metaclasses -----

  function Isa(c: Class): Class {
    Class(c.name, true)
  }

  /** The metaclasses mirror the classes, below the root class. */
  ghost predicate Mirrored(w: World) {
    && w.Sound()
    && (forall c {:trigger Isa(c)} :: c in w.classes && !c.meta ==>
          && Isa(c) in w.classes && (w.sup[c].Some? ==> !w.sup[c].value.meta)
          && w.sup[Isa(c)] == Some(if w.sup[c].None? then c else Isa(w.sup[c].value)))
  }

  /** Class and metaclass get their tables together. */
  ghost predicate TablesPaired(w: World) {
    forall c {:trigger Isa(c)} :: c in w.classes && !c.meta ==> (c in w.tables <==> Isa(c) in w.tables)
  }

  /** No class still without a table has a method that shares its implementation with the one it overrides. */
  ghost predicate Creatable(w: World, x: set<Class>)
    requires w.Sound()
  {
    forall d {:trigger OkToCreate(w, d)} :: d in w.classes && d !in w.tables && !w.Under(x, d) ==> OkToCreate(w, d)
  }

  /** What holds between operations, except below the classes of `x`. */
  ghost predicate Fit(w: World, x: set<Class>) {
    Settled(w, x) && Mirrored(w) && TablesPaired(w) && Creatable(w, x)
  }

  lemma FitFacts(w: World, x: set<Class>)
    requires Fit(w, x)
    ensures w.Sound() && Settled(w, x) && Mirrored(w) && TablesPaired(w) && Creatable(w, x)
  {
  }

  ghost function ClassesOf(x: set<Class>): set<Class> {
    set e | e in x && !e.meta
  }

  lemma {:induction false} ClassesAreNotBelowMetaclasses(w: World, x: set<Class>, d: Class)
    requires Mirrored(w) && d in w.classes && !d.meta && w.Under(x, d)
    ensures w.Under(ClassesOf(x), d)
    decreases w.rank[d]
  {
    assert Isa(d) in w.classes;
    if d !in x {
      assert w.IsSup(d, w.sup[d].value);
      ClassesAreNotBelowMetaclasses(w, x, w.sup[d].value);
    }
  }

  /** If the metaclass of `d` is below `c` or its metaclass, `d` is below `c`. */
  lemma {:induction false} MetaclassesBelow(w: World, c: Class, d: Class)
    requires Mirrored(w) && d in w.classes && !d.meta && !c.meta && c in w.classes && w.sup[c].Some?
    requires w.Under({c, Isa(c)}, Isa(d))
    ensures w.Under({c}, d)
    decreases w.rank[d]
  {
    assert w.IsSup(Isa(d), w.sup[Isa(d)].value);
    assert Isa(c) in w.classes;
    if d != c {
      if w.sup[d].Some? {
        assert w.IsSup(d, w.sup[d].value);
        MetaclassesBelow(w, c, w.sup[d].value);
      }
    }
  }

  function Minus(s: seq<Class>, c: Class): (r: seq<Class>) {
    if s == [] then [] else if s[0] == c then Minus(s[1..], c) else [s[0]] + Minus(s[1..], c)
  }

  lemma {:induction false} MinusMembers(s: seq<Class>, c: Class)
    ensures forall d :: d in Minus(s, c) <==> d in s && d != c
  {
    if s != [] {
      MinusMembers(s[1..], c);
    }
  }

  lemma {:induction false} MinusDistinct(s: seq<Class>, c: Class)
    requires forall i, j :: 0 <= i < j < |s| ==> s[i] != s[j]
    ensures forall i, j :: 0 <= i < j < |Minus(s, c)| ==> Minus(s, c)[i] != Minus(s, c)[j]
  {
    if s != [] {
      MinusDistinct(s[1..], c);
      MinusMembers(s[1..], c);
      assert forall x :: x in s[1..] ==> x != s[0];
      assert s[0] !in Minus(s[1..], c);
    }
  }

  /** One class, with everything below it, hangs from another superclass. */
  ghost function Moved(w: World, c: Class, p: Class): World
    requires w.Sound() && c in w.classes && p in w.classes && w.sup[c].Some?
  {
    var was := w.sup[c].value;
    assert w.IsSup(c, was);
    var cut := w.subs[was := Minus(w.subs[was], c)];
    w.(sup := w.sup[c := Some(p)], subs := cut[p := [c] + cut[p]],
       rank := map d | d in w.classes :: if w.Under({c}, d) then w.rank[d] + w.rank[p] + 1 else w.rank[d])
  }

  /** What is required for a move. */
  ghost predicate CanMove(w: World, c: Class, p: Class) {
    && w.Sound() && c in w.classes && p in w.classes && w.sup[c].Some? && w.sup[c].value != p && !w.Under({c}, p)
  }

  lemma MovedEdge(w: World, c: Class, p: Class, d: Class, e: Class)
    requires CanMove(w, c, p)
    ensures Moved(w, c, p).IsSup(d, e) <==> if d == c then e == p else w.IsSup(d, e)
  {
  }

  lemma MovedRank(w: World, c: Class, p: Class, d: Class, e: Class)
    requires CanMove(w, c, p) && Moved(w, c, p).IsSup(d, e)
    ensures var w' := Moved(w, c, p); e in w'.classes && d in w'.classes && w'.rank[e] < w'.rank[d]
  {
    MovedEdge(w, c, p, d, e);
    assert d != c ==> w.IsSup(d, e);
  }

  lemma MovedLists(w: World, c: Class, p: Class, e: Class)
    requires CanMove(w, c, p) && e in w.classes
    ensures var l := Moved(w, c, p).subs[e];
      && (forall d :: d in l <==> if d == c then e == p else w.IsSup(d, e))
      && (forall i, j :: 0 <= i < j < |l| ==> l[i] != l[j])
  {
    var was := w.sup[c].value;
    assert w.IsSup(c, was);
    assert w.IsSup(c, e) <==> e == was;
    assert w.IsSup(c, p) <==> c in w.subs[p];
    MinusMembers(w.subs[e], c);
    MinusDistinct(w.subs[e], c);
    assert forall d :: d in w.subs[e] <==> w.IsSup(d, e);
  }

  lemma MovedSound(w: World, c: Class, p: Class)
    requires CanMove(w, c, p)
    ensures Moved(w, c, p).Sound()
  {
    hide Flat, Minus;
    var w' := Moved(w, c, p);
    MovedBooks(w, c, p);
    hide Moved, World.Under;
    forall d, e | w'.IsSup(d, e)
      ensures e in w'.classes && w'.rank[e] < w'.rank[d]
    {
      MovedRank(w, c, p, d, e);
    }
    forall e, d | e in w'.classes
      ensures d in w'.subs[e] <==> w'.IsSup(d, e)
    {
      MovedEdge(w, c, p, d, e);
      MovedLists(w, c, p, e);
    }
    forall e, i, j | e in w'.classes && 0 <= i < j < |w'.subs[e]|
      ensures w'.subs[e][i] != w'.subs[e][j]
    {
      MovedLists(w, c, p, e);
    }
  }

  lemma MovedBooks(w: World, c: Class, p: Class)
    requires CanMove(w, c, p)
    ensures var w' := Moved(w, c, p);
      && w'.classes == w.classes && w'.methods == w.methods && w'.tables == w.tables && w'.version == w.version
      && w'.depth == w.depth
      && w'.sup == w.sup[c := Some(p)] && w'.sup.Keys == w'.classes && w'.subs.Keys == w'.classes
      && w'.rank.Keys == w'.classes
  {
    assert w.IsSup(c, w.sup[c].value);
  }

  /** Whatever is not below the class that moves is below the same classes as before. */
  lemma {:induction false} MovedUnder(w: World, c: Class, p: Class, x: set<Class>, d: Class)
    requires CanMove(w, c, p) && !w.Under({c}, d)
    ensures Moved(w, c, p).Sound() && Moved(w, c, p).Under(x, d) == w.Under(x, d)
    decreases if d in w.rank then w.rank[d] else 0
  {
    hide Moved;
    MovedSound(w, c, p);
    MovedBooks(w, c, p);
    if d in w.classes && w.sup[d].Some? {
      assert w.IsSup(d, w.sup[d].value) && Moved(w, c, p).IsSup(d, w.sup[d].value);
      MovedUnder(w, c, p, x, w.sup[d].value);
    }
  }

  /** The class is no root, and the new superclass is another class that is not below it. */
  ghost predicate CanMovePair(w: World, c: Class, p: Class) {
    Mirrored(w) && CanMove(w, c, p) && !c.meta && !p.meta
  }

  lemma CanMoveMeta(w: World, c: Class, p: Class)
    requires CanMovePair(w, c, p)
    ensures Isa(c) in w.classes && Isa(p) in w.classes && Moved(w, c, p).Sound()
    ensures CanMove(Moved(w, c, p), Isa(c), Isa(p))
    ensures !Moved(w, c, p).Under({c, Isa(c)}, p) && !Moved(w, c, p).Under({c, Isa(c)}, Isa(p))
    ensures !Moved(w, c, p).Under({Isa(c)}, p) && !Moved(w, c, p).Under({Isa(c)}, Isa(p))
  {
    hide Moved;
    var m, q := Isa(c), Isa(p);
    assert m in w.classes && q in w.classes;
    MovedSound(w, c, p);
    MovedBooks(w, c, p);
    NotBelowPair(w, c, p);
    UnderUnion(w, c, {m}, p);
    UnderUnion(w, c, {m}, q);
    assert {c} + {m} == {c, m};
    MovedUnder(w, c, p, {m}, q);
    MovedUnder(w, c, p, {m}, p);
    MovedUnder(w, c, p, {c, m}, p);
    MovedUnder(w, c, p, {c, m}, q);
  }

  /** A class and its metaclass hang from another class and its metaclass. */
  ghost function PairMoved(w: World, c: Class, p: Class): World
    requires CanMovePair(w, c, p)
  {
    CanMoveMeta(w, c, p);
    Moved(Moved(w, c, p), Isa(c), Isa(p))
  }

  lemma PairMovedSound(w: World, c: Class, p: Class)
    requires CanMovePair(w, c, p)
    ensures Mirrored(PairMoved(w, c, p)) && Relinked(w, PairMoved(w, c, p), c, p, Isa(c), Isa(p))
    ensures !PairMoved(w, c, p).Under({c, Isa(c)}, p) && !PairMoved(w, c, p).Under({c, Isa(c)}, Isa(p))
  {
    hide Moved, World.Sound, World.Under;
    var m, q := Isa(c), Isa(p);
    var w1 := Moved(w, c, p);
    CanMoveMeta(w, c, p);
    MovedBooks(w, c, p);
    MovedBooks(w1, m, q);
    MovedSound(w1, m, q);
    MovedUnder(w1, m, q, {c, m}, p);
    MovedUnder(w1, m, q, {c, m}, q);
    MovedMirrored(w, Moved(w1, m, q), c, p);
  }

  lemma MovedMirrored(w: World, w': World, c: Class, p: Class)
    requires Mirrored(w) && w'.Sound() && w'.classes == w.classes && !c.meta && !p.meta && c in w.classes
    requires p in w.classes
    requires w'.sup == w.sup[c := Some(p)][Isa(c) := Some(Isa(p))]
    ensures Mirrored(w')
  {
    hide World.Sound;
    forall d | d in w'.classes && !d.meta
      ensures Isa(d) in w'.classes && d in w'.sup && Isa(d) in w'.sup
      ensures w'.sup[d].Some? ==> !w'.sup[d].value.meta
      ensures w'.sup[Isa(d)] == Some(if w'.sup[d].None? then d else Isa(w'.sup[d].value))
    {
      MirrorAt(w, d);
      MirrorAt(w, c);
      assert d != c ==> Isa(d) != Isa(c);
    }
    SupKeys(w');
  }

  lemma MirrorAt(w: World, d: Class)
    requires Mirrored(w) && d in w.classes && !d.meta
    ensures Isa(d) in w.classes && d in w.sup && Isa(d) in w.sup && (w.sup[d].Some? ==> !w.sup[d].value.meta)
    ensures w.sup[Isa(d)] == Some(if w.sup[d].None? then d else Isa(w.sup[d].value))
  {
  }

  lemma SupKeys(w: World)
    requires w.Sound()
    ensures w.sup.Keys == w.classes
  {
  }

  lemma NotBelowPair(w: World, c: Class, p: Class)
    requires CanMovePair(w, c, p)
    ensures !w.Under({c, Isa(c)}, p) && !w.Under({c, Isa(c)}, Isa(p))
    ensures w.sup[Isa(c)].Some? && w.sup[Isa(c)].value != Isa(p)
  {
    var x := {c, Isa(c)};
    MirrorAt(w, c);
    var was := w.sup[c].value;
    assert was == Class(was.name, false) && p == Class(p.name, false);
    assert ClassesOf(x) == {c};
    if w.Under(x, p) {
      ClassesAreNotBelowMetaclasses(w, x, p);
    }
    if w.Under(x, Isa(p)) {
      MetaclassesBelow(w, c, p);
    }
  }

  /** Whether a table can be created depends only on the methods and the hierarchy. */
  lemma OkFrame(w: World, w': World, d: Class)
    requires w.Sound() && w'.Sound() && d in w.classes && OkToCreate(w, d)
    requires w'.classes == w.classes && w'.sup == w.sup && w'.methods == w.methods && w'.rank == w.rank
    ensures OkToCreate(w', d)
  {
    forall s | w'.Own(d, s).Some? && w'.Inherited(d, s).Some?
      ensures w'.Own(d, s).value.imp != w'.Inherited(d, s).value.imp
    {
      ResolveFrame(w, w', d, s);
    }
  }

  lemma RelinkedOk(w: World, w': World, c: Class, p: Class, m: Class, q: Class, d: Class)
    requires Relinked(w, w', c, p, m, q) && d in w.classes && !w'.Under({c, m}, d) && OkToCreate(w, d)
    ensures OkToCreate(w', d)
  {
    forall s | w'.Own(d, s).Some? && w'.Inherited(d, s).Some?
      ensures w'.Own(d, s).value.imp != w'.Inherited(d, s).value.imp
    {
      RelinkedSame(w, w', c, p, m, q, d, s);
    }
  }

  lemma RebaseVersion(w: World, w1: World, w2: World, c: Class)
    requires RebaseStep(w, w1, c) && w2 == w1.(version := w2.version)
    ensures RebaseStep(w, w2, c)
  {
    assert SameShape(w, w2);
    SameShapeSound(w, w2);
    forall d, s | d in w.tables
      ensures w2.Entry(d, s) ==
        if !w.Under({c}, d) || w.Own(d, s).Some? || !w.Scanned(s) then w.Entry(d, s) else ParentEntry(w2, d, s)
    {
      assert w2.Entry(d, s) == w1.Entry(d, s);
      if w.sup[d].Some? {
        assert w2.Entry(w.sup[d].value, s) == w1.Entry(w.sup[d].value, s);
      }
    }
  }

  /** Creating the table of a class leaves the others as creatable as they were. */
  lemma CreatedCreatable(w: World, w': World, x: set<Class>)
    requires w.Sound() && w'.Sound() && Creatable(w, x) && w.tables.Keys <= w'.tables.Keys
    requires w'.classes == w.classes && w'.sup == w.sup && w'.methods == w.methods && w'.rank == w.rank
    ensures Creatable(w', x) && forall d {:trigger w'.Under(x, d)} :: w'.Under(x, d) == w.Under(x, d)
  {
    forall d
      ensures w'.Under(x, d) == w.Under(x, d)
    {
      UnderFrame(w, w', x, d);
    }
    forall d | d in w'.classes && d !in w'.tables && !w'.Under(x, d)
      ensures OkToCreate(w', d)
    {
      UnderFrame(w, w', x, d);
      OkFrame(w, w', d);
    }
  }

  lemma RelinkedCreatable(w: World, w': World, c: Class, p: Class, m: Class, q: Class)
    requires Relinked(w, w', c, p, m, q) && Creatable(w, {})
    ensures Creatable(w', {c, m})
  {
    forall d | d in w'.classes && d !in w'.tables && !w'.Under({c, m}, d)
      ensures OkToCreate(w', d)
    {
      UnderNothing(w, d);
      RelinkedOk(w, w', c, p, m, q, d);
    }
  }

  lemma RelinkedPaired(w: World, w': World, c: Class, p: Class, m: Class, q: Class)
    requires Relinked(w, w', c, p, m, q) && TablesPaired(w)
    ensures TablesPaired(w')
  {
  }
}
