/**
 What the operations on dispatch tables do to the state as a whole, and that they keep what
 holds between operations.
 */
module DispatchSteps {
  import opened Wrappers
  import opened DispatchModel
  import opened DispatchAgreement
  import opened DispatchRebase

  // ----- sending the first message -----

  /** A table is created unless there is one. */
  ghost predicate TableStep(w: World, w': World, c: Class) {
    if c in w.tables then w' == w else CreateStep(w, w', c) && Coherent(w, w')
  }

  /** The tables of a class and of its metaclass are created. */
  ghost predicate PairStep(w: World, w': World, c: Class) {
    if c in w.tables then w' == w else exists w1 :: TableStep(w, w1, c) && TableStep(w1, w', Isa(c))
  }

  /** Superclasses come first, then the class itself, then its metaclass. */
  ghost predicate InitializeStep(w: World, w': World, c: Class)
    requires w.Sound() && c in w.classes
    decreases w.rank[c]
  {
    if c in w.tables then w' == w
    else
      match w.sup[c]
      case None => PairStep(w, w', c)
      case Some(p) => assert w.IsSup(c, p); exists w1 :: InitializeStep(w, w1, p) && PairStep(w1, w', c)
  }

  /** The same classes with the same methods in the same hierarchy, and no table lost. */
  ghost predicate SameHierarchy(w: World, w': World) {
    && w.Sound() && w'.Sound() && w'.classes == w.classes && w'.sup == w.sup && w'.methods == w.methods
    && w'.rank == w.rank && w'.depth == w.depth && w.tables.Keys <= w'.tables.Keys
  }

  /** The new superclasses of the classes of `x` are not below a class of `x`. */
  ghost predicate Free(w: World, x: set<Class>)
    requires w.Sound()
  {
    forall d, f {:trigger w.IsSup(d, f)} :: d in x && w.IsSup(d, f) ==> !w.Under(x, f)
  }

  /**
   What became of the entry of a class of `x`: if its superclass has got its table, what
   that class defines has been passed down in the place of what it inherits.
   */
  ghost predicate PassedAt(w: World, w': World, d: Class, s: nat)
    requires w.Sound() && d in w.classes
  {
    match w.sup[d]
    case None => w'.Entry(d, s) == w.Entry(d, s)
    case Some(f) =>
      assert w.IsSup(d, f);
      w'.Entry(d, s) ==
        if f !in w.tables && f in w'.tables && w.Own(f, s).Some? && w.Entry(d, s) == w.Inherited(f, s)
        then w.Own(f, s) else w.Entry(d, s)
  }

  ghost predicate Passed(w: World, w': World, x: set<Class>)
    requires w.Sound()
  {
    forall d, s {:trigger w'.Entry(d, s)} :: d in x && d in w.tables ==> PassedAt(w, w', d, s)
  }

  /** What a step of an initialization gives to the rest of the state. */
  ghost predicate Kept(w: World, w': World, x: set<Class>) {
    && SameHierarchy(w, w') && Coherent(w, w') && Passed(w, w', x)
    && (forall d {:trigger w'.Under(x, d)} :: w'.Under(x, d) == w.Under(x, d))
  }

  lemma KeptSelf(w: World, x: set<Class>)
    requires w.Sound()
    ensures Kept(w, w, x)
  {
    forall d, s | d in x && d in w.tables
      ensures PassedAt(w, w, d, s)
    {
      if w.sup[d].Some? {
        assert w.IsSup(d, w.sup[d].value);
      }
    }
  }

  lemma KeptTransitive(w: World, w1: World, w2: World, x: set<Class>)
    requires Kept(w, w1, x) && Kept(w1, w2, x)
    ensures Kept(w, w2, x)
  {
    CoherentTransitive(w, w1, w2);
    forall d, s | d in x && d in w.tables
      ensures PassedAt(w, w2, d, s)
    {
      assert PassedAt(w, w1, d, s) by { assert w1.Entry(d, s) == w1.Entry(d, s); }
      assert PassedAt(w1, w2, d, s) by { assert w2.Entry(d, s) == w2.Entry(d, s); }
      if w.sup[d].Some? {
        assert w.IsSup(d, w.sup[d].value);
        ResolveFrame(w, w1, w.sup[d].value, s);
      }
    }
    forall d
      ensures w2.Under(x, d) == w.Under(x, d)
    {
      assert w1.Under(x, d) == w.Under(x, d);
    }
  }

  lemma FreeKept(w: World, w': World, x: set<Class>)
    requires w.Sound() && Free(w, x) && Kept(w, w', x)
    ensures w'.Sound() && Free(w', x)
  {
    forall d, f | d in x && w'.IsSup(d, f)
      ensures !w'.Under(x, f)
    {
      assert w.IsSup(d, f);
    }
  }

  lemma MirroredSup(w: World, w': World)
    requires Mirrored(w) && w'.Sound() && w'.classes == w.classes && w'.sup == w.sup
    ensures Mirrored(w')
  {
    forall d | d in w'.classes && !d.meta
      ensures Isa(d) in w'.classes && (w'.sup[d].Some? ==> !w'.sup[d].value.meta)
      ensures w'.sup[Isa(d)] == Some(if w'.sup[d].None? then d else Isa(w'.sup[d].value))
    {
      MirrorAt(w, d);
    }
  }

  lemma CreateEnds(w: World, w': World, x: set<Class>, c: Class)
    requires Settled(w, x) && Mirrored(w) && Creatable(w, x) && c in w.classes && !w.Under(x, c) && Above(w, c)
    requires c !in w.tables && CreateStep(w, w', c)
    ensures Settled(w', x) && Mirrored(w') && Creatable(w', x) && w'.tables.Keys == w.tables.Keys + {c}
    ensures forall d {:trigger w'.Under(x, d)} :: w'.Under(x, d) == w.Under(x, d)
  {
    CreatedSettled(w, w', x, c);
    assert OkToCreate(w, c);
    CreatedCreatable(w, w', x);
    MirroredSup(w, w');
  }

  /** A table is created for a class whose superclass has one. */
  lemma TableKept(w: World, w': World, x: set<Class>, c: Class)
    requires Settled(w, x) && Mirrored(w) && Creatable(w, x) && Free(w, x)
    requires c in w.classes && !w.Under(x, c) && Above(w, c) && TableStep(w, w', c)
    ensures Settled(w', x) && Mirrored(w') && Creatable(w', x) && Free(w', x)
    ensures w'.tables.Keys == w.tables.Keys + {c} && Kept(w, w', x)
  {
    if c in w.tables {
      KeptSelf(w, x);
    } else {
      CreateEnds(w, w', x, c);
      assert OkToCreate(w, c);
      forall d, s | d in x && d in w.tables
        ensures PassedAt(w, w', d, s)
      {
        CreatedReaches(w, w', x, c, d, s);
      }
      FreeKept(w, w', x);
    }
  }

  lemma CreatedReaches(w: World, w': World, x: set<Class>, c: Class, d: Class, s: nat)
    requires Settled(w, x) && CreateStep(w, w', c) && !w.Under(x, c) && Above(w, c) && OkToCreate(w, c) && Free(w, x)
    requires d in x && d in w.tables
    ensures PassedAt(w, w', d, s)
  {
    var w1 := Copied(w, c);
    if w.sup[d].Some? {
      assert w.IsSup(d, w.sup[d].value);
      CreatedPassesDown(w, w', x, c, d, w.sup[d].value, s);
    } else {
      assert w1.Entry(d, s) == w.Entry(d, s);
      assert !Affected(w1, c, s, w1.Entry(c, s), d);
    }
  }

  /** The superclass of the metaclass has a table. */
  lemma MetaAbove(w: World, w': World, c: Class)
    requires Mirrored(w) && TablesPaired(w) && c in w.classes && !c.meta && w'.sup == w.sup
    requires w'.tables.Keys == w.tables.Keys + {c} && (w.sup[c].Some? ==> w.sup[c].value in w.tables)
    ensures Above(w', Isa(c))
  {
    MirrorAt(w, c);
    if w.sup[c].Some? {
      assert w.IsSup(c, w.sup[c].value);
      assert Isa(w.sup[c].value) in w.tables;
    }
  }

  lemma PairedAt(w: World, c: Class)
    requires TablesPaired(w) && c in w.classes && !c.meta
    ensures c in w.tables <==> Isa(c) in w.tables
  {
  }

  lemma PairedAgain(w: World, w': World, c: Class)
    requires TablesPaired(w) && w'.classes == w.classes && w'.tables.Keys == w.tables.Keys + {c, Isa(c)} && !c.meta
    ensures TablesPaired(w')
  {
    forall d | d in w'.classes && !d.meta
      ensures d in w'.tables <==> Isa(d) in w'.tables
    {
      assert d != c ==> Isa(d) != Isa(c);
    }
  }

  lemma InitializeFacts(w: World, x: set<Class>, c: Class)
    requires Settled(w, x) && Mirrored(w) && c in w.classes && !c.meta && !w.Under(x, c) && !w.Under(x, Isa(c))
    ensures c in w.rank && Isa(c) in w.classes
    ensures w.sup[c].Some? ==>
      var p := w.sup[c].value;
      w.IsSup(c, p) && p in w.classes && w.rank[p] < w.rank[c] && !p.meta && !w.Under(x, p) && !w.Under(x, Isa(p))
  {
    MirrorAt(w, c);
    assert w.IsSup(Isa(c), w.sup[Isa(c)].value);
    if w.sup[c].Some? {
      assert w.IsSup(c, w.sup[c].value);
    }
  }

  /** The tables of a class and its metaclass, once the superclass has its tables. */
  lemma PairKept(w: World, w': World, x: set<Class>, c: Class)
    requires Fit(w, x) && Free(w, x) && c in w.classes && !c.meta && !w.Under(x, c) && !w.Under(x, Isa(c))
    requires (w.sup[c].Some? ==> w.sup[c].value in w.tables) && PairStep(w, w', c)
    ensures Fit(w', x) && c in w'.tables && Isa(c) in w'.tables && Kept(w, w', x)
  {
    hide *;
    FitFacts(w, x);
    InitializeFacts(w, x, c);
    PairedAt(w, c);
    PairIsDone(w, w', c);
    if c in w.tables {
      KeptSelf(w, x);
    } else {
      var w1 := PairBegun(w, w', c);
      ClassAbove(w, c);
      TableKept(w, w1, x, c);
      KeptFacts(w, w1, x);
      MetaAbove(w, w1, c);
      TableKept(w1, w', x, Isa(c));
      KeptTransitive(w, w1, w', x);
      KeptFacts(w, w', x);
      BothKeys(w, w1, w', c);
      PairedAgain(w, w', c);
      FitMade(w', x);
    }
  }

  lemma BothKeys(w: World, w1: World, w': World, c: Class)
    requires w1.tables.Keys == w.tables.Keys + {c} && w'.tables.Keys == w1.tables.Keys + {Isa(c)}
    ensures w'.tables.Keys == w.tables.Keys + {c, Isa(c)}
  {
  }

  lemma FitMade(w: World, x: set<Class>)
    requires w.Sound() && Settled(w, x) && Mirrored(w) && TablesPaired(w) && Creatable(w, x)
    ensures Fit(w, x)
  {
  }

  lemma PairBegun(w: World, w': World, c: Class) returns (w1: World)
    requires PairStep(w, w', c) && c !in w.tables
    ensures TableStep(w, w1, c) && TableStep(w1, w', Isa(c))
  {
    w1 :| TableStep(w, w1, c) && TableStep(w1, w', Isa(c));
  }

  lemma PairIsDone(w: World, w': World, c: Class)
    requires PairStep(w, w', c)
    ensures c in w.tables ==> w' == w
  {
  }

  lemma ClassAbove(w: World, c: Class)
    requires c in w.sup && (w.sup[c].Some? ==> w.sup[c].value in w.tables)
    ensures Above(w, c)
  {
  }

  lemma KeptFacts(w: World, w': World, x: set<Class>)
    requires Kept(w, w', x)
    ensures w'.Sound() && w'.classes == w.classes && w'.sup == w.sup && w.tables.Keys <= w'.tables.Keys
    ensures w'.depth == w.depth
    ensures forall d {:trigger w'.Under(x, d)} :: w'.Under(x, d) == w.Under(x, d)
    ensures Coherent(w, w')
  {
  }

  /** Sending the first message to a class keeps all that holds between operations. */
  lemma {:induction false} InitializeKept(w: World, w': World, x: set<Class>, c: Class)
    requires Fit(w, x) && Free(w, x) && c in w.classes && !c.meta && !w.Under(x, c) && !w.Under(x, Isa(c))
    requires InitializeStep(w, w', c)
    ensures Fit(w', x) && Free(w', x) && c in w'.tables && Isa(c) in w'.tables && Kept(w, w', x)
    decreases w.rank[c]
  {
    hide Settled, Mirrored, Creatable, Kept, PairStep, World.Under;
    FitFacts(w, x);
    InitializeFacts(w, x, c);
    PairedAt(w, c);
    if c in w.tables {
      KeptSelf(w, x);
    } else if w.sup[c].None? {
      PairKept(w, w', x, c);
      FreeKept(w, w', x);
    } else {
      var p := w.sup[c].value;
      var w1 :| InitializeStep(w, w1, p) && PairStep(w1, w', c);
      InitializeKept(w, w1, x, p);
      KeptFacts(w, w1, x);
      PairKept(w1, w', x, c);
      KeptTransitive(w, w1, w', x);
      FreeKept(w, w', x);
    }
  }

  // ----- another superclass -----

  /** The tables at and below a class are rebuilt, if it has one, and all caches are invalidated. */
  ghost predicate RebuildStep(w: World, w': World, c: Class) {
    if c !in w.tables then w' == w else RebaseStep(w, w', c) && w'.version == w.version + 1
  }

  ghost predicate SuperStep(w: World, w': World, c: Class, p: Class)
    requires w.Sound() && c in w.classes && w.sup[c].Some?
  {
    if w.sup[c].value == p then w' == w
    else
      && CanMovePair(w, c, p)
      && if c !in w.tables then w' == PairMoved(w, c, p) else Rebuilt(w, w', c, p)
  }

  ghost predicate Rebuilt(w: World, w': World, c: Class, p: Class)
    requires CanMovePair(w, c, p)
  {
    PairMovedSound(w, c, p);
    exists w2, w3 ::
      InitializeStep(PairMoved(w, c, p), w2, p) && RebuildStep(w2, w3, Isa(c)) && RebuildStep(w3, w', c)
  }

  /**
   For selectors that no enumeration comes to, a class must inherit from its new superclass
   what it inherited before, or what the new superclass inherits, if that has yet to get
   its table and so passes down what it defines.
   */
  ghost predicate CarriedOver(w: World, c: Class, p: Class)
    requires w.Sound() && c in w.classes && p in w.classes
  {
    forall s {:trigger w.Own(c, s)} :: !w.Scanned(s) && w.Own(c, s).None? ==>
      || w.Inherited(c, s) == w.Resolve(p, s)
      || (p !in w.tables && w.Own(p, s).Some? && w.Inherited(c, s) == w.Inherited(p, s))
  }

  /** A metaclass is not below the class, nor the class below its metaclass. */
  lemma ClassAside(w: World, c: Class)
    requires Mirrored(w) && c in w.classes && !c.meta && w.sup[c].Some?
    ensures !w.Under({Isa(c)}, c) && Aside(w, {c}, Isa(c))
  {
    assert !w.Under({Isa(c)}, c) by {
      if w.Under({Isa(c)}, c) {
        ClassesAreNotBelowMetaclasses(w, {Isa(c)}, c);
        assert ClassesOf({Isa(c)}) == {};
        UnderNothing(w, c);
      }
    }
  }

  lemma ClosedOutside(w: World, x: set<Class>, c: Class)
    requires Settled(w, {c} + x) && Aside(w, x, c)
    ensures ClosedBelow(w, c)
  {
  }

  lemma RelinkedCoherent(w: World, w': World, c: Class, p: Class, m: Class, q: Class)
    requires Relinked(w, w', c, p, m, q) && w'.version == w.version
    ensures Coherent(w, w')
  {
  }

  lemma NewSuperHasTables(w: World, c: Class, p: Class)
    requires Mirrored(w) && TablesPaired(w) && c in w.tables && p in w.tables && !c.meta && !p.meta && w.IsSup(c, p)
    ensures Isa(c) in w.tables && Isa(p) in w.tables && w.IsSup(Isa(c), Isa(p))
  {
    MirrorAt(w, c);
  }

  lemma NothingAside(w: World, c: Class)
    requires w.Sound()
    ensures Aside(w, {}, c)
  {
  }

  lemma MirroredFrame(w: World, w': World)
    requires Mirrored(w) && TablesPaired(w) && SameShape(w, w')
    ensures Mirrored(w') && TablesPaired(w')
  {
    SameShapeSound(w, w');
    forall d | d in w'.classes && !d.meta
      ensures Isa(d) in w'.classes && (w'.sup[d].Some? ==> !w'.sup[d].value.meta)
      ensures w'.sup[Isa(d)] == Some(if w'.sup[d].None? then d else Isa(w'.sup[d].value))
    {
      MirrorAt(w, d);
    }
  }

  /** `c` has been moved below `p`; `x` holds `c` and what else has been moved. */
  lemma CarriedIff(w: World, w1: World, w2: World, x: set<Class>, c: Class, p: Class)
    requires Settled(w, {}) && w1.Sound() && w1.tables == w.tables && w1.methods == w.methods && w1.classes == w.classes
    requires w1.depth == w.depth && Settled(w2, x) && Kept(w1, w2, x)
    requires c in x && c in w.tables && w1.IsSup(c, p) && p in w2.tables && !w1.Under(x, p)
    requires forall s {:trigger w1.Resolve(p, s)} ::
      w1.Resolve(p, s) == w.Resolve(p, s) && w1.Own(p, s) == w.Own(p, s) && w1.Inherited(p, s) == w.Inherited(p, s)
    ensures Carried(w2, c) <==> CarriedOver(w, c, p)
  {
    forall s | w.Own(c, s).None?
      ensures w2.Own(c, s) == w.Own(c, s)
      ensures w2.Entry(c, s) == ParentEntry(w2, c, s) <==>
        || w.Inherited(c, s) == w.Resolve(p, s)
        || (p !in w.tables && w.Own(p, s).Some? && w.Inherited(c, s) == w.Inherited(p, s))
    {
      CarriedAt(w, w1, w2, x, c, p, s);
    }
    forall s
      ensures w2.Own(c, s) == w.Own(c, s) && w2.Scanned(s) == w.Scanned(s)
    {
    }
    if Carried(w2, c) {
      forall s | !w.Scanned(s) && w.Own(c, s).None?
        ensures || w.Inherited(c, s) == w.Resolve(p, s)
          || (p !in w.tables && w.Own(p, s).Some? && w.Inherited(c, s) == w.Inherited(p, s))
      {
        assert w2.Entry(c, s) == ParentEntry(w2, c, s);
      }
    }
  }

  lemma CarriedAt(w: World, w1: World, w2: World, x: set<Class>, c: Class, p: Class, s: nat)
    requires Settled(w, {}) && w1.Sound() && w1.tables == w.tables && w1.methods == w.methods && w1.classes == w.classes
    requires Settled(w2, x) && Kept(w1, w2, x)
    requires c in x && c in w.tables && w1.IsSup(c, p) && p in w2.tables && !w1.Under(x, p)
    requires w1.Resolve(p, s) == w.Resolve(p, s) && w1.Own(p, s) == w.Own(p, s)
    requires w1.Inherited(p, s) == w.Inherited(p, s)
    requires w.Own(c, s).None?
    ensures w2.Entry(c, s) == ParentEntry(w2, c, s) <==>
      || w.Inherited(c, s) == w.Resolve(p, s)
      || (p !in w.tables && w.Own(p, s).Some? && w.Inherited(c, s) == w.Inherited(p, s))
  {
    SettledAt(w, c, s);
    assert w1.Entry(c, s) == w.Entry(c, s) == w.Inherited(c, s);
    assert PassedAt(w1, w2, c, s) by { assert w2.Entry(c, s) == w2.Entry(c, s); }
    assert !w2.Under(x, p);
    SettledRightAt(w2, x, p, s);
    ResolveFrame(w1, w2, p, s);
  }

  /** Rebuilding first the metaclass and then the class. */
  lemma BothRebuilt(w2: World, w3: World, w4: World, c: Class, p: Class)
    requires Fit(w2, {c, Isa(c)}) && c in w2.tables && p in w2.tables && !c.meta && !p.meta && w2.IsSup(c, p)
    requires RebuildStep(w2, w3, Isa(c)) && RebuildStep(w3, w4, c)
    ensures Settled(w4, {}) <==> Carried(w2, Isa(c)) && Carried(w2, c)
    ensures Mirrored(w4) && TablesPaired(w4) && SameShape(w2, w4) && w4.version > w2.version
    ensures Creatable(w2, {c, Isa(c)})
  {
    hide Settled, Carried, RebaseStep, World.Under, Creatable;
    var m := Isa(c);
    ClassAside(w2, c);
    NewSuperHasTables(w2, c, p);
    ClassAbove(w2, m);
    assert {m} + {c} == {c, m} && {c} + {} == {c};
    RebasedSettled(w2, w3, {c}, m);
    RebasedFacts(w2, w3, m);
    RebasedFacts(w3, w4, c);
    CarriedSame(w2, w3, m, c);
    MirroredFrame(w2, w4);
    if Carried(w2, m) {
      ClassAbove(w3, c);
      NothingAside(w3, c);
      RebasedSettled(w3, w4, {}, c);
    } else {
      CarriedSame(w2, w3, m, m);
      CarriedSame(w3, w4, c, m);
      NotCarried(w4, m);
    }
  }

  lemma RebasedFacts(w: World, w': World, c: Class)
    requires RebaseStep(w, w', c)
    ensures w'.Sound() && SameShape(w, w')
  {
  }

  /** What no enumeration comes to is as before. */
  lemma CarriedSame(w: World, w': World, c: Class, d: Class)
    requires RebaseStep(w, w', c) && d in w.tables && (w.sup[d].Some? ==> w.sup[d].value in w.tables)
    ensures Carried(w', d) <==> Carried(w, d)
  {
    forall s | !w.Scanned(s)
      ensures w'.Entry(d, s) == w.Entry(d, s) && ParentEntry(w', d, s) == ParentEntry(w, d, s)
      ensures w'.Own(d, s) == w.Own(d, s)
    {
      RebasedParent(w, w', c, d, s);
    }
    assert forall s :: w'.Scanned(s) == w.Scanned(s);
    if Carried(w', d) {
      forall s | !w.Scanned(s) && w.Own(d, s).None?
        ensures w.Entry(d, s) == ParentEntry(w, d, s)
      {
        assert w'.Entry(d, s) == ParentEntry(w', d, s);
      }
    }
  }

  lemma NotCarried(w: World, d: Class)
    requires w.Sound() && d in w.tables && !Carried(w, d)
    ensures !Settled(w, {})
  {
    assert !FollowsParent(w, d);
  }

  /** Tables are right after a move if and only if the selectors that no enumeration comes to allow it. */
  lemma SuperSettled(w: World, w': World, c: Class, p: Class)
    requires Fit(w, {}) && c in w.classes && p in w.classes && !c.meta && !p.meta && w.sup[c].Some?
    requires SuperStep(w, w', c, p)
    ensures Settled(w', {}) <==>
      (w.sup[c].value != p && c in w.tables ==> CarriedOver(w, c, p) && MetasCarriedOver(w, c, p))
    ensures Mirrored(w') && TablesPaired(w') && Coherent(w, w')
    ensures w.sup[c].value != p && c in w.tables ==> w'.version > w.version
  {
    hide Settled, Mirrored, Coherent, PairMoved, Creatable, TablesPaired, Rebuilt, CarriedOver, World.Under;
    var m, q := Isa(c), Isa(p);
    FitFacts(w, {});
    MirrorAt(w, c);
    MirrorAt(w, p);
    if w.sup[c].value != p {
      var w1 := PairMoved(w, c, p);
      PairMovedSound(w, c, p);
      PairMovedBooks(w, c, p);
      RelinkedSettled(w, w1, c, p, m, q);
      RelinkedPaired(w, w1, c, p, m, q);
      RelinkedCoherent(w, w1, c, p, m, q);
      if c !in w.tables {
        UntabledSettled(w1, c);
      } else {
        RebuiltSettled(w, w1, w', c, p);
      }
    } else {
      CoherentSelf(w);
    }
  }

  ghost predicate MetasCarriedOver(w: World, c: Class, p: Class)
    requires Mirrored(w) && c in w.classes && p in w.classes && !c.meta && !p.meta
  {
    MirrorAt(w, c);
    MirrorAt(w, p);
    CarriedOver(w, Isa(c), Isa(p))
  }

  lemma CoherentSelf(w: World)
    ensures Coherent(w, w)
  {
  }

  lemma PairMovedBooks(w: World, c: Class, p: Class)
    requires CanMovePair(w, c, p)
    ensures var w' := PairMoved(w, c, p);
      && w'.classes == w.classes && w'.methods == w.methods && w'.tables == w.tables && w'.version == w.version
      && w'.depth == w.depth
  {
    hide Moved;
    CanMoveMeta(w, c, p);
    MovedBooks(w, c, p);
    MovedBooks(Moved(w, c, p), Isa(c), Isa(p));
  }

  lemma UntabledSettled(w: World, c: Class)
    requires Settled(w, {c, Isa(c)}) && TablesPaired(w) && c !in w.tables && c in w.classes && !c.meta
    ensures Settled(w, {})
  {
    assert Isa(c) !in w.tables;
  }

  lemma RebuiltSettled(w: World, w1: World, w': World, c: Class, p: Class)
    requires Fit(w, {}) && CanMovePair(w, c, p) && w1 == PairMoved(w, c, p) && c in w.tables && Rebuilt(w, w', c, p)
    requires Relinked(w, w1, c, p, Isa(c), Isa(p)) && Settled(w1, {c, Isa(c)}) && TablesPaired(w1) && Mirrored(w1)
    requires Coherent(w, w1)
    ensures Settled(w', {}) <==> CarriedOver(w, c, p) && MetasCarriedOver(w, c, p)
    ensures Mirrored(w') && TablesPaired(w') && Coherent(w, w') && w'.version > w.version
  {
    hide Settled, Mirrored, Coherent, PairMoved, Creatable, TablesPaired, CarriedOver, Carried, World.Under, Kept,
      RebuildStep,
      InitializeStep, Relinked;
    var m, q, x := Isa(c), Isa(p), {c, Isa(c)};
    FitFacts(w, {});
    MirrorAt(w, c);
    MirrorAt(w, p);
    PairMovedSound(w, c, p);
    RelinkedCreatable(w, w1, c, p, m, q);
    RelinkedFree(w, w1, c, p, m, q);
    RelinkedBooks(w, w1, c, p, m, q);
    var w2, w3 :| InitializeStep(w1, w2, p) && RebuildStep(w2, w3, m) && RebuildStep(w3, w', c);
    InitializeKept(w1, w2, x, p);
    KeptFacts(w1, w2, x);
    FitFacts(w2, x);
    SameSup(w1, w2, c, p);
    BothRebuilt(w2, w3, w', c, p);
    RelinkedCarried(w, w1, w2, c, p, m, q);
    CoherentTransitive(w, w1, w2);
    LaterCoherent(w, w2, w');
  }

  lemma RelinkedBooks(w: World, w1: World, c: Class, p: Class, m: Class, q: Class)
    requires Relinked(w, w1, c, p, m, q)
    ensures w1.Sound() && w1.classes == w.classes && w1.tables == w.tables
    ensures c != m ==> w1.sup[c] == Some(p) && w1.sup[m] == Some(q)
  {
  }

  lemma SameSup(w: World, w': World, c: Class, p: Class)
    requires w.IsSup(c, p) && w'.sup == w.sup
    ensures w'.IsSup(c, p)
  {
  }

  lemma LaterCoherent(w: World, w1: World, w2: World)
    requires Coherent(w, w1) && w2.version > w1.version
    ensures Coherent(w, w2) && w2.version > w.version
  {
  }

  lemma RelinkedFree(w: World, w1: World, c: Class, p: Class, m: Class, q: Class)
    requires Relinked(w, w1, c, p, m, q) && c != m && !w1.Under({c, m}, p) && !w1.Under({c, m}, q)
    ensures Free(w1, {c, m}) && w1.IsSup(c, p) && w1.IsSup(m, q)
  {
  }

  lemma RelinkedCarried(w: World, w1: World, w2: World, c: Class, p: Class, m: Class, q: Class)
    requires Settled(w, {}) && Relinked(w, w1, c, p, m, q) && Settled(w2, {c, m}) && Kept(w1, w2, {c, m})
    requires c in w.tables && m in w.tables && c != m && p in w2.tables && q in w2.tables && p in w.classes
    requires q in w.classes
    requires !w1.Under({c, m}, p) && !w1.Under({c, m}, q)
    ensures Carried(w2, c) <==> CarriedOver(w, c, p)
    ensures Carried(w2, m) <==> CarriedOver(w, m, q)
  {
    hide Settled, Kept, Carried, CarriedOver, World.Under;
    forall s
      ensures w1.Resolve(p, s) == w.Resolve(p, s) && w1.Own(p, s) == w.Own(p, s)
      ensures w1.Inherited(p, s) == w.Inherited(p, s)
    {
      RelinkedSame(w, w1, c, p, m, q, p, s);
    }
    forall s
      ensures w1.Resolve(q, s) == w.Resolve(q, s) && w1.Own(q, s) == w.Own(q, s)
      ensures w1.Inherited(q, s) == w.Inherited(q, s)
    {
      RelinkedSame(w, w1, c, p, m, q, q, s);
    }
    RelinkedFree(w, w1, c, p, m, q);
    CarriedIff(w, w1, w2, {c, m}, c, p);
    CarriedIff(w, w1, w2, {c, m}, m, q);
  }

  // ----- on the way -----

  lemma AboveSup(w: World, c: Class)
    requires w.Sound() && Above(w, c) && c in w.classes
    ensures w.sup[c].Some? ==> w.sup[c].value in w.tables
  {
    if w.sup[c].Some? {
      assert w.IsSup(c, w.sup[c].value);
    }
  }

  /** The links have been changed. */
  lemma MovedFit(w: World, c: Class, p: Class)
    requires Fit(w, {}) && CanMovePair(w, c, p) && c in w.tables
    ensures var w1, x := PairMoved(w, c, p), {c, Isa(c)};
      && Fit(w1, x) && Free(w1, x) && p in w1.classes && !w1.Under(x, p) && !w1.Under(x, Isa(p))
      && w1.IsSup(c, p) && w1.IsSup(Isa(c), Isa(p))
  {
    hide Settled, Mirrored, PairMoved, Creatable, TablesPaired, World.Under, Relinked;
    var w1, m, q := PairMoved(w, c, p), Isa(c), Isa(p);
    FitFacts(w, {});
    PairMovedSound(w, c, p);
    RelinkedSettled(w, w1, c, p, m, q);
    RelinkedPaired(w, w1, c, p, m, q);
    RelinkedCreatable(w, w1, c, p, m, q);
    RelinkedFree(w, w1, c, p, m, q);
    RelinkedBooks(w, w1, c, p, m, q);
  }

  /** The new superclass has its tables; the metaclass comes first. */
  lemma MovedClosed(w1: World, w2: World, c: Class, p: Class)
    requires Fit(w2, {c, Isa(c)}) && Free(w2, {c, Isa(c)}) && w2.sup == w1.sup && w1.IsSup(c, p)
    requires w1.IsSup(Isa(c), Isa(p))
    requires !c.meta && c in w2.classes && p in w2.tables && Isa(p) in w2.tables
    ensures w2.IsSup(c, p) && w2.IsSup(Isa(c), Isa(p)) && ClosedBelow(w2, Isa(c)) && ClosedBelow(w2, c)
  {
    var m, x := Isa(c), {c, Isa(c)};
    assert w2.IsSup(c, p) && w2.IsSup(m, Isa(p));
    UnderUnion(w2, c, {m}, p);
    UnderUnion(w2, c, {m}, Isa(p));
    assert {c} + {m} == x && {m} + {c} == x;
    ClosedOutside(w2, {c}, m);
    ClosedOutside(w2, {m}, c);
  }

  lemma RebuiltClosed(w2: World, w3: World, m: Class, c: Class, p: Class)
    requires w2.Sound() && RebuildStep(w2, w3, m) && w2.IsSup(c, p) && p in w2.tables && ClosedBelow(w2, c)
    ensures w3.Sound() && w3.IsSup(c, p) && p in w3.tables && ClosedBelow(w3, c)
  {
    if m in w2.tables {
      ClosedFrame(w2, w3, c);
    }
  }

  lemma SuperMade(w: World, w': World, c: Class, p: Class)
    requires w.Sound() && c in w.classes && w.sup[c].Some?
    requires w.sup[c].value == p ==> w' == w
    requires w.sup[c].value != p ==>
      CanMovePair(w, c, p) && if c in w.tables then Rebuilt(w, w', c, p) else w' == PairMoved(w, c, p)
    ensures SuperStep(w, w', c, p)
  {
  }

  // ----- no implementation shared -----

  /** What the classes at and below `c` that have no table yet define differs from what they will override. */
  ghost predicate OverridesKept(w: World, c: Class, p: Class)
    requires w.Sound() && p in w.classes
  {
    forall d, s {:trigger w.Own(d, s)} ::
      d in w.classes && d !in w.tables && w.Under({c}, d) && w.Own(d, s).Some? && w.Resolve(p, s).Some? ==>
        w.Own(d, s).value.imp != w.Resolve(p, s).value.imp
  }

  /** What is inherited after a move is what was inherited before, or comes from the new superclass. */
  lemma {:induction false} RelinkedInherits(w: World, w1: World, c: Class, p: Class, m: Class, q: Class,
                                            d: Class, s: nat)
    requires Relinked(w, w1, c, p, m, q) && c != m && !w1.Under({c, m}, p) && !w1.Under({c, m}, q)
    requires w1.Under({c, m}, d)
    requires p in w.classes && q in w.classes
    ensures d in w.classes && w1.Own(d, s) == w.Own(d, s)
    ensures || (w.Under({c}, d) && (w1.Inherited(d, s) == w.Inherited(d, s) || w1.Inherited(d, s) == w.Resolve(p, s)))
      || (w.Under({m}, d) && (w1.Inherited(d, s) == w.Inherited(d, s) || w1.Inherited(d, s) == w.Resolve(q, s)))
    decreases if d in w1.rank then w1.rank[d] else 0
  {
    if d == c {
      assert w1.IsSup(c, p);
      RelinkedSame(w, w1, c, p, m, q, p, s);
    } else if d == m {
      assert w1.IsSup(m, q);
      RelinkedSame(w, w1, c, p, m, q, q, s);
    } else {
      var e := w1.sup[d].value;
      assert w1.IsSup(d, e) && w.IsSup(d, e);
      RelinkedInherits(w, w1, c, p, m, q, e, s);
    }
  }

  lemma RelinkedAllCreatable(w: World, w1: World, c: Class, p: Class, m: Class, q: Class)
    requires Relinked(w, w1, c, p, m, q) && c != m && !w1.Under({c, m}, p) && !w1.Under({c, m}, q)
    requires p in w.classes && q in w.classes && Creatable(w, {}) && OverridesKept(w, c, p) && OverridesKept(w, m, q)
    ensures Creatable(w1, {})
  {
    forall d | d in w1.classes && d !in w1.tables
      ensures OkToCreate(w1, d)
    {
      UnderNothing(w, d);
      assert OkToCreate(w, d);
      if w1.Under({c, m}, d) {
        forall s | w1.Own(d, s).Some? && w1.Inherited(d, s).Some?
          ensures w1.Own(d, s).value.imp != w1.Inherited(d, s).value.imp
        {
          RelinkedInherits(w, w1, c, p, m, q, d, s);
          assert w.Own(d, s) == w.Own(d, s);
        }
      } else {
        RelinkedOk(w, w1, c, p, m, q, d);
      }
    }
  }
}
