/**
 Whole runs of the operations on dispatch tables: methods and method lists are added,
 classes are sent their first message, classes get other superclasses, and tables grow.
 */
module DispatchRuns {
  import opened Wrappers
  import opened DispatchModel
  import opened DispatchAgreement
  import opened DispatchRebase
  import opened DispatchSteps

  // ----- what has to be seen to before each operation -----

  /**
   The list clashes with nothing: if the class has a table, each selector is found as
   `OkToAdd` asks; and where tables are still to be created, no implementation is shared
   with a method that is or will be overridden.
   */
  ghost predicate Addable(w: World, c: Class, list: seq<Method>)
    requires w.Sound() && c in w.classes
  {
    && (c in w.tables ==> forall s :: OkToAdd(w, c, list, s))
    && (c !in w.tables ==> forall s {:trigger w.Inherited(c, s)} ::
          Find(list, s, None).Some? && w.Inherited(c, s).Some? ==>
            w.Inherited(c, s).value.imp != Find(list, s, None).value.imp)
    && (forall d, s {:trigger w.Own(d, s)} ::
          && d in w.classes && d !in w.tables && d != c && w.Under({c}, d)
          && w.Own(d, s).Some? && Find(list, s, None).Some? ==>
            w.Own(d, s).value.imp != Find(list, s, None).value.imp)
  }

  /**
   The class is no root, the new superclass is not below it, selectors that no enumeration
   comes to keep their meaning, and no implementation is shared with what will be overridden.
   */
  ghost predicate Movable(w: World, c: Class, p: Class) {
    && Mirrored(w) && c in w.classes && p in w.classes && !c.meta && !p.meta && w.sup[c].Some? && !w.Under({c}, p)
    && (c in w.tables ==> w.Listable() && CarriedOver(w, c, p) && MetasCarriedOver(w, c, p))
    && OverridesKept(w, c, p) && MetaOverridesKept(w, c, p)
  }

  ghost predicate MetaOverridesKept(w: World, c: Class, p: Class)
    requires Mirrored(w) && p in w.classes && !p.meta
  {
    MirrorAt(w, p);
    OverridesKept(w, Isa(c), Isa(p))
  }

  // ----- one operation -----

  ghost predicate AddOp(w: World, w': World, c: Class, list: seq<Method>) {
    AddStep(w, w', c, list) && Coherent(w, w') && Addable(w, c, list) && (c in w.tables ==> w.Listable())
  }

  ghost predicate InitializeOp(w: World, w': World, c: Class) {
    w.Sound() && c in w.classes && !c.meta && InitializeStep(w, w', c)
  }

  ghost predicate SuperOp(w: World, w': World, c: Class, p: Class) {
    Movable(w, c, p) && SuperStep(w, w', c, p)
  }

  /** The tables have room for more selectors. */
  ghost predicate GrowOp(w: World, w': World) {
    w' == w.(depth := w.depth + 8)
  }

  ghost predicate OpStep(w: World, w': World) {
    || (exists c, list :: AddOp(w, w', c, list))
    || (exists c :: InitializeOp(w, w', c))
    || (exists c, p :: SuperOp(w, w', c, p))
    || GrowOp(w, w')
  }

  // ----- what every operation keeps -----

  /** What is inherited after an addition is what was inherited before, or is the new method. */
  lemma {:induction false} AddedInherits(w: World, w': World, c: Class, list: seq<Method>, d: Class, s: nat)
    requires AddStep(w, w', c, list) && d in w.classes
    ensures w'.Inherited(d, s) == w.Inherited(d, s) ||
      (d != c && w.Under({c}, d) && Find(list, s, None).Some? && w'.Inherited(d, s) == Find(list, s, None))
    decreases w.rank[d]
  {
    if w.sup[d].Some? {
      var e := w.sup[d].value;
      assert w.IsSup(d, e) && w'.IsSup(d, e);
      OwnAdded(w, w', c, list, e, s);
      AddedInherits(w, w', c, list, e, s);
      if w.Under({c}, d) {
        UnderRank(w, c, d);
      }
      if w.Under({c}, e) {
        UnderRank(w, c, e);
      }
    }
  }

  lemma AddedCreatable(w: World, w': World, c: Class, list: seq<Method>)
    requires AddStep(w, w', c, list) && Addable(w, c, list) && Creatable(w, {})
    ensures Creatable(w', {})
  {
    forall d | d in w'.classes && d !in w'.tables
      ensures OkToCreate(w', d)
    {
      UnderNothing(w, d);
      assert OkToCreate(w, d);
      forall s | w'.Own(d, s).Some? && w'.Inherited(d, s).Some?
        ensures w'.Own(d, s).value.imp != w'.Inherited(d, s).value.imp
      {
        OwnAdded(w, w', c, list, d, s);
        AddedInherits(w, w', c, list, d, s);
        assert w.Own(d, s) == w.Own(d, s);
      }
    }
  }

  lemma AddKeeps(w: World, w': World, c: Class, list: seq<Method>)
    requires Fit(w, {}) && AddOp(w, w', c, list)
    ensures Fit(w', {}) && Coherent(w, w')
  {
    AddedSettled(w, w', c, list);
    AddedCreatable(w, w', c, list);
    MirroredSup(w, w');
  }

  lemma InitializeKeeps(w: World, w': World, c: Class)
    requires Fit(w, {}) && InitializeOp(w, w', c)
    ensures Fit(w', {}) && Coherent(w, w')
  {
    hide Fit, Kept;
    UnderNothing(w, c);
    UnderNothing(w, Isa(c));
    InitializeKept(w, w', {}, c);
    KeptFacts(w, w', {});
  }

  lemma SuperKeeps(w: World, w': World, c: Class, p: Class)
    requires Fit(w, {}) && SuperOp(w, w', c, p)
    ensures Fit(w', {}) && Coherent(w, w')
  {
    hide Settled, Mirrored, Coherent, PairMoved, Creatable, TablesPaired, World.Under, CarriedOver, OverridesKept,
      Rebuilt;
    FitFacts(w, {});
    MirrorAt(w, c);
    MirrorAt(w, p);
    SuperSettled(w, w', c, p);
    if w.sup[c].value != p {
      var w1 := PairMoved(w, c, p);
      PairMovedSound(w, c, p);
      RelinkedAllCreatable(w, w1, c, p, Isa(c), Isa(p));
      if c in w.tables {
        RebuiltCreatable(w, w', c, p);
      }
    }
  }

  lemma RebuiltCreatable(w: World, w': World, c: Class, p: Class)
    requires Fit(w, {}) && CanMovePair(w, c, p) && c in w.tables && Rebuilt(w, w', c, p)
    requires PairMoved(w, c, p).Sound() && Creatable(PairMoved(w, c, p), {})
    ensures w'.Sound() && Creatable(w', {})
  {
    hide Settled, Mirrored, PairMoved, Creatable, TablesPaired, World.Under, Kept, InitializeStep, RebaseStep;
    var w1, x := PairMoved(w, c, p), {c, Isa(c)};
    PairMovedBooks(w, c, p);
    MovedFit(w, c, p);
    var w2, w3 :| InitializeStep(w1, w2, p) && RebuildStep(w2, w3, Isa(c)) && RebuildStep(w3, w', c);
    InitializeKept(w1, w2, x, p);
    KeptHierarchy(w1, w2, x);
    CreatedCreatable(w1, w2, {});
    RebuiltStays(w2, w3, Isa(c));
    RebuiltStays(w3, w', c);
  }

  lemma KeptHierarchy(w: World, w': World, x: set<Class>)
    requires Kept(w, w', x)
    ensures SameHierarchy(w, w')
  {
  }

  lemma RebuiltStays(w: World, w': World, c: Class)
    requires w.Sound() && Creatable(w, {}) && RebuildStep(w, w', c)
    ensures w'.Sound() && Creatable(w', {})
  {
    if c in w.tables {
      CreatedCreatable(w, w', {});
    }
  }

  lemma GrowKeeps(w: World, w': World)
    requires Fit(w, {}) && GrowOp(w, w')
    ensures Fit(w', {}) && Coherent(w, w')
  {
    GrownSound(w, w');
    CreatedCreatable(w, w', {});
    MirroredSup(w, w');
    forall d | d in w'.tables
      ensures Above(w', d) && FollowsParent(w', d) && OwnRight(w', d)
    {
      assert Above(w, d) && FollowsParent(w, d) && OwnRight(w, d);
      forall f | w'.IsSup(d, f)
        ensures f in w'.tables
      {
        assert w.IsSup(d, f);
      }
      forall s
        ensures w'.Entry(d, s) == w.Entry(d, s) && w'.Own(d, s) == w.Own(d, s)
        ensures ParentEntry(w', d, s) == ParentEntry(w, d, s)
      {
        ResolveFrame(w, w', d, s);
      }
    }
  }

  lemma GrownSound(w: World, w': World)
    requires w.Sound() && GrowOp(w, w')
    ensures w'.Sound()
  {
    hide Flat;
    forall c, p | w'.IsSup(c, p)
      ensures p in w'.classes && w'.rank[p] < w'.rank[c]
    {
      assert w.IsSup(c, p);
    }
    forall c, d | c in w'.classes
      ensures d in w'.subs[c] <==> w'.IsSup(d, c)
    {
      assert w.IsSup(d, c) == w'.IsSup(d, c);
    }
  }

  /** Every operation keeps the invariant, and caches as good as their version says. */
  lemma OpKeeps(w: World, w': World)
    requires Fit(w, {}) && OpStep(w, w')
    ensures Fit(w', {}) && Coherent(w, w')
  {
    hide Fit, Coherent, AddOp, InitializeOp, SuperOp, GrowOp;
    if c, list :| AddOp(w, w', c, list) {
      AddKeeps(w, w', c, list);
    } else if c :| InitializeOp(w, w', c) {
      InitializeKeeps(w, w', c);
    } else if c, p :| SuperOp(w, w', c, p) {
      SuperKeeps(w, w', c, p);
    } else {
      GrowKeeps(w, w');
    }
  }

  // ----- runs -----

  /** The classes have been loaded, and none has been sent a message. */
  ghost predicate Begins(w: World) {
    Mirrored(w) && w.tables == map[] && Creatable(w, {})
  }

  ghost predicate Run(run: seq<World>) {
    run != [] && Begins(run[0]) && forall k :: 0 <= k < |run| - 1 ==> OpStep(run[k], run[k + 1])
  }

  lemma {:induction false} RunFit(run: seq<World>, i: nat)
    requires Run(run) && i < |run|
    ensures Fit(run[i], {})
  {
    hide Fit, OpStep;
    if i == 0 {
      BeginsFit(run[0]);
    } else {
      RunFit(run, i - 1);
      assert OpStep(run[i - 1], run[i - 1 + 1]);
      OpKeeps(run[i - 1], run[i]);
    }
  }

  lemma BeginsFit(w: World)
    requires Begins(w)
    ensures Fit(w, {})
  {
  }

  /** In every state of every run each table agrees with the slow lookup at every selector. */
  lemma RunAgrees(run: seq<World>, i: nat)
    requires Run(run) && i < |run|
    ensures run[i].Sound() && run[i].Agrees()
  {
    hide Run, World.Agrees;
    RunFit(run, i);
    SettledAgrees(run[i]);
  }

  /** What was found at a version is still to be found later in the run, if the version is the same. */
  lemma {:induction false} RunCoherent(run: seq<World>, i: nat, j: nat)
    requires Run(run) && i <= j < |run|
    ensures Coherent(run[i], run[j])
    decreases j - i
  {
    hide Fit, OpStep, Begins;
    if i < j {
      RunCoherent(run, i, j - 1);
      RunFit(run, j - 1);
      assert OpStep(run[j - 1], run[j - 1 + 1]);
      OpKeeps(run[j - 1], run[j]);
      CoherentTransitive(run[i], run[j - 1], run[j]);
    }
  }

  /**
   A slot that was found and cached is what the slow lookup finds, however much later, as
   long as the version has not changed.
   */
  lemma CachedSlotIsRight(run: seq<World>, i: nat, j: nat, c: Class, s: nat)
    requires Run(run) && i <= j < |run| && run[i].Entry(c, s).Some? && run[j].version == run[i].version
    ensures run[j].Sound() && c in run[j].classes && run[j].Resolve(c, s) == run[i].Entry(c, s)
  {
    hide Run;
    RunCoherent(run, i, j);
    RunAgrees(run, j);
    assert run[j].Entry(c, s) == run[i].Entry(c, s);
    assert run[j].AgreesAt(s);
  }
}
