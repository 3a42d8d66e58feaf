/**
 A small class table that re-parenting leaves in disorder.
 */
module ClassExamples {
  import opened Wrappers
  import opened ClassGraph
  import opened ClassLinking
  import opened Hierarchy
  import opened Reparenting
  import opened ClassTables

  /** A class and its metaclass, as a compiler emits them. */
  method NewClass(name: string, superClass: ObjcClass?) returns (c: ObjcClass)
    ensures fresh(c) && c.isa != null && fresh(c.isa) && c.name == name && !c.isMeta && c.isa.isMeta && c != c.isa
    ensures c.superName.None? && c.superClass == superClass && c.sibling == null && !c.resolved
    ensures c.isa.subclassList == null && !c.isa.resolved
  {
    var meta := new ObjcClass(name, true, None, null, null);
    c := new ObjcClass(name, false, None, meta, superClass);
  }

  /** `c` has been loaded, and its superclass, if any, is `up`. */
  ghost predicate Has(g: Graph, c: ObjcClass, up: ObjcClass?) {
    && c in g.classes && !c.isMeta && g.Sup(c) == up && c.superName.None? && (up != null ==> up in g.classes)
  }

  /** Two roots, a class below the first one, and a class below that. */
  ghost predicate Family(g: Graph, root: ObjcClass, c: ObjcClass, sub: ObjcClass, other: ObjcClass) {
    Has(g, root, null) && Has(g, c, root) && Has(g, sub, c) && Has(g, other, null) && root != other
  }

  /** A class is loaded and the others stay what they are. */
  lemma StillHas(g: Graph, g': Graph, n: ObjcClass, m: ObjcClass, c: ObjcClass, up: ObjcClass?)
    requires LoadStep(g, g', n, m) && Has(g, c, up)
    ensures Has(g', c, up)
  {
    LoadSets(g, g', n, m);
    LoadAt(g, g', n, m, c);
  }

  lemma NowHas(g: Graph, g': Graph, n: ObjcClass, m: ObjcClass)
    requires LoadStep(g, g', n, m) && n.superName.None? && (g'.Sup(n) != null ==> g'.Sup(n) in g.classes)
    ensures Has(g', n, g'.Sup(n))
  {
    LoadSets(g, g', n, m);
  }

  lemma Ups(g: Graph, c: ObjcClass, up: ObjcClass?)
    requires Has(g, c, up)
    ensures UpOf(g, c) == if up == null then Root else Via(up)
  {
  }

  lemma NothingElse(g: Graph, rank: Rank, root: ObjcClass, c: ObjcClass, sub: ObjcClass, other: ObjcClass)
    requires Ranked(g, rank) && Family(g, root, c, sub, other)
    ensures Grounded(g, rank, root) && Grounded(g, rank, c) && Grounded(g, rank, sub) && Grounded(g, rank, other)
    ensures ChainLoaded(g, rank, root) && ChainLoaded(g, rank, c) && ChainLoaded(g, rank, sub)
    ensures ChainLoaded(g, rank, other) && c !in Chain(g, rank, other)
  {
    Ups(g, root, null);
    Ups(g, c, root);
    Ups(g, sub, c);
    Ups(g, other, null);
  }

  lemma NewIsSafe(g: Graph, rank: Rank, n: ObjcClass, up: ObjcClass, upper: ObjcClass?)
    requires Ranked(g, rank) && Has(g, up, upper) && (upper != null ==> Has(g, upper, null)) && n.superName.None?
    ensures ClosesNoCycle(g, rank, n, UpOfNew(g, up, None))
  {
    Ups(g, up, upper);
    if upper != null {
      Ups(g, upper, null);
    }
  }

  /** Loads a class below one that has been loaded, or a root class. */
  method Load(t: ClassTable, name: string, up: ObjcClass?, ghost upper: ObjcClass?) returns (c: ObjcClass)
    requires t.Valid() && name !in t.table && (up == null ==> upper == null)
    requires up != null ==> Has(t.Now(), up, upper) && (upper != null ==> Has(t.Now(), upper, null))
    modifies t, t.classes
    ensures t.Valid() && c.isa != null && LoadStep(old(t.Now()), t.Now(), c, c.isa) && Has(t.Now(), c, up)
    ensures t.table == old(t.table)[name := c] && c !in old(t.classes) && fresh(t.classes - old(t.classes))
    ensures t.classes == old(t.classes) + {c, c.isa} && c.isa.isMeta
  {
    hide LoadStep, ClassTable.Valid, ClosesNoCycle, ClassTable.Now, UpOfNew, Ranked;
    t.Books();
    c := NewClass(name, up);
    NewInTable(t, c, up, upper);
    ghost var g := t.Now();
    t.LoadClass(c);
    AfterLoading(t, g, c, up);
  }

  lemma NewInTable(t: ClassTable, c: ObjcClass, up: ObjcClass?, upper: ObjcClass?)
    requires t.Valid() && c.superName.None? && c.superClass == up && (up == null ==> upper == null)
    requires up != null ==> Has(t.Now(), up, upper) && (upper != null ==> Has(t.Now(), upper, null))
    ensures Ranked(t.Now(), t.rank) && ClosesNoCycle(t.Now(), t.rank, c, UpOfNew(t.Now(), up, None))
    ensures up != null ==> !up.isMeta
  {
    if up != null {
      NewIsSafe(t.Now(), t.rank, c, up, upper);
    }
  }

  lemma AfterLoading(t: ClassTable, g: Graph, c: ObjcClass, up: ObjcClass?)
    requires t.Valid() && c.isa != null && LoadStep(g, t.Now(), c, c.isa) && c.superName.None? && c.superClass == up
    requires up != null ==> up in g.classes
    ensures Has(t.Now(), c, up) && t.table == g.table[c.name := c] && t.classes == g.classes + {c, c.isa}
    ensures c !in g.classes
  {
    hide LoadStep, Graph.Stable, Ranked;
    LoadSets(g, t.Now(), c, c.isa);
    LoadName(g, t.Now(), c, c.isa);
    t.Fields(c);
    NowHas(g, t.Now(), c, c.isa);
  }

  /** Moving a class that has a subclass below another root leaves the table in disorder. */
  method MoveUnderAnotherRoot() returns (t: ClassTable, c: ObjcClass, newSuper: ObjcClass)
    ensures c in t.classes && newSuper in t.classes && c.superClass == newSuper && !t.Valid()
  {
    hide LoadStep, ClassTable.Valid, ClassTable.Now, ClassTable.AllLoaded, Family, Graph.Stable, Ranked, SameUps, Chain,
      Grounded, SameRoot, NoSubclasses, MoveStep;
    var root, sub;
    t, root, c, sub, newSuper := LoadFamily();
    FamilyLoaded(t, root, c, sub, newSuper);
    ghost var g := t.Now();
    t.ResolveClassLinks();
    FamilyLinked(t, g, root, c, sub, newSuper);
    var was := t.SetSuperclass(c, newSuper);
  }

  method LoadFamily() returns (t: ClassTable, root: ObjcClass, c: ObjcClass, sub: ObjcClass, other: ObjcClass)
    ensures t.Valid() && Family(t.Now(), root, c, sub, other) && fresh(t) && fresh(t.classes)
    ensures forall x :: x in t.classes && !x.isMeta ==> x in {root, c, sub, other}
  {
    hide LoadStep, ClassTable.Valid, Has, ClassTable.Now;
    t := new ClassTable();
    root := Load(t, "A", null, null);
    ghost var g1 := t.Now();
    c := Load(t, "B", root, null);
    ghost var g2 := t.Now();
    StillHas(g1, g2, c, c.isa, root, null);
    sub := Load(t, "C", c, root);
    ghost var g3 := t.Now();
    StillHas(g2, g3, sub, sub.isa, root, null);
    StillHas(g2, g3, sub, sub.isa, c, root);
    other := Load(t, "D", null, null);
    StillHas(g3, t.Now(), other, other.isa, root, null);
    StillHas(g3, t.Now(), other, other.isa, c, root);
    StillHas(g3, t.Now(), other, other.isa, sub, c);
  }

  lemma FamilyLoaded(t: ClassTable, root: ObjcClass, c: ObjcClass, sub: ObjcClass, other: ObjcClass)
    requires t.Valid() && Family(t.Now(), root, c, sub, other)
    requires forall x :: x in t.classes && !x.isMeta ==> x in {root, c, sub, other}
    ensures t.AllLoaded() && {root, c, sub, other} <= t.classes
    ensures Ranked(t.Now(), t.rank) && t.Now().classes == t.classes
  {
    NothingElse(t.Now(), t.rank, root, c, sub, other);
  }

  lemma FamilyLinked(t: ClassTable, g: Graph, root: ObjcClass, c: ObjcClass, sub: ObjcClass, other: ObjcClass)
    requires t.Valid() && Family(g, root, c, sub, other) && SameUps(g, t.Now()) && Ranked(g, t.rank)
    requires forall x :: x in g.classes && !x.isMeta ==> (x.resolved <==> Grounded(g, t.rank, x))
    ensures {root, c, sub, other} <= t.classes && c.resolved && other.resolved && !c.isMeta && !other.isMeta
    ensures c.superClass == root != other && other.superClass == null && c !in Chain(t.Now(), t.rank, other)
    ensures !SameRoot(t.Now(), c, other) && !NoSubclasses(t.Now(), c)
  {
    hide Graph.Stable, Ranked, SameUps, Has, Grounded, Chain, ChainLoaded, SameRoot, NoSubclasses, ClassTable.Now;
    var g' := t.Now();
    SameHas(g, g', root, null);
    SameHas(g, g', c, root);
    SameHas(g, g', sub, c);
    SameHas(g, g', other, null);
    NothingElse(g, t.rank, root, c, sub, other);
    NothingElse(g', t.rank, root, c, sub, other);
    t.Books();
    HasNow(t, root, null);
    HasNow(t, c, root);
    HasNow(t, sub, c);
    HasNow(t, other, null);
    DifferentRoots(g', root, c, sub, other);
  }

  lemma SameHas(g: Graph, g': Graph, c: ObjcClass, up: ObjcClass?)
    requires SameUps(g, g') && Has(g, c, up)
    ensures Has(g', c, up) && c in g.classes && !c.isMeta
  {
    Ups(g, c, up);
    assert UpOf(g', c) == UpOf(g, c);
  }

  lemma HasNow(t: ClassTable, c: ObjcClass, up: ObjcClass?)
    requires Has(t.Now(), c, up)
    ensures c in t.classes && !c.isMeta && c.superClass == up && (c in t.Now().resolved <==> c.resolved)
  {
    t.Fields(c);
  }

  lemma DifferentRoots(g: Graph, root: ObjcClass, c: ObjcClass, sub: ObjcClass, other: ObjcClass)
    requires g.Stable() && Family(g, root, c, sub, other) && {root, c, sub, other} <= g.resolved
    ensures !SameRoot(g, c, other) && !NoSubclasses(g, c)
  {
    hide Graph.PendingOk, Graph.TreeOk, Graph.KidsOk, Graph.PairsOk, Graph.MetasOk;
    StableFacts(g);
    MetasFact(g, root);
    MetasFact(g, c);
    MetasFact(g, other);
    PairFacts(g, root, other);
    assert g.Sup(sub) == c;
  }
}
