/**
 The operations on the class table: loading, resolving and re-parenting classes.
 */
module ClassTables {
  import opened Wrappers
  import opened ClassGraph
  import opened ClassLinking
  import opened Hierarchy
  import opened Reparenting

  ghost function IsaField(classes: set<ObjcClass>): Field
    reads classes`isa
  {
    map c | c in classes :: c.isa
  }

  ghost function SupField(classes: set<ObjcClass>): Field
    reads classes`superClass
  {
    map c | c in classes :: c.superClass
  }

  ghost function SubField(classes: set<ObjcClass>): Field
    reads classes`subclassList
  {
    map c | c in classes :: c.subclassList
  }

  ghost function SibField(classes: set<ObjcClass>): Field
    reads classes`sibling
  {
    map c | c in classes :: c.sibling
  }

  ghost function ResolvedSet(classes: set<ObjcClass>): set<ObjcClass>
    reads classes`resolved
  {
    set c | c in classes && c.resolved
  }

  class ClassTable {
    /** Head of the list of unresolved classes. */
    var unresolvedList: ObjcClass?
    var table: map<string, ObjcClass>
    ghost var classes: set<ObjcClass>
    ghost var pending: seq<ObjcClass>
    ghost var tree: set<ObjcClass>
    ghost var kids: map<ObjcClass, seq<ObjcClass>>
    ghost var rank: Rank

    ghost function Now(): Graph
      reads this, classes
    {
      Graph(classes, IsaField(classes), SupField(classes), SubField(classes), SibField(classes), ResolvedSet(classes),
            unresolvedList, table, pending, tree, kids)
    }

    ghost predicate Valid()
      reads this, classes
    {
      Now().Stable() && Ranked(Now(), rank)
    }

    constructor ()
      ensures Valid() && classes == {} && table == map[] && unresolvedList == null
    {
      unresolvedList, table, classes, pending, tree, kids, rank := null, map[], {}, [], {}, map[], map[];
    }

    /**
     Following `subclassList` and then `sibling` from a resolved class visits exactly the
     resolved classes whose superclass it is, once each, and ends.
     */
    lemma SubclassListIsExact(c: ObjcClass)
      requires Valid() && c in classes && c.resolved
      ensures c in kids && c.subclassList == At(kids[c], 0) && Distinct(kids[c])
      ensures forall i :: 0 <= i < |kids[c]| ==> kids[c][i].sibling == At(kids[c], i + 1)
      ensures forall d :: d in kids[c] <==> d in classes && d.resolved && d.superClass == c
    {
      var g := Now();
      Fields(c);
      KidsAreLinked(g, c);
      KidsDistinct(g);
      assert g.ListsKids(c);
      forall i | 0 <= i < |kids[c]|
        ensures kids[c][i].sibling == At(kids[c], i + 1)
      {
        assert g.KidAt(c, i) && kids[c][i] in kids[c];
        Fields(kids[c][i]);
      }
      forall d | d in classes
        ensures d in kids[c] <==> d.resolved && d.superClass == c
      {
        Fields(d);
        assert d in tree ==> g.IsKid(d);
      }
    }

    /** The root of the hierarchy that a linked class belongs to. */
    ghost function RootOf(c: ObjcClass): (r: ObjcClass)
      requires Valid() && c in tree && !c.isMeta
      reads this, classes
      ensures r in tree && !r.isMeta && r in classes && r.superClass == null
      decreases rank[c]
    {
      UpFacts(c);
      if c.superClass == null then c else RootOf(c.superClass)
    }

    /**
     The metaclasses mirror the classes: the superclass of a metaclass is the metaclass
     of the superclass, or the root class itself at the root, and every metaclass is an
     instance of the metaclass of the root.
     */
    lemma {:induction false} MetaclassesMirror(c: ObjcClass)
      requires Valid() && c in tree && !c.isMeta
      ensures c in classes && c.isa != null && c.isa in tree
      ensures c.superClass != null ==> c.superClass in tree && c.isa.superClass == c.superClass.isa
      ensures c.superClass == null ==> c.isa.superClass == c
      ensures c.isa.isa == RootOf(c).isa
      decreases rank[c]
    {
      UpFacts(c);
      Fields(c.isa);
      assert Now().Paired(c);
      if c.superClass != null {
        MetaclassesMirror(c.superClass);
        UpFacts(c.superClass);
        Fields(c.superClass.isa);
      }
    }

    lemma Fields(c: ObjcClass)
      requires c in classes
      ensures Now().Isa(c) == c.isa && Now().Sup(c) == c.superClass
      ensures Now().Sub(c) == c.subclassList && Now().Sib(c) == c.sibling
      ensures c in Now().resolved <==> c.resolved
    {
    }

    // ----- the steps of resolving a class -----

    /** Links the neighbours of a class in the list of unresolved classes to each other. */
    method Bypass(cls: ObjcClass)
      requires cls in classes
      requires cls.sibling != null ==> cls.sibling in classes && cls.sibling != cls
      requires cls.subclassList != null ==> cls.subclassList in classes && cls.subclassList != cls
      modifies this`unresolvedList, classes`subclassList, classes`sibling
      ensures unresolvedList == if old(cls.sibling) == null then old(cls.subclassList) else old(unresolvedList)
      ensures SubField(classes) == (if old(cls.sibling) == null then old(SubField(classes))
        else old(SubField(classes))[old(cls.sibling) := old(cls.subclassList)])[cls := null]
      ensures SibField(classes) == (if old(cls.subclassList) == null then old(SibField(classes))
        else old(SibField(classes))[old(cls.subclassList) := old(cls.sibling)])[cls := null]
    {
      if cls.sibling == null {
        unresolvedList := cls.subclassList;
      } else {
        cls.sibling.subclassList := cls.subclassList;
      }
      if cls.subclassList != null {
        cls.subclassList.sibling := cls.sibling;
      }
      cls.sibling := null;
      cls.subclassList := null;
    }

    /** Takes a class out of the list of unresolved classes. */
    method Unlink(cls: ObjcClass, ghost k: nat)
      requires Now().Complete() && cls in classes && k < |pending| && pending[k] == cls
      requires cls.sibling != null ==> cls.sibling in classes && cls.sibling != cls
      requires cls.subclassList != null ==> cls.subclassList in classes && cls.subclassList != cls
      modifies this`unresolvedList, this`pending, classes`subclassList, classes`sibling
      ensures UnlinkStep(old(Now()), Now(), cls, k)
    {
      hide Graph.Complete, Follow, UnlinkStep, IsaField, SupField, SubField, SibField, ResolvedSet;
      ghost var g := Now();
      Fields(cls);
      Bypass(cls);
      pending := Without(pending, k);
      UnlinkMade(g, Now(), cls, k);
    }

    method LinkFirst(cls: ObjcClass, parent: ObjcClass)
      requires cls in classes && parent in classes
      modifies cls`sibling, parent`subclassList
      ensures SibField(classes) == old(SibField(classes))[cls := old(SubField(classes))[parent]]
      ensures SubField(classes) == old(SubField(classes))[parent := cls]
    {
      cls.sibling := parent.subclassList;
      parent.subclassList := cls;
    }

    /** Makes a class the first subclass of `parent`. */
    method Prepend(cls: ObjcClass, parent: ObjcClass)
      requires Now().Complete() && cls in classes && parent in classes && parent in kids
      modifies this`tree, this`kids, cls`sibling, parent`subclassList
      ensures PrependStep(old(Now()), Now(), cls, parent)
    {
      hide Graph.Complete, Follow, PrependStep, IsaField, SupField, SubField, SibField, ResolvedSet;
      ghost var g := Now();
      Fields(cls);
      Fields(parent);
      LinkFirst(cls, parent);
      tree, kids := tree + {cls}, kids[parent := [cls] + kids[parent]];
      PrependMade(g, Now(), cls, parent);
    }

    method SetBoth(meta: ObjcClass, superMeta: ObjcClass?, metaMeta: ObjcClass?)
      requires meta in classes
      modifies meta`superClass, meta`isa
      ensures SupField(classes) == old(SupField(classes))[meta := superMeta]
      ensures IsaField(classes) == old(IsaField(classes))[meta := metaMeta]
    {
      meta.superClass := superMeta;
      meta.isa := metaMeta;
    }

    /** Fills in the superclass and the class of a metaclass. */
    method SetMeta(meta: ObjcClass, superMeta: ObjcClass?, metaMeta: ObjcClass?)
      requires Now().Complete() && meta in classes
      modifies meta`superClass, meta`isa
      ensures MetaStep(old(Now()), Now(), meta, superMeta, metaMeta)
    {
      hide Graph.Complete, Follow, MetaStep, IsaField, SupField, SubField, SibField, ResolvedSet;
      ghost var g := Now();
      SetBoth(meta, superMeta, metaMeta);
      MetaMade(g, Now(), meta, superMeta, metaMeta);
    }

    method SetResolved(cls: ObjcClass, meta: ObjcClass)
      requires cls in classes && meta in classes
      modifies cls`resolved, meta`resolved
      ensures ResolvedSet(classes) == old(ResolvedSet(classes)) + {cls, meta}
    {
      cls.resolved := true;
      meta.resolved := true;
    }

    /** Marks a class and its metaclass as resolved. */
    method Mark(cls: ObjcClass, meta: ObjcClass)
      requires Now().Complete() && cls in classes && meta in classes
      modifies cls`resolved, meta`resolved
      ensures MarkStep(old(Now()), Now(), cls, meta)
    {
      hide IsaField, SupField, SubField, SibField, ResolvedSet;
      SetResolved(cls, meta);
    }

    /** A root class enters the tree; no field changes. */
    ghost method Enter(cls: ObjcClass)
      requires Now().Complete() && cls in classes
      modifies this`tree
      ensures RootStep(old(Now()), Now(), cls)
    {
      hide IsaField, SupField, SubField, SibField, ResolvedSet;
      tree := tree + {cls};
    }

    /** Walks up to the root class; all metaclasses are instances of its metaclass. */
    method RootMeta(cls: ObjcClass) returns (metaMeta: ObjcClass?)
      requires Valid() && cls in classes && !cls.isMeta
      requires cls.superClass != null && cls.superClass in tree && !cls.superClass.isMeta
      ensures metaMeta == MetaMeta(Now(), cls)
    {
      var sup := cls.superClass;
      metaMeta := sup.isa;
      ghost var g := Now();
      Fields(cls);
      UpFacts(sup);
      while sup.superClass != null
        invariant sup in classes && sup in tree && !sup.isMeta && metaMeta == sup.isa
        invariant g.Isa(sup.isa) == MetaMeta(g, cls)
        decreases rank[sup]
      {
        UpFacts(sup);
        sup := sup.superClass;
        metaMeta := sup.isa;
      }
      UpFacts(sup);
    }

    /** What is known about a linked class and its superclass. */
    lemma UpFacts(c: ObjcClass)
      requires Valid() && c in tree && !c.isMeta
      ensures c in classes && Now().Isa(c) == c.isa && Now().Sup(c) == c.superClass && Now().MetaOk(c)
      ensures c in rank && c.isa != null && c.isa in classes
      ensures c.superClass != null ==>
        c.superClass in tree && c.superClass in rank && !c.superClass.isMeta && rank[c.superClass] < rank[c]
      ensures c.superClass != null ==> Now().Isa(c.superClass) == c.superClass.isa
    {
      assert Now().IsKid(c) && Now().Paired(c);
      assert UpOf(Now(), c).Via? ==> UpOf(Now(), c).sup == c.superClass;
    }

    lemma Books()
      ensures Now().classes == classes && Now().tree == tree && Now().kids == kids
      ensures Now().pending == pending && Now().table == table
    {
    }

    /** The class and superclass that the metaclass of `cls` is to have. */
    method MetaLinks(cls: ObjcClass, ghost k: nat) returns (superMeta: ObjcClass, metaMeta: ObjcClass?)
      requires Valid() && cls in classes && Ready(Now(), cls, k)
      ensures superMeta == SuperMeta(Now(), cls) && metaMeta == MetaMeta(Now(), cls)
    {
      hide Graph.Stable, Ranked, Ready, ClassTable.Now;
      ReadyFacts(Now(), cls, k);
      Fields(cls);
      Books();
      superMeta := cls;
      metaMeta := cls.isa;
      if cls.superClass != null {
        Fields(cls.superClass);
        superMeta := cls.superClass.isa;
        metaMeta := RootMeta(cls);
      }
    }

    /** The first half of linking a class: it leaves the list and its metaclass is filled in. */
    method Detach(cls: ObjcClass, ghost k: nat) returns (superMeta: ObjcClass, ghost g1: Graph)
      requires Valid() && cls in classes && Ready(Now(), cls, k)
      modifies this`unresolvedList, this`pending, classes`subclassList, classes`sibling, classes`superClass, classes`isa
      ensures superMeta == SuperMeta(old(Now()), cls) && old(Now()).Isa(cls) != null
      ensures UnlinkStep(old(Now()), g1, cls, k)
      ensures MetaStep(g1, Now(), old(Now()).Isa(cls), superMeta, MetaMeta(old(Now()), cls))
    {
      hide Graph.Stable, Ranked, Ready, UnlinkStep, MetaStep, ClassTable.Now, SuperMeta, MetaMeta;
      ghost var g := Now();
      ReadyFacts(g, cls, k);
      ReadyNeighbours(g, cls, k);
      Fields(cls);
      Books();
      var meta := cls.isa;
      var metaMeta: ObjcClass?;
      superMeta, metaMeta := MetaLinks(cls, k);
      Unlink(cls, k);
      g1 := Now();
      AfterUnlink(g, g1, cls, k);
      SetMeta(meta, superMeta, metaMeta);
    }

    /** The class joins the tree. */
    method AttachClass(cls: ObjcClass)
      requires Now().Complete() && cls in classes
      requires cls.superClass != null ==> cls.superClass in classes
      modifies this`tree, this`kids, classes`sibling, classes`subclassList
      ensures Now().Complete() && old(cls.superClass) == old(Now()).Sup(cls)
      ensures var sup := old(cls.superClass);
        if sup == null then RootStep(old(Now()), Now(), cls) else PrependStep(old(Now()), Now(), cls, sup)
    {
      hide PrependStep, RootStep, ClassTable.Now, Follow;
      ghost var g := Now();
      Fields(cls);
      Books();
      if cls.superClass == null {
        Enter(cls);
        AfterRoot(g, Now(), cls);
      } else {
        Prepend(cls, cls.superClass);
        AfterPrepend(g, Now(), cls, cls.superClass);
      }
    }

    /** The second half: the class and its metaclass join the tree. */
    method Attach(cls: ObjcClass, meta: ObjcClass, superMeta: ObjcClass) returns (ghost g3: Graph, ghost g4: Graph)
      requires Now().Complete() && cls in classes && meta in classes && superMeta in classes
      requires cls.superClass != null ==> cls.superClass in classes
      modifies this`tree, this`kids, classes`sibling, classes`subclassList, classes`resolved
      ensures old(cls.superClass) == old(Now()).Sup(cls)
      ensures var sup := old(cls.superClass);
        if sup == null then RootStep(old(Now()), g3, cls) else PrependStep(old(Now()), g3, cls, sup)
      ensures PrependStep(g3, g4, meta, superMeta) && MarkStep(g4, Now(), cls, meta)
    {
      hide PrependStep, RootStep, MarkStep, ClassTable.Now, Follow;
      AttachClass(cls);
      g3 := Now();
      Books();
      Prepend(meta, superMeta);
      g4 := Now();
      AfterPrepend(g3, g4, meta, superMeta);
      Mark(cls, meta);
    }

    /** Links a class whose superclass is linked. */
    method LinkClass(cls: ObjcClass, ghost k: nat)
      requires Valid() && cls in classes && Ready(Now(), cls, k)
      requires cls.superClass == null ==> cls.superName.None?
      modifies this`unresolvedList, this`pending, this`tree, this`kids, classes
      ensures Valid() && Summary(old(Now()), Now(), cls) && pending == Without(old(pending), k)
      ensures SameUps(old(Now()), Now())
    {
      hide Graph.Stable, Ranked, Ready, UnlinkStep, MetaStep, RootStep, PrependStep, MarkStep, Summary, SameUps,
        ClassTable.Now, SuperMeta, MetaMeta, Graph.Complete, Follow, Graph.TreeOk, Graph.PendingOk, Without;
      ghost var g := Now();
      ReadyFacts(g, cls, k);
      Fields(cls);
      Books();
      var meta := cls.isa;
      var superMeta;
      ghost var g1, g3, g4;
      superMeta, g1 := Detach(cls, k);
      ghost var g2 := Now();
      DetachedFields(g, g1, g2, cls, k);
      Fields(cls);
      Books();
      g3, g4 := Attach(cls, meta, superMeta);
      ResolvedStable(g, g1, g2, g3, g4, Now(), cls, k);
      LinkedKeepsUps(g, Now(), rank, cls);
      Books();
    }

    /** Where a class that is not resolved stands in the list. */
    ghost function PlaceOf(c: ObjcClass): (k: nat)
      requires Valid() && c in classes && !c.isMeta && !c.resolved
      reads this, classes
      ensures k < |pending| && pending[k] == c
    {
      assert Now().Waiting(c);
      var k :| 0 <= k < |pending| && pending[k] == c;
      k
    }

    lemma ReadyToLink(c: ObjcClass)
      requires Valid() && c in classes && !c.isMeta && !c.resolved
      requires c.superClass != null ==> c.superClass in classes && c.superClass.resolved
      ensures Ready(Now(), c, PlaceOf(c))
    {
    }

    /** Notes the superclass of a legacy class, which has been found by name. */
    method NoteSuper(cls: ObjcClass, sup: ObjcClass)
      requires Valid() && cls in classes && !cls.isMeta && !cls.resolved && UpOf(Now(), cls) == Via(sup)
      modifies cls`superClass
      ensures Valid() && SameUps(old(Now()), Now()) && cls.superClass == sup
    {
      hide Graph.Stable, Ranked, SameUps, IsaField, SupField, SubField, SibField, ResolvedSet;
      ghost var g := Now();
      NoteFacts(cls);
      SetSuper(cls, sup);
      FoundKeepsStable(g, Now(), cls, sup);
      FoundKeepsUps(g, Now(), rank, cls, sup);
    }

    method SetSuper(cls: ObjcClass, sup: ObjcClass)
      requires cls in classes
      modifies cls`superClass
      ensures SupField(classes) == old(SupField(classes))[cls := sup] && cls.superClass == sup
    {
      cls.superClass := sup;
    }

    lemma NoteFacts(c: ObjcClass)
      requires Valid() && c in classes && !c.isMeta && !c.resolved
      ensures c !in Now().tree && Now().Complete() && Now().classes == classes && Now().tree == tree
      ensures UpOf(Now(), c).Via? ==> UpOf(Now(), c).sup in classes && !UpOf(Now(), c).sup.isMeta
    {
    }

    lemma ClassFacts(c: ObjcClass)
      requires Valid() && c in classes && !c.isMeta
      ensures c in rank && Now().classes == classes && Now().tree == tree && (c.resolved <==> c in tree)
      ensures UpOf(Now(), c) ==
        if c.superClass != null then (if c.superClass in classes then Via(c.superClass) else Absent(c.superClass))
        else if c.superName.None? then Root
        else if c.superName.value in table then Via(table[c.superName.value]) else Missing
      ensures UpOf(Now(), c).Via? ==> UpOf(Now(), c).sup in classes && !UpOf(Now(), c).sup.isMeta
      ensures UpOf(Now(), c).Via? ==> UpOf(Now(), c).sup in rank && rank[UpOf(Now(), c).sup] < rank[c]
    {
    }

    /** The superclass of a class whose chain has been loaded. */
    lemma LoadedAbove(c: ObjcClass)
      requires Valid() && c in classes && !c.isMeta && ChainLoaded(Now(), rank, c)
      ensures c.superClass != null ==>
        c.superClass in classes && !c.superClass.isMeta && ChainLoaded(Now(), rank, c.superClass)
    {
      ClassFacts(c);
    }

    /** Resolving the superclass leaves the class itself unresolved. */
    lemma StillUnresolved(g: Graph, c: ObjcClass)
      requires Valid() && Ranked(g, rank) && c in classes && !c.isMeta && c !in g.tree
      requires c in g.classes && UpOf(g, c).Via? && Attempted(g, Now(), rank, UpOf(g, c).sup, true)
      ensures !c.resolved && (g.Sup(c) != null ==> c.superClass == g.Sup(c))
    {
      ChainRank(g, rank, UpOf(g, c).sup);
      Fields(c);
      ClassFacts(c);
    }

    /**
     Resolves a class and, first, its superclasses.  It fails, having resolved nothing,
     exactly when the chain of superclasses comes to a name that is not registered.  All
     superclasses given by pointer have been loaded: the links of a class that has not
     would be taken for those of the list of unresolved classes.
     */
    method ResolveClass(cls: ObjcClass) returns (ok: bool)
      requires Valid() && cls in classes && !cls.isMeta && ChainLoaded(Now(), rank, cls)
      modifies this`unresolvedList, this`pending, this`tree, this`kids, classes
      ensures Valid() && Attempted(old(Now()), Now(), rank, cls, ok) && (ok ==> cls.resolved)
      decreases rank[cls], if cls.superClass == null then 1 else 0
    {
      hide Graph.Stable, Ranked, ClassTable.Now, Attempted, Ready, Summary, SameUps, UpOf, ChainLoaded;
      ghost var g := Now();
      ClassFacts(cls);
      LoadedAbove(cls);
      Books();
      if cls.resolved {
        AttemptedNothing(g, rank, cls, true);
        return true;
      }
      if cls.superClass != null {
        ClassFacts(cls.superClass);
        Fields(cls);
        if cls.superClass.resolved {
          AttemptedNothing(g, rank, cls.superClass, true);
        } else {
          ok := ResolveClass(cls.superClass);
          if !ok {
            AttemptFails(g, Now(), rank, cls);
            return false;
          }
        }
        StillUnresolved(g, cls);
      } else if cls.superName.Some? {
        if cls.superName.value !in table {
          AttemptedNothing(g, rank, cls, false);
          return false;
        }
        NoteSuper(cls, table[cls.superName.value]);
        ghost var g1 := Now();
        SameGrounded(g, g1, rank, cls);
        Books();
        ok := ResolveClass(cls);
        AttemptAfterNote(g, g1, Now(), rank, cls, ok);
        return ok;
      }
      ghost var g1, k := Now(), PlaceOf(cls);
      ReadyToLink(cls);
      Books();
      LinkClass(cls, k);
      Books();
      AttemptedAbove(g, g1, Now(), rank, cls, k);
      SummarySets(g1, Now(), cls);
      Fields(cls);
      return true;
    }

    lemma PassFacts()
      requires Valid()
      ensures Now().PendingOk(null) && Distinct(pending) && InOrder(pending, pending) && Now().pending == pending
      ensures unresolvedList == At(pending, 0)
      ensures forall c :: c in pending ==> c in classes && !c.isMeta && !c.resolved
      ensures forall c :: c in classes && !c.isMeta && !c.resolved ==> c in pending
      ensures Ranked(Now(), rank) && Now().classes == classes && Now().Stable()
    {
      InOrderSelf(pending);
      forall c | c in pending
        ensures c in classes && !c.isMeta && !c.resolved
      {
        assert Now().Waiting(c);
      }
      forall c | c in classes && !c.isMeta && !c.resolved
        ensures c in pending
      {
        assert Now().Waiting(c);
      }
    }

    /** What an attempt to resolve `c` means for the pass it is part of. */
    lemma PassStep(g: Graph, g1: Graph, c: ObjcClass, ok: bool)
      requires Valid() && g.Stable() && Ranked(g, rank) && g1.Stable() && Ranked(g1, rank)
      requires SameUps(g, g1) && InOrder(g1.pending, g.pending) && c in g1.pending && c in g1.classes && !c.isMeta
      requires Attempted(g1, Now(), rank, c, ok) && (ok ==> c.resolved)
      ensures SameUps(g, Now()) && InOrder(pending, g.pending) && c in g.classes && c in classes && c.resolved == ok
      ensures ok == Grounded(g, rank, c)
      ensures if ok then |pending| < |g.pending| else pending == g1.pending
      ensures |pending| <= |g.pending|
    {
      hide Graph.Stable, Ranked, Now, SameUps, UpOf, InOrder, Grounded, Distinct;
      PassFacts();
      AttemptFacts(g1, rank, c, ok);
      WaitingFacts(g, c);
      WaitingFacts(g1, c);
      SameUpsClasses(g, g1);
      SameGrounded(g, g1, rank, c);
      SameUpsTransitive(g, g1, Now());
      InOrderTransitive(pending, g1.pending, g.pending);
      InOrderShorter(pending, g.pending);
      InOrderMember(g1.pending, g.pending, c);
    }

    lemma WaitingFacts(g: Graph, c: ObjcClass)
      requires g.Stable()
      ensures Distinct(g.pending) && (c in g.pending ==> c in g.classes && c !in g.tree && !c.isMeta)
    {
      assert c in g.pending ==> g.Waiting(c);
    }

    lemma AttemptFacts(g: Graph, rank: Rank, c: ObjcClass, ok: bool)
      requires Valid() && Ranked(g, rank) && c in g.classes && !c.isMeta && Attempted(g, Now(), rank, c, ok)
      ensures SameUps(g, Now()) && InOrder(pending, g.pending) && c in classes && classes == g.classes
      ensures c in tree <==> c.resolved
      ensures ok == Grounded(g, rank, c) && (!ok ==> pending == g.pending && tree == g.tree)
    {
    }

    /** Attempts to resolve one class of the list; `g` is the state in which the pass began. */
    method TryResolve(cls: ObjcClass, ghost g: Graph, ghost i: nat) returns (next: ObjcClass?, ghost j: nat)
      requires Valid() && g.Stable() && Ranked(g, rank) && SameUps(g, Now()) && InOrder(pending, g.pending)
      requires cls in pending && i < |g.pending| && g.pending[i] == cls && Loadable(g, rank, cls)
      modifies this`unresolvedList, this`pending, this`tree, this`kids, classes
      ensures Valid() && SameUps(g, Now()) && InOrder(pending, g.pending) && |pending| <= |g.pending|
      ensures next != null ==> i < j < |g.pending| && g.pending[j] == next
      ensures old(pending) == g.pending ==> j == i + 1 && next == At(g.pending, i + 1)
      ensures cls.resolved == Grounded(g, rank, cls)
      ensures if cls.resolved then |pending| < |g.pending| else pending == old(pending)
    {
      hide Graph.Stable, Ranked, ClassTable.Now, Attempted, SameUps, UpOf, InOrder, Grounded, Distinct, ChainLoaded;
      PassFacts();
      Fields(cls);
      SameGrounded(g, Now(), rank, cls);
      next := cls.subclassList;
      j := NextPlace(Now(), g.pending, cls, i);
      ghost var g1 := Now();
      var ok := ResolveClass(cls);
      PassStep(g, g1, cls, ok);
    }

    lemma PassStart()
      requires Valid()
      ensures unresolvedList == At(pending, 0) && InOrder(pending, pending) && Distinct(pending)
      ensures Now().Stable() && Ranked(Now(), rank) && Now().pending == pending && Now().classes == classes
      ensures forall c :: c in pending ==> c in classes && !c.isMeta
    {
      PassFacts();
    }

    /** A class of the list that the pass began with is still in the list unless it has been resolved. */
    lemma MemberFacts(p: seq<ObjcClass>, g: Graph, c: ObjcClass, i: nat)
      requires Valid() && SameUps(g, Now()) && i < |p| && p[i] == c
      requires forall x :: x in p ==> x in g.classes && !x.isMeta
      ensures c in classes && !c.isMeta && (c.resolved <==> c !in pending)
    {
      PassFacts();
      SameUpsClasses(g, Now());
    }

    /** No unresolved class waits for a superclass that is given by pointer and has not been loaded. */
    ghost predicate AllLoaded()
      requires Valid()
      reads this, classes
    {
      forall c :: c in classes && !c.isMeta ==> ChainLoaded(Now(), rank, c)
    }

    /** One pass over the list; it tells whether it resolved anything. */
    method ResolvePass() returns (resolvedClass: bool)
      requires Valid() && AllLoaded()
      modifies this`unresolvedList, this`pending, this`tree, this`kids, classes
      ensures Valid() && SameUps(old(Now()), Now()) && AllLoaded()
      ensures resolvedClass ==> |pending| < |old(pending)|
      ensures !resolvedClass ==> pending == old(pending)
      ensures Distinct(old(pending)) && forall c :: c in old(pending) ==> c in classes && !c.isMeta
      ensures !resolvedClass ==> forall c :: c in pending ==> !Grounded(old(Now()), rank, c)
    {
      hide Graph.Stable, Ranked, ClassTable.Now, Attempted, SameUps, UpOf, InOrder, Grounded, Distinct, ChainLoaded;
      ghost var g, p, i := Now(), pending, 0;
      PassStart();
      SameUpsSelf(g);
      var cls := unresolvedList;
      resolvedClass := false;
      while cls != null
        invariant Valid() && SameUps(g, Now()) && InOrder(pending, p)
        invariant 0 <= i && (cls != null ==> i < |p| && p[i] == cls)
        invariant if resolvedClass then |pending| < |p| else pending == p && cls == At(p, i)
        invariant !resolvedClass ==> forall j :: 0 <= j < i && j < |p| ==> !Grounded(g, rank, p[j])
        decreases if cls == null then 0 else |p| - i
      {
        MemberFacts(p, g, cls, i);
        if cls.resolved {
          // The class was resolved as the superclass of another one; its links are no
          // longer those of the list.
          assert resolvedClass;
          break;
        }
        var next;
        ghost var j;
        next, j := TryResolve(cls, g, i);
        if resolvedClass || cls.resolved {
          resolvedClass := true;
        }
        cls := next;
        i := j;
      }
      StaysLoaded(g);
    }

    /**
     Resolves all classes that can be resolved: those whose chain of superclasses ends at
     a root class.  The others stay in the list.
     */
    method ResolveClassLinks()
      requires Valid() && AllLoaded()
      modifies this`unresolvedList, this`pending, this`tree, this`kids, classes
      ensures Valid() && SameUps(old(Now()), Now())
      ensures forall c :: c in classes && !c.isMeta ==> (c.resolved <==> Grounded(old(Now()), rank, c))
      ensures forall c :: c in pending <==> c in classes && !c.isMeta && !Grounded(old(Now()), rank, c)
    {
      hide Graph.Stable, Ranked, ClassTable.Now, SameUps, Grounded, Distinct, AllLoaded;
      ghost var g := Now();
      SameUpsSelf(g);
      Books();
      var resolvedClass := true;
      while resolvedClass
        invariant Valid() && SameUps(g, Now()) && Now().classes == classes && AllLoaded()
        invariant !resolvedClass ==> forall c :: c in pending ==> c in classes && !c.isMeta && !Grounded(Now(), rank, c)
        decreases |pending|, resolvedClass
      {
        ghost var g1 := Now();
        resolvedClass := ResolvePass();
        SameUpsTransitive(g, g1, Now());
        PassGrounded(g1);
        Books();
      }
      SameUpsClasses(g, Now());
      Books();
      forall c | c in classes && !c.isMeta
        ensures c.resolved <==> Grounded(g, rank, c)
        ensures c in pending <==> !c.resolved
      {
        ResolvedIffGrounded(g, c);
      }
      PassFacts();
    }

    lemma StaysLoaded(g: Graph)
      requires Valid() && Ranked(g, rank) && SameUps(g, Now())
      requires forall c :: c in g.classes && !c.isMeta ==> ChainLoaded(g, rank, c)
      ensures AllLoaded()
    {
      hide Graph.Stable, Ranked, ClassTable.Now, SameUps, ChainLoaded;
      SameUpsClasses(g, Now());
      Books();
      forall c | c in classes && !c.isMeta
        ensures ChainLoaded(Now(), rank, c)
      {
        SameGrounded(g, Now(), rank, c);
      }
    }

    lemma PassGrounded(g: Graph)
      requires Valid() && Ranked(g, rank) && SameUps(g, Now())
      ensures forall c :: c in classes && !c.isMeta ==>
        c in g.classes && Grounded(Now(), rank, c) == Grounded(g, rank, c)
    {
      hide Graph.Stable, Ranked, ClassTable.Now, SameUps, Grounded;
      SameUpsClasses(g, Now());
      Books();
      forall c | c in classes && !c.isMeta
        ensures Grounded(Now(), rank, c) == Grounded(g, rank, c)
      {
        SameGrounded(g, Now(), rank, c);
      }
    }

    lemma ResolvedIffGrounded(g: Graph, c: ObjcClass)
      requires Valid() && Ranked(g, rank) && SameUps(g, Now()) && c in classes && !c.isMeta && c in g.classes
      requires c in pending ==> !Grounded(Now(), rank, c)
      ensures c.resolved <==> Grounded(g, rank, c)
      ensures c in pending <==> !c.resolved
    {
      PassFacts();
      ClassFacts(c);
      SameGrounded(g, Now(), rank, c);
      if c.resolved {
        LinkedIsGrounded(Now(), rank, c);
      }
    }

    // ----- loading a class -----

    lemma HeadIn()
      requires Valid()
      ensures Now().Complete() && Now().head == unresolvedList
      ensures unresolvedList != null ==> unresolvedList in classes
    {
      PassFacts();
    }

    /** The two ends of the link between the head of the list and the class before it. */
    method PutFirst(cls: ObjcClass)
      requires cls !in classes && (unresolvedList != null ==> unresolvedList in classes)
      modifies this`unresolvedList, cls`subclassList, classes`sibling
      ensures unresolvedList == cls && cls.subclassList == old(unresolvedList)
      ensures SibField(classes) ==
        if old(unresolvedList) == null then old(SibField(classes))
        else old(SibField(classes))[old(unresolvedList) := cls]
    {
      // A class that has just been loaded may hold anything in this field.
      cls.subclassList := null;
      if unresolvedList != null {
        unresolvedList.sibling := cls;
      }
      cls.subclassList := unresolvedList;
      unresolvedList := cls;
    }

    method Enroll(cls: ObjcClass, meta: ObjcClass)
      requires cls !in classes && meta !in classes && cls != meta
      requires unresolvedList != null ==> unresolvedList in classes
      modifies this`unresolvedList, this`table, cls`subclassList, meta`superClass, classes`sibling
      ensures unresolvedList == cls && cls.subclassList == old(unresolvedList) && table == old(table)[cls.name := cls]
      ensures IsaField(classes) == old(IsaField(classes)) && SupField(classes) == old(SupField(classes))
      ensures SubField(classes) == old(SubField(classes)) && ResolvedSet(classes) == old(ResolvedSet(classes))
      ensures SibField(classes) ==
        if old(unresolvedList) == null then old(SibField(classes))
        else old(SibField(classes))[old(unresolvedList) := cls]
      ensures cls.sibling == old(cls.sibling) && meta.sibling == old(meta.sibling)
      ensures cls.superClass == old(cls.superClass)
      ensures meta.superClass == if cls.superClass == null then cls else old(meta.superClass)
    {
      hide IsaField, SupField, SubField, SibField, ResolvedSet;
      PutFirst(cls);
      table := table[cls.name := cls];
      if cls.superClass == null {
        meta.superClass := cls;
      }
    }

    /** Puts a class at the front of the list of unresolved classes and registers it. */
    method Insert(cls: ObjcClass)
      requires cls !in classes && cls.isa != null && cls.isa !in classes && cls != cls.isa
      requires cls.sibling == null && cls.isa.subclassList == null && !cls.resolved && !cls.isa.resolved
      requires unresolvedList != null ==> unresolvedList in classes
      modifies this`unresolvedList, this`table, this`classes, this`pending, this`kids
      modifies cls`subclassList, cls.isa`superClass, classes`sibling
      ensures cls.isa == old(cls.isa) && cls.isa != null
      ensures unresolvedList == cls && table == old(table)[cls.name := cls]
      ensures tree == old(tree) && rank == old(rank) && cls.superClass == old(cls.superClass)
      ensures classes == old(classes) + {cls, cls.isa} && pending == [cls] + old(pending)
      ensures kids == old(kids)[cls := []][cls.isa := []]
      ensures Now() ==
        Loaded(old(Now()), cls, cls.isa, cls.superClass, cls.isa.superClass, cls.isa.isa, cls.isa.sibling)
    {
      hide IsaField, SupField, SubField, SibField, ResolvedSet;
      ghost var meta := cls.isa;
      Enroll(cls, cls.isa);
      AddedFields(classes, cls, meta);
      classes, pending, kids := classes + {cls, meta}, [cls] + pending, kids[cls := []][meta := []];
    }

    lemma AddedFields(all: set<ObjcClass>, c: ObjcClass, m: ObjcClass)
      requires c !in all && m !in all && c != m && !c.resolved && !m.resolved
      ensures IsaField(all + {c, m}) == IsaField(all)[c := c.isa][m := m.isa]
      ensures SupField(all + {c, m}) == SupField(all)[c := c.superClass][m := m.superClass]
      ensures SubField(all + {c, m}) == SubField(all)[c := c.subclassList][m := m.subclassList]
      ensures SibField(all + {c, m}) == SibField(all)[c := c.sibling][m := m.sibling]
      ensures ResolvedSet(all + {c, m}) == ResolvedSet(all)
    {
    }

    /**
     Loads a class unless its name is taken.  What is required of `cls` is what the
     compiler provides; its superclass may be loaded later, whether it is given by name or
     by pointer, but the classes must not end up in a cycle.
     */
    method LoadClass(cls: ObjcClass)
      requires Valid() && cls !in classes && !cls.isMeta && cls.isa != null && cls.isa !in classes && cls.isa.isMeta
      requires cls.sibling == null && cls.isa.subclassList == null && !cls.resolved && !cls.isa.resolved
      requires cls.superClass != null ==> !cls.superClass.isMeta
      requires ClosesNoCycle(Now(), rank, cls, UpOfNew(Now(), cls.superClass, cls.superName))
      modifies this`unresolvedList, this`table, this`classes, this`pending, this`kids, this`rank
      modifies cls`subclassList, cls.isa`superClass, classes`sibling
      ensures Valid()
      ensures if cls.name in old(table) then Now() == old(Now())
        else LoadStep(old(Now()), Now(), cls, old(cls.isa)) && table[cls.name] == cls && cls in pending
    {
      hide Graph.Stable, Ranked, Follow, LoadStep, IsaField, SupField, SubField, SibField, ResolvedSet, LoadedRank,
        ClosesNoCycle, UpOfNew, Loaded;
      ghost var g, m := Now(), cls.isa;
      if cls.name in table {
        return;
      }
      HeadIn();
      Insert(cls);
      LoadedFine(g, Now(), rank, cls, m, cls.superClass, m.superClass, m.isa, m.sibling);
      rank := LoadedRank(g, rank, cls, m, UpOfNew(g, cls.superClass, cls.superName));
    }

    // ----- another superclass -----

    /** Takes a class out of the list of its superclass, where it stands at place `i`. */
    method SafeRemove(cls: ObjcClass, ghost i: nat)
      requires Listed(cls, i)
      modifies classes`subclassList, classes`sibling
      ensures SubField(classes) ==
        if i == 0 then old(SubField(classes))[cls.superClass := old(cls.sibling)] else old(SubField(classes))
      ensures SibField(classes) ==
        if i == 0 then old(SibField(classes))
        else old(SibField(classes))[kids[cls.superClass][i - 1] := old(cls.sibling)]
    {
      hide SubField, SibField, IsaField, SupField, ResolvedSet;
      var parent := cls.superClass;
      var sub := parent.subclassList;
      SamePlace(kids[parent], 0, i);
      if sub == cls {
        CutFirst(parent, cls.sibling);
      } else {
        ghost var k := 0;
        while sub != null
          invariant 0 <= k < i && sub == kids[parent][k] && cls.superClass == parent && cls.sibling == old(cls.sibling)
          invariant parent.subclassList == old(parent.subclassList)
          invariant SubField(classes) == old(SubField(classes)) && SibField(classes) == old(SibField(classes))
          invariant forall m :: 0 <= m < |kids[parent]| ==> Next(parent, m)
          decreases i - k
        {
          assert Next(parent, k);
          SamePlace(kids[parent], k + 1, i);
          if sub.sibling == cls {
            CutAfter(sub, cls.sibling);
            break;
          }
          sub := sub.sibling;
          k := k + 1;
        }
      }
    }

    /** The class stands at place `i` of its superclass's list, whose links are right. */
    ghost predicate Listed(cls: ObjcClass, i: nat)
      reads this, classes
    {
      && cls in classes && cls.superClass != null && cls.superClass in classes
      && cls.superClass in kids && Distinct(kids[cls.superClass])
      && (forall d :: d in kids[cls.superClass] ==> d in classes)
      && cls.superClass.subclassList == At(kids[cls.superClass], 0)
      && (forall k :: 0 <= k < |kids[cls.superClass]| ==> Next(cls.superClass, k))
      && i < |kids[cls.superClass]| && kids[cls.superClass][i] == cls
    }

    ghost predicate Next(parent: ObjcClass, k: nat)
      requires parent in kids && k < |kids[parent]|
      reads this, kids[parent][k]
    {
      kids[parent][k].sibling == At(kids[parent], k + 1)
    }

    method CutFirst(parent: ObjcClass, next: ObjcClass?)
      requires parent in classes
      modifies parent`subclassList
      ensures SubField(classes) == old(SubField(classes))[parent := next]
    {
      parent.subclassList := next;
    }

    method CutAfter(sub: ObjcClass, next: ObjcClass?)
      requires sub in classes
      modifies sub`sibling
      ensures SibField(classes) == old(SibField(classes))[sub := next]
    {
      sub.sibling := next;
    }

    /** What `SafeRemove` needs, in terms of the snapshot; it also tells where the class stands. */
    lemma RemoveReady(cls: ObjcClass) returns (i: nat)
      requires Now().TreeOk() && cls in tree && cls.superClass != null
      ensures Listed(cls, i) && cls in classes && cls.superClass in classes && cls.superClass in tree
      ensures cls.superClass in kids && i < |kids[cls.superClass]| && kids[cls.superClass][i] == cls
      ensures i > 0 ==> kids[cls.superClass][i - 1] in classes
      ensures Now().Complete() && kids == Now().kids && classes == Now().classes
      ensures Now().Sib(cls) == cls.sibling && Now().Sup(cls) == cls.superClass
    {
      var g := Now();
      TreeIsKid(g, cls);
      Fields(cls);
      var p := cls.superClass;
      Fields(p);
      KidsDistinct(g);
      KidsAreLinked(g, p);
      i :| 0 <= i < |kids[p]| && kids[p][i] == cls;
      forall k | 0 <= k < |kids[p]|
        ensures Next(p, k)
      {
        assert g.KidAt(p, k) && kids[p][k] in kids[p];
        Fields(kids[p][k]);
      }
    }

    /** Takes a linked class out of the list of its superclass. */
    method Cut(cls: ObjcClass) returns (ghost i: nat)
      requires Now().TreeOk() && cls in tree && cls.superClass != null
      modifies classes`subclassList, classes`sibling, this`kids
      ensures CutStep(old(Now()), Now(), cls, cls.superClass, i)
    {
      hide CutStep, Graph.TreeOk, Listed, ClassTable.Now, Graph.Complete;
      i := RemoveReady(cls);
      CutListed(cls, i);
    }

    method CutListed(cls: ObjcClass, ghost i: nat)
      requires Listed(cls, i) && cls in classes && cls.superClass in classes
      requires cls.superClass in kids && i < |kids[cls.superClass]| && kids[cls.superClass][i] == cls
      requires i > 0 ==> kids[cls.superClass][i - 1] in classes
      requires Now().Complete() && kids == Now().kids && classes == Now().classes
      requires Now().Sib(cls) == cls.sibling && Now().Sup(cls) == cls.superClass
      modifies classes`subclassList, classes`sibling, this`kids
      ensures CutStep(old(Now()), Now(), cls, cls.superClass, i)
    {
      hide SubField, SibField, IsaField, SupField, ResolvedSet, CutStep, Follow, Graph.TreeOk, Without, Distinct,
        Graph.Complete, Listed, ClassTable.Now;
      ghost var g, p := Now(), cls.superClass;
      Unlist(cls, i);
      DropKid(p, i);
      CutMade(g, Now(), cls, p, i);
    }

    /** The same for a class in a tree from which another has been cut. */
    method CutBut(cls: ObjcClass, ghost but: ObjcClass) returns (ghost i: nat)
      requires TreeBut(Now(), but) && cls in tree && cls != but && cls.superClass != null
      modifies classes`subclassList, classes`sibling, this`kids
      ensures CutStep(old(Now()), Now(), cls, cls.superClass, i)
    {
      hide CutStep, Listed, TreeBut, ClassTable.Now, Graph.Complete;
      i := RemoveReadyBut(cls, but);
      CutListed(cls, i);
    }

    lemma RemoveReadyBut(cls: ObjcClass, but: ObjcClass) returns (i: nat)
      requires TreeBut(Now(), but) && cls in tree && cls != but && cls.superClass != null
      ensures Listed(cls, i) && cls in classes && cls.superClass in classes
      ensures cls.superClass in kids && i < |kids[cls.superClass]| && kids[cls.superClass][i] == cls
      ensures i > 0 ==> kids[cls.superClass][i - 1] in classes
      ensures Now().Complete() && kids == Now().kids && classes == Now().classes
      ensures Now().Sib(cls) == cls.sibling && Now().Sup(cls) == cls.superClass
    {
      var g := Now();
      ButTree(g, but);
      ButAt(g, but, cls);
      Fields(cls);
      var p := cls.superClass;
      Fields(p);
      ButAt(g, but, p);
      i :| 0 <= i < |kids[p]| && kids[p][i] == cls;
      forall k | 0 <= k < |kids[p]|
        ensures Next(p, k)
      {
        assert g.KidAt(p, k) && kids[p][k] in kids[p];
        Fields(kids[p][k]);
      }
    }

    method Unlist(cls: ObjcClass, ghost i: nat)
      requires Listed(cls, i)
      modifies classes`subclassList, classes`sibling
      ensures var g := old(Now()); var p := old(cls.superClass); var s := old(cls.sibling);
        Now() == g.(sub := if i == 0 then g.sub[p := s] else g.sub,
                    sib := if i == 0 then g.sib else g.sib[old(kids)[p][i - 1] := s])
    {
      hide SubField, SibField, IsaField, SupField, ResolvedSet, Follow, Distinct, Next;
      SafeRemove(cls, i);
    }

    method DropKid(ghost p: ObjcClass, ghost i: nat)
      requires p in kids && i < |kids[p]|
      modifies this`kids
      ensures Now() == old(Now()).(kids := old(kids)[p := Without(old(kids)[p], i)])
    {
      hide SubField, SibField, IsaField, SupField, ResolvedSet, Without;
      kids := kids[p := Without(kids[p], i)];
    }

    method SetLinks(cls: ObjcClass, newSuper: ObjcClass, isa: ObjcClass?)
      requires cls in classes && newSuper in classes
      modifies cls`isa, cls`superClass, cls`sibling, newSuper`subclassList
      ensures IsaField(classes) == old(IsaField(classes))[cls := isa]
      ensures SupField(classes) == old(SupField(classes))[cls := newSuper]
      ensures SibField(classes) == old(SibField(classes))[cls := old(SubField(classes))[newSuper]]
      ensures SubField(classes) == old(SubField(classes))[newSuper := cls]
    {
      hide IsaField, SupField, SubField, SibField, ResolvedSet;
      SetBoth(cls, newSuper, isa);
      LinkFirst(cls, newSuper);
    }

    /** Puts a class that is in no list below `newSuper`. */
    method Join(cls: ObjcClass, newSuper: ObjcClass, isa: ObjcClass?)
      requires Now().Complete() && cls in classes && newSuper in classes
      modifies cls`isa, cls`superClass, cls`sibling, newSuper`subclassList, this`kids
      ensures JoinStep(old(Now()), Now(), cls, newSuper, isa)
    {
      hide SubField, SibField, IsaField, SupField, ResolvedSet, JoinStep, Follow;
      ghost var g := Now();
      SetLinks(cls, newSuper, isa);
      kids := kids[newSuper := [cls] + kids[newSuper]];
      JoinMade(g, Now(), cls, newSuper, isa);
    }

    /** Moves one class, and nothing else, from its superclass to `newSuper`. */
    method MoveOne(cls: ObjcClass, newSuper: ObjcClass, isa: ObjcClass?)
      requires Now().TreeOk() && cls in tree && cls.superClass != null && newSuper in tree
      modifies classes`isa, classes`superClass, classes`sibling, classes`subclassList, this`kids
      ensures Now().TreeOk() && CutJoined(old(Now()), Now(), cls, newSuper, isa)
    {
      hide ClassTable.Now, Graph.TreeOk, CutStep, JoinStep, CutJoined;
      ghost var g, p := Now(), cls.superClass;
      MoveReady(cls, newSuper);
      ghost var i := Cut(cls);
      ghost var g1 := Now();
      CutBooks(g, g1, cls, p, i);
      Books();
      Join(cls, newSuper, isa);
      CutJoinTree(g, g1, Now(), cls, p, i, newSuper, isa);
    }

    lemma MoveReady(cls: ObjcClass, newSuper: ObjcClass)
      requires Now().TreeOk() && cls in tree && cls.superClass != null && newSuper in tree
      ensures cls in classes && newSuper in classes && cls.superClass in tree && Now().tree == tree
      ensures Now().classes == classes
    {
      var i := RemoveReady(cls);
      InTree(Now(), newSuper);
    }

    lemma SetFacts(cls: ObjcClass, newSuper: ObjcClass)
      requires Valid() && cls in classes && newSuper in classes && cls.resolved && newSuper.resolved
      requires !cls.isMeta && !newSuper.isMeta && cls.superClass != null && cls.superClass != newSuper
      requires cls !in Chain(Now(), rank, newSuper)
      ensures Now().TreeOk() && Now().tree <= Now().classes && newSuper.isa != cls && Movable(Now(), cls, newSuper)
      ensures Now().tree == tree
      ensures cls.isa != null && cls.isa in tree && cls.isa.isMeta && Now().Isa(cls) == cls.isa
      ensures Now().Sup(cls.isa) != null
      ensures newSuper.isa != null && newSuper.isa in tree && Now().Isa(newSuper) == newSuper.isa
      ensures forall x :: x in Now().pending ==> x in Now().classes && x !in Now().tree
    {
      PassFacts();
      UpFacts(cls);
      assert Now().Paired(cls) && Now().Paired(newSuper) && Now().MetaOk(cls);
      assert Now().IsKid(cls) && Now().Paired(cls.superClass);
    }

    /** The class has been moved; its metaclass is still to be moved. */
    lemma MidFacts(g: Graph, cls: ObjcClass, newSuper: ObjcClass, meta: ObjcClass, newSuperMeta: ObjcClass)
      requires CutJoined(g, Now(), cls, newSuper, meta) && meta in g.tree && newSuperMeta in g.tree
      requires g.tree <= g.classes && meta != cls && newSuperMeta != cls && g.Sup(meta) != null
      ensures meta in tree && newSuperMeta in tree && meta.superClass != null
      ensures newSuperMeta.isa == g.Isa(newSuperMeta)
    {
      assert Now().Sup(meta) == g.Sup(meta) && Now().Isa(newSuperMeta) == g.Isa(newSuperMeta);
    }

    ghost predicate MayMove(cls: ObjcClass, newSuper: ObjcClass)
      reads this, classes
    {
      && Valid() && cls in classes && newSuper in classes && cls.resolved && newSuper.resolved
      && !cls.isMeta && !newSuper.isMeta && cls.superClass != null && cls !in Chain(Now(), rank, newSuper)
    }

    /** Moves a class and its metaclass below another class and its metaclass. */
    method MovePair(cls: ObjcClass, newSuper: ObjcClass)
      requires MayMove(cls, newSuper) && cls.superClass != newSuper
      modifies classes`isa, classes`superClass, classes`sibling, classes`subclassList, this`kids
      ensures MovedWell(old(Now()), Now(), rank, cls, newSuper) && cls.superClass == newSuper
    {
      hide ClassTable.Now, Graph.Stable, Graph.TreeOk, CutJoined, MoveStep, Chain, Ranked, MovedRank, SameRoot,
        NoSubclasses, MovedWell;
      ghost var g := Now();
      SetFacts(cls, newSuper);
      // The new superclass is resolved already, so resolving it here would do nothing.
      var meta, newSuperMeta := cls.isa, newSuper.isa;
      MoveOne(cls, newSuper, meta);
      ghost var g1 := Now();
      MidFacts(g, cls, newSuper, meta, newSuperMeta);
      MoveOne(meta, newSuperMeta, newSuperMeta.isa);
      MoveMade(g, g1, Now(), cls, newSuper, meta, newSuperMeta);
      MovedFine(g, Now(), rank, cls, newSuper);
      MoveAt(g, Now(), cls, newSuper, cls);
      MoveSets(g, Now(), cls, newSuper);
      Books();
      Fields(cls);
    }

    /**
     Gives a linked class another superclass, moving its metaclass along with it.  Both
     hierarchies, the lists of subclasses and the order of declaration stay sound if and
     only if the new superclass is under the same root or there is no class below.
     */
    method SetSuperclass(cls: ObjcClass, newSuper: ObjcClass) returns (oldSuper: ObjcClass)
      requires Valid() && cls in classes && newSuper in classes && cls.resolved && newSuper.resolved
      requires !cls.isMeta && !newSuper.isMeta && cls.superClass != null
      requires cls !in Chain(Now(), rank, newSuper)
      modifies classes`isa, classes`superClass, classes`sibling, classes`subclassList, this`kids, this`rank
      ensures Valid() <==>
        old(cls.superClass == newSuper || SameRoot(Now(), cls, newSuper) || NoSubclasses(Now(), cls))
      ensures cls.superClass == newSuper && oldSuper == old(cls.superClass)
      ensures if oldSuper == newSuper then Now() == old(Now()) else MoveStep(old(Now()), Now(), cls, newSuper)
    {
      hide Graph.Stable, MoveStep, Chain, Ranked, MovedRank, IsaField, SupField, SubField, SibField, ResolvedSet,
        Follow,
        SameRoot, NoSubclasses;
      oldSuper := cls.superClass;
      if oldSuper != newSuper {
        ghost var g := Now();
        MovePair(cls, newSuper);
        rank := MovedRank(g, rank, cls, newSuper);
      }
    }

    // ----- disposing of a class -----

    /**
     Disposes of a class and its metaclass.  All is well if and only if the class was linked
     and no linked class is below it; for a root class a null pointer is followed.
     */
    method DisposeClassPair(cls: ObjcClass) returns (ok: bool)
      requires Valid() && cls in classes && !cls.isMeta
      modifies this`classes, this`table, this`kids, this`tree, this`rank, classes`subclassList, classes`sibling
      ensures ok <==> !cls.resolved || cls.superClass != null
      ensures ok ==> (Valid() <==> cls.resolved && old(IsLeaf(Now(), cls)))
      ensures cls.isa != null && pending == old(pending)
      ensures if ok then classes == old(classes) - {cls, cls.isa} && table == old(table) - {cls.name}
        else classes == old(classes) && table == old(table)
      ensures tree == if ok then old(tree) - {cls, cls.isa} else old(tree)
    {
      hide Graph.Stable, Graph.TreeOk, CutStep, Ranked, IsLeaf, Forget, RankWithout, ClassTable.Now, TreeBut,
        Graph.Complete;
      ghost var g := Now();
      DisposeReady(cls);
      Books();
      var meta := cls.isa;
      ghost var j, i := 0, 0;
      if meta.resolved {
        j := Cut(meta);
      }
      ghost var g1 := Now();
      if cls.resolved {
        CutMeta(g, g1, cls, meta, j);
        if cls.superClass == null {
          return false;
        }
        i := CutBut(cls, meta);
      }
      ghost var g2 := Now();
      LeaveTree({cls, meta});
      Disposed(g, g1, g2, rank, cls, i, meta, j);
      Unregister(cls, meta);
      return true;
    }

    method LeaveTree(ghost gone: set<ObjcClass>)
      modifies this`tree
      ensures Now() == old(Now()).(tree := old(Now()).tree - gone) && tree == old(tree) - gone
    {
      hide IsaField, SupField, SubField, SibField, ResolvedSet;
      tree := tree - gone;
    }

    lemma CutMeta(g: Graph, g1: Graph, cls: ObjcClass, meta: ObjcClass, j: nat)
      requires g.Stable() && cls in g.tree && !cls.isMeta && g.Isa(cls) == meta && g1 == Now()
      requires g.Sup(meta) != null && CutStep(g, g1, meta, g.Sup(meta), j)
      ensures TreeBut(Now(), meta) && cls in tree && cls != meta && g.Sup(meta) in g.tree && meta in g.tree
      ensures g.Sup(cls) != null ==> g.Sup(cls) in g.tree
      ensures Now().classes == classes && Now().tree == tree && table == g.table && classes == g.classes
      ensures tree == g.tree && pending == g.pending
    {
      hide CutStep, TreeBut, Graph.Stable, Graph.PairsOk;
      StableFacts(g);
      MetaInTree(g, cls);
      PairFacts(g, cls, cls);
      TreeIsKid(g, meta);
      TreeIsKid(g, cls);
      CutTree(g, g1, meta, g.Sup(meta), j);
      CutBooks(g, g1, meta, g.Sup(meta), j);
    }

    method Unregister(cls: ObjcClass, meta: ObjcClass)
      requires Now().Complete()
      modifies this`classes, this`table, this`kids, this`rank
      ensures Now() == Forget(old(Now()), cls, meta)
      ensures rank == RankWithout(old(rank), cls, meta)
      ensures classes == old(classes) - {cls, meta} && table == old(table) - {cls.name}
    {
      hide ClassTable.Now, Only, RankWithout;
      ForgetEntries(cls, meta);
      Shrink({cls, meta});
    }

    method Shrink(ghost gone: set<ObjcClass>)
      modifies this`classes
      ensures classes == old(classes) - gone
      ensures var g := old(Now()); var rest := g.classes - gone;
        Now() == g.(classes := rest, isa := Only(g.isa, rest), sup := Only(g.sup, rest), sub := Only(g.sub, rest),
                    sib := Only(g.sib, rest), resolved := g.resolved - gone)
    {
      hide IsaField, SupField, SubField, SibField, ResolvedSet, Only;
      OnlyFields(classes, classes - gone, gone);
      classes := classes - gone;
    }

    method ForgetEntries(cls: ObjcClass, ghost meta: ObjcClass)
      modifies this`table, this`kids, this`rank
      ensures table == old(table) - {cls.name} && rank == RankWithout(old(rank), cls, meta)
      ensures var g := old(Now());
        Now() == g.(table := g.table - {cls.name}, kids := Only(g.kids, g.classes - {cls, meta}))
    {
      hide IsaField, SupField, SubField, SibField, ResolvedSet, Only, RankWithout;
      table := table - {cls.name};
      kids := Only(kids, classes - {cls, meta});
      rank := RankWithout(rank, cls, meta);
    }

    lemma OnlyFields(all: set<ObjcClass>, rest: set<ObjcClass>, gone: set<ObjcClass>)
      requires rest == all - gone
      ensures IsaField(rest) == Only(IsaField(all), rest) && SupField(rest) == Only(SupField(all), rest)
      ensures SubField(rest) == Only(SubField(all), rest) && SibField(rest) == Only(SibField(all), rest)
      ensures ResolvedSet(rest) == ResolvedSet(all) - gone
    {
    }

    lemma DisposeReady(cls: ObjcClass)
      requires Valid() && cls in classes && !cls.isMeta
      ensures Now().Stable() && Now().TreeOk() && Ranked(Now(), rank) && Now().classes == classes && Now().tree == tree
      ensures cls.isa != null && cls.isa in classes && cls.isa != cls && Now().Isa(cls) == cls.isa
      ensures (cls.resolved <==> cls in tree) && (cls.isa.resolved <==> cls.isa in tree)
      ensures cls in tree <==> cls.isa in tree
      ensures cls.isa.resolved ==> cls.isa.superClass != null
      ensures Now().Sup(cls) == cls.superClass && Now().Sup(cls.isa) == cls.isa.superClass
    {
      var g := Now();
      StableFacts(g);
      Fields(cls);
      PairFacts(g, cls, cls);
      assert g.Paired(cls);
      Fields(cls.isa);
      if cls in tree {
        MetasFact(g, cls);
        if cls.superClass != null {
          SupFacts(g, cls);
          PairFacts(g, cls.superClass, cls);
        }
      }
    }
  }
}
