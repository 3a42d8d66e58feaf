/**
 Linking a class: leaving the list of unresolved classes and joining the class tree keeps
 both lists, the pairing of classes with metaclasses and the mirror of the hierarchy.
 */
module ClassLinking {
  import opened Wrappers
  import opened ClassGraph

  lemma UnlinkMade(g: Graph, g': Graph, c: ObjcClass, k: nat)
    requires g.Complete() && c in g.classes && k < |g.pending| && g.pending[k] == c
    requires g.Sib(c) != null ==> g.Sib(c) in g.classes && g.Sib(c) != c
    requires g.Sub(c) != null ==> g.Sub(c) in g.classes && g.Sub(c) != c
    requires g' == g.(
      head := if g.Sib(c) == null then g.Sub(c) else g.head,
      sub := (if g.Sib(c) == null then g.sub else g.sub[g.Sib(c) := g.Sub(c)])[c := null],
      sib := (if g.Sub(c) == null then g.sib else g.sib[g.Sub(c) := g.Sib(c)])[c := null],
      pending := Without(g.pending, k))
    ensures UnlinkStep(g, g', c, k)
  {
  }

  lemma MetaMade(g: Graph, g': Graph, meta: ObjcClass, sup: ObjcClass?, isa: ObjcClass?)
    requires g.Complete() && meta in g.classes && g' == g.(sup := g.sup[meta := sup], isa := g.isa[meta := isa])
    ensures MetaStep(g, g', meta, sup, isa)
  {
  }

  lemma PrependMade(g: Graph, g': Graph, c: ObjcClass, parent: ObjcClass)
    requires g.Complete() && c in g.classes && parent in g.classes
    requires g' == g.(sub := g.sub[parent := c], sib := g.sib[c := g.sub[parent]], tree := g.tree + {c},
                      kids := g.kids[parent := [c] + g.kids[parent]])
    ensures PrependStep(g, g', c, parent)
  {
  }

  // ----- the list of unresolved classes -----

  lemma PendingNeighbours(g: Graph, k: nat)
    requires g.PendingOk(null) && k < |g.pending|
    ensures var c := g.pending[k];
      && c in g.classes && !c.isMeta && c !in g.tree
      && (g.Sub(c) != null ==> g.Waiting(g.Sub(c)) && g.Sub(c) != c)
      && (g.Sib(c) != null ==> g.Waiting(g.Sib(c)) && g.Sib(c) != c)
  {
    assert g.PendingAt(k) && g.Waiting(g.pending[k]);
    if k > 0 {
      assert g.Waiting(g.pending[k - 1]);
    }
    if k + 1 < |g.pending| {
      assert g.Waiting(g.pending[k + 1]);
    }
  }

  lemma WithoutMembers(s: seq<ObjcClass>, k: nat)
    requires Distinct(s) && k < |s|
    ensures Distinct(Without(s, k))
    ensures forall x :: x in Without(s, k) <==> x in s && x != s[k]
  {
    var q := Without(s, k);
    forall x | x in s && x != s[k]
      ensures x in q
    {
      var i :| 0 <= i < |s| && s[i] == x;
      assert q[if i < k then i else i - 1] == x;
    }
  }

  lemma UnlinkedNeighbours(g: Graph, g': Graph, c: ObjcClass, k: nat, m: nat)
    requires UnlinkStep(g, g', c, k) && m < |g.pending| && m != k
    requires g.PendingAt(m) && g.PendingAt(k)
    requires g.pending[m] in g.classes && g.pending[m] != c
    requires g.pending[m] == g.Sib(c) <==> m == k - 1
    requires g.pending[m] == g.Sub(c) <==> m == k + 1
    ensures g'.PendingAt(if m < k then m else m - 1)
  {
    var i := if m < k then m else m - 1;
    assert g'.pending[i] == g.pending[m];
  }

  lemma UnlinkedPlace(g: Graph, g': Graph, c: ObjcClass, k: nat, i: nat)
    requires g.PendingOk(null) && UnlinkStep(g, g', c, k) && i < |g'.pending|
    ensures g'.PendingAt(i)
  {
    var m := if i < k then i else i + 1;
    assert m < |g.pending|;
    SamePlaces(g, g', c, k, m);
    UnlinkedNeighbours(g, g', c, k, m);
  }

  lemma SamePlaces(g: Graph, g': Graph, c: ObjcClass, k: nat, m: nat)
    requires g.PendingOk(null) && UnlinkStep(g, g', c, k) && m < |g.pending| && m != k
    ensures g.PendingAt(m) && g.PendingAt(k) && g.pending[m] in g.classes && g.pending[m] != c
    ensures g.pending[m] == g.Sib(c) <==> m == k - 1
    ensures g.pending[m] == g.Sub(c) <==> m == k + 1
  {
    assert g.PendingAt(m) && g.PendingAt(k) && g.Waiting(g.pending[m]);
    SamePlace(g.pending, m, k);
    if k > 0 {
      SamePlace(g.pending, m, k - 1);
    }
    if k + 1 < |g.pending| {
      SamePlace(g.pending, m, k + 1);
    }
  }

  lemma UnlinkSets(g: Graph, g': Graph, c: ObjcClass, k: nat)
    requires UnlinkStep(g, g', c, k)
    ensures g'.classes == g.classes && g'.tree == g.tree && k < |g.pending| && g.pending[k] == c
    ensures g'.pending == Without(g.pending, k)
  {
  }

  lemma UnlinkedPending(g: Graph, g': Graph, c: ObjcClass, k: nat)
    requires g.PendingOk(null) && UnlinkStep(g, g', c, k)
    ensures g'.PendingOk(c)
  {
    hide Distinct, Follow, Without, Graph.PendingAt, UnlinkStep;
    UnlinkSets(g, g', c, k);
    WithoutMembers(g.pending, k);
    UnlinkedHead(g, g', c, k);
    forall i | 0 <= i < |g'.pending|
      ensures g'.PendingAt(i)
    {
      UnlinkedPlace(g, g', c, k, i);
    }
  }

  lemma UnlinkedHead(g: Graph, g': Graph, c: ObjcClass, k: nat)
    requires g.PendingOk(null) && UnlinkStep(g, g', c, k)
    ensures g'.head == At(g'.pending, 0)
  {
    assert g.PendingAt(k);
  }

  /** The list of unresolved classes depends only on its own members. */
  lemma PendingFrame(g: Graph, g': Graph, limbo: ObjcClass?, limbo': ObjcClass?)
    requires g.PendingOk(limbo)
    requires g'.classes == g.classes && g'.pending == g.pending && g'.head == g.head
    requires forall x :: x in g.pending ==> g'.Sub(x) == g.Sub(x) && g'.Sib(x) == g.Sib(x)
    requires forall x :: x in g.classes ==> (g'.Waiting(x) && x != limbo' <==> g.Waiting(x) && x != limbo)
    ensures g'.PendingOk(limbo')
  {
    hide Distinct;
    forall i | 0 <= i < |g.pending|
      ensures g'.PendingAt(i)
    {
      assert g.PendingAt(i) && g.pending[i] in g.pending;
    }
    forall c | c in g'.pending
      ensures g'.Waiting(c) && c != limbo'
    {
      assert g.Waiting(c);
    }
  }

  lemma PrependedPending(g: Graph, g': Graph, c: ObjcClass, parent: ObjcClass, limbo: ObjcClass?)
    requires g.PendingOk(limbo) && PrependStep(g, g', c, parent) && parent in g.tree
    requires c.isMeta || c == limbo
    ensures g'.PendingOk(if c == limbo then null else limbo)
  {
    assert c in g.pending ==> g.Waiting(c);
    assert parent in g.pending ==> g.Waiting(parent);
    PendingFrame(g, g', limbo, if c == limbo then null else limbo);
  }

  // ----- the class tree -----

  lemma KidsFrame(g: Graph, g': Graph, c: ObjcClass)
    requires c in g.kids && c in g'.kids && g'.kids[c] == g.kids[c]
    requires g.ListsKids(c) && g'.Sub(c) == g.Sub(c)
    requires forall d :: d in g.kids[c] ==> g'.Sib(d) == g.Sib(d)
    ensures g'.ListsKids(c)
  {
    forall i | 0 <= i < |g.kids[c]|
      ensures g'.KidAt(c, i)
    {
      assert g.KidAt(c, i) && g.kids[c][i] in g.kids[c];
    }
  }

  lemma KidsAreLinked(g: Graph, c: ObjcClass)
    requires g.KidsOk() && c in g.classes
    ensures c in g.kids && forall d :: d in g.kids[c] ==> d in g.tree && g.Sup(d) == c
    ensures c !in g.tree ==> g.kids[c] == []
  {
    assert g.kids[c] != [] ==> g.kids[c][0] in g.kids[c] && g.IsKid(g.kids[c][0]);
  }

  lemma TreeFrameKids(g: Graph, g': Graph)
    requires g.KidsOk() && g'.Complete()
    requires g'.classes == g.classes && g.tree <= g'.tree && g'.kids == g.kids
    requires forall x :: x in g.tree ==> g'.Sup(x) == g.Sup(x)
    requires forall x :: x in g'.tree && x !in g.tree ==> g'.Sup(x) == null
    ensures g'.KidsOk()
  {
    hide Distinct, Follow;
    forall d | d in g'.tree
      ensures g'.IsKid(d)
    {
      assert d in g.tree ==> g.IsKid(d);
    }
  }

  /** The tree does not depend on the fields of classes outside it. */
  lemma TreeFrame(g: Graph, g': Graph)
    requires g.TreeOk() && g'.Complete()
    requires g'.classes == g.classes && g'.tree == g.tree && g'.kids == g.kids
    requires forall x :: x in g.tree ==> g'.Sub(x) == g.Sub(x) && g'.Sib(x) == g.Sib(x) && g'.Sup(x) == g.Sup(x)
    ensures g'.TreeOk()
  {
    hide Graph.KidsOk;
    TreeFrameKids(g, g');
    forall c | c in g.tree
      ensures c in g'.kids && g'.ListsKids(c)
    {
      InTree(g, c);
      KidsAreLinked(g, c);
      KidsFrame(g, g', c);
    }
  }

  lemma InTree(g: Graph, c: ObjcClass)
    requires g.KidsOk() && c in g.tree
    ensures c in g.classes && c in g.kids
  {
  }

  lemma UnlinkedTree(g: Graph, g': Graph, c: ObjcClass, k: nat)
    requires g.PendingOk(null) && g.TreeOk() && UnlinkStep(g, g', c, k)
    ensures g'.TreeOk()
  {
    hide Graph.PendingOk, Graph.TreeOk;
    PendingNeighbours(g, k);
    TreeInClasses(g);
    TreeFrame(g, g');
  }

  lemma TreeInClasses(g: Graph)
    requires g.TreeOk()
    ensures g.Complete()
  {
  }

  lemma RootTree(g: Graph, g': Graph, c: ObjcClass)
    requires g.TreeOk() && RootStep(g, g', c) && c !in g.tree && g.Sup(c) == null && g.Sub(c) == null
    ensures g'.TreeOk()
  {
    hide Graph.KidsOk;
    TreeFrameKids(g, g');
    KidsAreLinked(g, c);
    forall d | d in g'.tree
      ensures d in g'.kids && g'.ListsKids(d)
    {
      if d != c {
        InTree(g, d);
        KidsAreLinked(g, d);
        KidsFrame(g, g', d);
      }
    }
  }

  lemma PrependedKids(g: Graph, g': Graph, c: ObjcClass, parent: ObjcClass)
    requires g.KidsOk() && PrependStep(g, g', c, parent) && c !in g.tree && parent in g.tree && g.Sup(c) == parent
    ensures g'.KidsOk()
  {
    hide Distinct, Graph.KidsOk;
    KidsAreLinked(g, parent);
    KidsDistinct(g);
    PrependedDistinct(c, g.kids[parent]);
    forall x, d | x in g'.classes && d in g'.kids[x]
      ensures d in g'.tree && g'.Sup(d) == x
    {
      KidsAreLinked(g, x);
    }
    forall d | d in g'.tree
      ensures g'.IsKid(d)
    {
      if d != c {
        TreeIsKid(g, d);
      }
    }
    AllKidsOk(g');
  }

  lemma KidsDistinct(g: Graph)
    requires g.KidsOk()
    ensures forall c :: c in g.classes ==> Distinct(g.kids[c])
  {
  }

  lemma TreeIsKid(g: Graph, d: ObjcClass)
    requires g.KidsOk() && d in g.tree
    ensures g.IsKid(d) && d in g.classes
  {
  }

  lemma AllKidsOk(g: Graph)
    requires g.Complete()
    requires forall c, d :: c in g.classes && d in g.kids[c] ==> d in g.tree && g.Sup(d) == c
    requires forall d {:trigger g.IsKid(d)} :: d in g.tree ==> g.IsKid(d)
    requires forall c :: c in g.classes ==> Distinct(g.kids[c])
    ensures g.KidsOk()
  {
  }

  lemma PrependedDistinct(c: ObjcClass, s: seq<ObjcClass>)
    requires Distinct(s) && c !in s
    ensures Distinct([c] + s)
  {
  }

  lemma PrependedList(g: Graph, g': Graph, c: ObjcClass, parent: ObjcClass)
    requires PrependStep(g, g', c, parent) && c != parent
    requires g.ListsKids(parent) && c !in g.kids[parent] && forall d :: d in g.kids[parent] ==> d in g.classes
    ensures g'.ListsKids(parent)
  {
    forall i | 0 <= i < |g'.kids[parent]|
      ensures g'.KidAt(parent, i)
    {
      if i > 0 {
        assert g.KidAt(parent, i - 1) && g.kids[parent][i - 1] in g.kids[parent];
      }
    }
  }

  lemma PrependedTree(g: Graph, g': Graph, c: ObjcClass, parent: ObjcClass)
    requires g.TreeOk() && PrependStep(g, g', c, parent) && c !in g.tree && parent in g.tree
    requires g.Sup(c) == parent && g.Sub(c) == null
    ensures g'.TreeOk()
  {
    hide Graph.KidsOk;
    PrependedKids(g, g', c, parent);
    KidsAreLinked(g, c);
    forall d | d in g'.tree
      ensures d in g'.kids && g'.ListsKids(d)
    {
      if d != c {
        InTree(g, d);
        KidsAreLinked(g, d);
        if d == parent {
          PrependedList(g, g', c, parent);
        } else {
          KidsFrame(g, g', d);
        }
      }
    }
  }

  // ----- resolving one class -----

  ghost function SuperMeta(g: Graph, c: ObjcClass): ObjcClass? {
    if g.Sup(c) == null then c else g.Isa(g.Sup(c))
  }

  ghost function MetaMeta(g: Graph, c: ObjcClass): ObjcClass? {
    if g.Sup(c) == null then g.Isa(c) else g.Isa(g.Isa(g.Sup(c)))
  }

  /** What resolving needs: the superclass, if any, is linked already. */
  ghost predicate Ready(g: Graph, c: ObjcClass, k: nat) {
    && g.Stable() && k < |g.pending| && g.pending[k] == c
    && (g.Sup(c) != null ==> g.Sup(c) in g.tree)
  }

  lemma ReadyFacts(g: Graph, c: ObjcClass, k: nat)
    requires Ready(g, c, k)
    ensures g.PendingOk(null) && g.TreeOk() && g.Complete()
    ensures c in g.classes && !c.isMeta && c !in g.tree && c !in g.resolved
    ensures g.Isa(c) != null && g.Isa(c) in g.classes && g.Isa(c).isMeta && g.Isa(c) !in g.tree
    ensures g.Sub(g.Isa(c)) == null
    ensures g.Sub(c) != null ==> !g.Sub(c).isMeta
    ensures g.Sib(c) != null ==> !g.Sib(c).isMeta
    ensures g.Sup(c) != null ==> g.Sup(c) in g.classes && !g.Sup(c).isMeta && g.Sup(c) in g.tree
    ensures g.Sup(c) != null ==> g.Isa(g.Sup(c)) != null && g.Isa(g.Sup(c)) in g.tree && g.Isa(g.Sup(c)).isMeta
    ensures g.Sup(c) != null ==> g.Isa(g.Sup(c)) in g.classes
    ensures SuperMeta(g, c) != null && (SuperMeta(g, c) == c || SuperMeta(g, c) in g.tree)
  {
    PendingNeighbours(g, k);
    assert g.Paired(c) && g.Paired(g.Isa(c));
    assert g.Sup(c) != null ==> g.Paired(g.Sup(c));
  }

  lemma ReadyNeighbours(g: Graph, c: ObjcClass, k: nat)
    requires Ready(g, c, k)
    ensures k < |g.pending| && g.pending[k] == c
    ensures g.Sib(c) != null ==> g.Sib(c) in g.classes && g.Sib(c) != c
    ensures g.Sub(c) != null ==> g.Sub(c) in g.classes && g.Sub(c) != c
  {
    PendingNeighbours(g, k);
  }

  /** What each step leaves for the next one. */
  lemma AfterUnlink(g: Graph, g': Graph, c: ObjcClass, k: nat)
    requires UnlinkStep(g, g', c, k)
    ensures g'.Complete() && g'.classes == g.classes && g'.tree == g.tree
  {
  }

  lemma AfterPrepend(g: Graph, g': Graph, c: ObjcClass, parent: ObjcClass)
    requires PrependStep(g, g', c, parent)
    ensures g'.Complete() && g'.classes == g.classes && g'.tree == g.tree + {c}
  {
  }

  lemma AfterRoot(g: Graph, g': Graph, c: ObjcClass)
    requires RootStep(g, g', c)
    ensures g'.Complete() && g'.classes == g.classes && g'.tree == g.tree + {c}
  {
  }

  /** A class that has left the list of unresolved classes and whose metaclass is filled in. */
  ghost predicate Detached(g: Graph, c: ObjcClass) {
    && g.PendingOk(c) && g.TreeOk() && g.Complete()
    && c in g.classes && !c.isMeta && c !in g.tree && g.Sub(c) == null
    && g.Isa(c) != null && g.Isa(c) in g.classes && g.Isa(c).isMeta && g.Isa(c) !in g.tree && g.Sub(g.Isa(c)) == null
    && SuperMeta(g, c) != null && SuperMeta(g, c) in g.classes
    && (g.Sup(c) != null ==>
          g.Sup(c) in g.tree && !g.Sup(c).isMeta && SuperMeta(g, c) in g.tree && SuperMeta(g, c).isMeta)
    && g.Sup(g.Isa(c)) == SuperMeta(g, c)
  }

  lemma DetachedBySteps(g: Graph, g1: Graph, g2: Graph, c: ObjcClass, k: nat)
    requires Ready(g, c, k) && UnlinkStep(g, g1, c, k) && g.Isa(c) != null
    requires MetaStep(g1, g2, g.Isa(c), SuperMeta(g, c), MetaMeta(g, c))
    ensures Detached(g2, c)
  {
    hide Graph.PendingOk, Graph.TreeOk, Graph.Stable, Ready;
    ReadyFacts(g, c, k);
    DetachedLists(g, g1, g2, c, k);
    DetachedFields(g, g1, g2, c, k);
  }

  lemma DetachedLists(g: Graph, g1: Graph, g2: Graph, c: ObjcClass, k: nat)
    requires Ready(g, c, k) && UnlinkStep(g, g1, c, k) && g.Isa(c) != null
    requires MetaStep(g1, g2, g.Isa(c), SuperMeta(g, c), MetaMeta(g, c))
    ensures g2.PendingOk(c) && g2.TreeOk()
  {
    hide Graph.PendingOk, Graph.TreeOk, Graph.Stable, Ready, SuperMeta, MetaMeta;
    ReadyFacts(g, c, k);
    UnlinkedPending(g, g1, c, k);
    UnlinkedTree(g, g1, c, k);
    PendingFrame(g1, g2, c, c);
    TreeFrame(g1, g2);
  }

  /** The fields around `c` once it is detached. */
  lemma DetachedFields(g: Graph, g1: Graph, g2: Graph, c: ObjcClass, k: nat)
    requires Ready(g, c, k) && UnlinkStep(g, g1, c, k) && g.Isa(c) != null
    requires MetaStep(g1, g2, g.Isa(c), SuperMeta(g, c), MetaMeta(g, c))
    ensures g2.classes == g.classes && g2.tree == g.tree && g2.Complete()
    ensures g2.Isa(c) == g.Isa(c) && g2.Sup(c) == g.Sup(c) && SuperMeta(g2, c) == SuperMeta(g, c)
    ensures g2.Sub(c) == null && g2.Sub(g.Isa(c)) == null && g2.Sup(g.Isa(c)) == SuperMeta(g, c)
  {
    hide Graph.PendingOk, Graph.TreeOk, Graph.Stable, Ready;
    ReadyFacts(g, c, k);
    assert g1.Isa(c) == g.Isa(c) && g1.Sup(c) == g.Sup(c) && g1.Isa(g.Sup(c)) == g.Isa(g.Sup(c));
    assert g1.Sub(c) == null && g1.Sub(g.Isa(c)) == g.Sub(g.Isa(c));
  }

  /** A linked class whose metaclass is about to be linked. */
  ghost predicate HalfLinked(g: Graph, c: ObjcClass) {
    && g.PendingOk(null) && g.TreeOk() && g.Complete()
    && g.Isa(c) != null && g.Isa(c) in g.classes && g.Isa(c).isMeta && g.Isa(c) !in g.tree && g.Sub(g.Isa(c)) == null
    && SuperMeta(g, c) != null && SuperMeta(g, c) in g.tree && g.Sup(g.Isa(c)) == SuperMeta(g, c)
  }

  lemma HalfLinkedByStep(g: Graph, g': Graph, c: ObjcClass)
    requires Detached(g, c)
    requires var s := g.Sup(c); if s == null then RootStep(g, g', c) else PrependStep(g, g', c, s)
    ensures HalfLinked(g', c)
  {
    hide Graph.PendingOk, Graph.TreeOk;
    if g.Sup(c) == null {
      PendingFrame(g, g', c, null);
      RootTree(g, g', c);
    } else {
      PrependedPending(g, g', c, g.Sup(c), c);
      PrependedTree(g, g', c, g.Sup(c));
    }
  }

  lemma LinkedBySteps(g: Graph, g1: Graph, g': Graph, c: ObjcClass)
    requires HalfLinked(g, c) && g.Isa(c) != null && SuperMeta(g, c) != null
    requires PrependStep(g, g1, g.Isa(c), SuperMeta(g, c)) && MarkStep(g1, g', c, g.Isa(c))
    ensures g'.PendingOk(null) && g'.TreeOk()
  {
    hide Graph.PendingOk, Graph.TreeOk;
    PrependedPending(g, g1, g.Isa(c), SuperMeta(g, c), null);
    PrependedTree(g, g1, g.Isa(c), SuperMeta(g, c));
    PendingFrame(g1, g', null, null);
    TreeFrame(g1, g');
  }

  /** What resolving `c` changes in the fields that pairing and mirroring depend on. */
  ghost predicate Summary(g: Graph, g': Graph, c: ObjcClass) {
    && SameClasses(g, g') && c in g.classes && g.Isa(c) != null
    && g'.tree == g.tree + {c, g.Isa(c)} && g'.resolved == g.resolved + {c, g.Isa(c)}
    && (forall x {:trigger g'.Isa(x)} :: x in g.classes ==>
          g'.Isa(x) == if x == g.Isa(c) then MetaMeta(g, c) else g.Isa(x))
    && (forall x {:trigger g'.Sup(x)} :: x in g.classes ==>
          g'.Sup(x) == if x == g.Isa(c) then SuperMeta(g, c) else g.Sup(x))
    && (forall x {:trigger g'.Sub(x)} :: x in g.classes && x.isMeta && x !in g'.tree ==> g'.Sub(x) == g.Sub(x))
  }

  lemma SummaryOfSteps(g: Graph, g1: Graph, g2: Graph, g3: Graph, g4: Graph, g': Graph, c: ObjcClass, k: nat)
    requires Ready(g, c, k) && UnlinkStep(g, g1, c, k) && g.Isa(c) != null && SuperMeta(g, c) != null
    requires MetaStep(g1, g2, g.Isa(c), SuperMeta(g, c), MetaMeta(g, c))
    requires var s := g2.Sup(c); if s == null then RootStep(g2, g3, c) else PrependStep(g2, g3, c, s)
    requires PrependStep(g3, g4, g.Isa(c), SuperMeta(g, c)) && MarkStep(g4, g', c, g.Isa(c))
    ensures Summary(g, g', c)
  {
    hide Graph.PendingOk, Graph.TreeOk, Graph.Stable, Ready, SuperMeta, MetaMeta, UnlinkStep, MetaStep, RootStep,
      PrependStep, MarkStep, Follow;
    SummaryOfSets(g, g1, g2, g3, g4, g', c, k);
    SummaryOfMaps(g, g1, g2, g3, g4, g', c, k);
    SummaryOfMetaStep(g1, g2, g', g.Isa(c), SuperMeta(g, c), MetaMeta(g, c));
    SummaryOfUnlink(g, g1, c, k);
    SummaryOfSubs(g, g1, g2, g3, g4, g', c, k);
  }

  lemma SummaryOfSets(g: Graph, g1: Graph, g2: Graph, g3: Graph, g4: Graph, g': Graph, c: ObjcClass, k: nat)
    requires UnlinkStep(g, g1, c, k) && g.Isa(c) != null && SuperMeta(g, c) != null
    requires MetaStep(g1, g2, g.Isa(c), SuperMeta(g, c), MetaMeta(g, c))
    requires var s := g2.Sup(c); if s == null then RootStep(g2, g3, c) else PrependStep(g2, g3, c, s)
    requires PrependStep(g3, g4, g.Isa(c), SuperMeta(g, c)) && MarkStep(g4, g', c, g.Isa(c))
    ensures SameClasses(g, g') && c in g.classes
    ensures g1.classes == g2.classes == g3.classes == g.classes
    ensures g'.tree == g.tree + {c, g.Isa(c)} && g'.resolved == g.resolved + {c, g.Isa(c)}
  {
    hide Graph.Isa, Graph.Sup, Graph.Sub, Graph.Sib, Follow, Without, SuperMeta, MetaMeta, Graph.Complete;
    assert g1.tree == g.tree && g2.tree == g1.tree && g3.tree == g2.tree + {c} && g4.tree == g3.tree + {g.Isa(c)};
  }

  lemma SummaryOfMaps(g: Graph, g1: Graph, g2: Graph, g3: Graph, g4: Graph, g': Graph, c: ObjcClass, k: nat)
    requires UnlinkStep(g, g1, c, k) && g.Isa(c) != null && SuperMeta(g, c) != null
    requires MetaStep(g1, g2, g.Isa(c), SuperMeta(g, c), MetaMeta(g, c))
    requires var s := g2.Sup(c); if s == null then RootStep(g2, g3, c) else PrependStep(g2, g3, c, s)
    requires PrependStep(g3, g4, g.Isa(c), SuperMeta(g, c)) && MarkStep(g4, g', c, g.Isa(c))
    ensures g'.isa == g2.isa && g'.sup == g2.sup && g2.sub == g1.sub && g'.sub == g4.sub
    ensures g2.Sup(c) == null ==> g3.sub == g2.sub
  {
    hide Graph.Isa, Graph.Sup, Graph.Sub, Graph.Sib, Follow, Without, SuperMeta, MetaMeta, Graph.Complete;
  }

  lemma SummaryOfUnlink(g: Graph, g1: Graph, c: ObjcClass, k: nat)
    requires UnlinkStep(g, g1, c, k)
    ensures forall x {:trigger g1.Isa(x)} :: x in g.classes ==> g1.Isa(x) == g.Isa(x)
    ensures forall x {:trigger g1.Sup(x)} :: x in g.classes ==> g1.Sup(x) == g.Sup(x)
  {
  }

  lemma SummaryOfSubs(g: Graph, g1: Graph, g2: Graph, g3: Graph, g4: Graph, g': Graph, c: ObjcClass, k: nat)
    requires Ready(g, c, k) && UnlinkStep(g, g1, c, k) && g.Isa(c) != null && SuperMeta(g, c) != null
    requires MetaStep(g1, g2, g.Isa(c), SuperMeta(g, c), MetaMeta(g, c))
    requires var s := g2.Sup(c); if s == null then RootStep(g2, g3, c) else PrependStep(g2, g3, c, s)
    requires PrependStep(g3, g4, g.Isa(c), SuperMeta(g, c)) && MarkStep(g4, g', c, g.Isa(c))
    ensures forall x {:trigger g'.Sub(x)} :: x in g.classes && x.isMeta && x !in g'.tree ==> g'.Sub(x) == g.Sub(x)
  {
    hide Graph.PendingOk, Graph.TreeOk, Graph.Stable, Ready, SuperMeta, MetaMeta, UnlinkStep, MetaStep, PrependStep,
      Follow, MarkStep;
    ReadyFacts(g, c, k);
    DetachedFields(g, g1, g2, c, k);
    SummaryOfSets(g, g1, g2, g3, g4, g', c, k);
    SummaryOfMaps(g, g1, g2, g3, g4, g', c, k);
    forall x | x in g.classes && x.isMeta && x !in g'.tree
      ensures g'.Sub(x) == g.Sub(x)
    {
      SummaryOfSub(g, g1, g2, g3, g4, g', c, k, x);
    }
  }

  lemma SummaryOfMetaStep(g1: Graph, g2: Graph, g': Graph, meta: ObjcClass, sup: ObjcClass?, isa: ObjcClass?)
    requires MetaStep(g1, g2, meta, sup, isa) && g'.isa == g2.isa && g'.sup == g2.sup
    ensures forall x {:trigger g'.Isa(x)} :: x in g1.classes ==> g'.Isa(x) == if x == meta then isa else g1.Isa(x)
    ensures forall x {:trigger g'.Sup(x)} :: x in g1.classes ==> g'.Sup(x) == if x == meta then sup else g1.Sup(x)
  {
    forall x | x in g1.classes
      ensures g'.Isa(x) == g2.Isa(x) && g'.Sup(x) == g2.Sup(x)
    {
    }
  }

  lemma SummaryOfSub(g: Graph, g1: Graph, g2: Graph, g3: Graph, g4: Graph, g': Graph, c: ObjcClass, k: nat,
                     x: ObjcClass)
    requires UnlinkStep(g, g1, c, k) && g.Isa(c) != null && SuperMeta(g, c) != null && g2.sub == g1.sub
    requires g3.sub == g2.sub || (g2.Sup(c) != null && PrependStep(g2, g3, c, g2.Sup(c)) && !g2.Sup(c).isMeta)
    requires PrependStep(g3, g4, g.Isa(c), SuperMeta(g, c)) && g'.sub == g4.sub
    requires g.Sib(c) != null ==> !g.Sib(c).isMeta
    requires x in g.classes && g3.classes == g.classes && g2.classes == g.classes
    requires x.isMeta && !c.isMeta && x != SuperMeta(g, c)
    ensures g'.Sub(x) == g.Sub(x)
  {
    hide Follow, Without, Graph.Complete;
    assert g1.Sub(x) == g.Sub(x);
    assert g3.Sub(x) == g2.Sub(x);
    assert g4.Sub(x) == g3.Sub(x);
  }

  lemma PairsKept(g: Graph, g': Graph, c: ObjcClass)
    requires g.PairsOk() && Summary(g, g', c) && !c.isMeta
    requires g.Sup(c) != null ==> g.Sup(c) in g.classes
    ensures g'.PairsOk()
  {
    hide Graph.Paired, Follow, MetaMeta, SuperMeta;
    IsaOfClass(g, c);
    forall x, y | x in g'.classes && y in g'.classes && !x.isMeta && !y.isMeta && g'.Isa(x) == g'.Isa(y)
      ensures x == y
    {
      assert g.Isa(x) == g.Isa(y);
    }
    forall x | x in g'.classes
      ensures g'.Paired(x)
    {
      PairKept(g, g', c, x);
    }
  }

  lemma IsaOfClass(g: Graph, c: ObjcClass)
    requires g.PairsOk() && c in g.classes && !c.isMeta
    ensures g.Isa(c) != null && g.Isa(c).isMeta
  {
    assert g.Paired(c);
  }

  lemma PairKept(g: Graph, g': Graph, c: ObjcClass, x: ObjcClass)
    requires g.PairsOk() && Summary(g, g', c) && !c.isMeta && x in g.classes
    requires g.Sup(c) != null ==> g.Sup(c) in g.classes
    ensures g'.Paired(x)
  {
    hide Follow, MetaMeta, SuperMeta;
    IsaOfClass(g, c);
    assert g.Paired(x) && g.Paired(c);
    assert g'.Isa(x) == if x == g.Isa(c) then MetaMeta(g, c) else g.Isa(x);
    assert g'.Sup(x) == if x == g.Isa(c) then SuperMeta(g, c) else g.Sup(x);
  }

  lemma MetaKept(g: Graph, g': Graph, c: ObjcClass, x: ObjcClass)
    requires Summary(g, g', c) && x in g.classes && g.Isa(x) != null && g.Isa(x) in g.classes && g.MetaOk(x)
    requires !x.isMeta && g.Isa(c).isMeta && g.Isa(x) != g.Isa(c)
    requires g.Sup(x) != null ==> g.Sup(x) in g.classes && !g.Sup(x).isMeta
    requires g.Sup(x) != null ==> g.Isa(g.Sup(x)) != null && g.Isa(g.Sup(x)) in g.classes && g.Isa(g.Sup(x)) != g.Isa(c)
    ensures g'.MetaOk(x)
  {
  }

  lemma MetasKept(g: Graph, g': Graph, c: ObjcClass)
    requires g.PairsOk() && g.KidsOk() && g.MetasOk() && Summary(g, g', c) && !c.isMeta && c !in g.tree
    requires g.Sup(c) != null ==> g.Sup(c) in g.tree
    ensures g'.MetasOk()
  {
    hide Graph.PairsOk, Graph.KidsOk, Graph.MetasOk, Graph.MetaOk;
    forall x | x in g'.tree && !x.isMeta
      ensures g'.MetaOk(x)
    {
      if x == c {
        MetaMirrors(g, g', c);
      } else {
        MetaFacts(g, c, x);
        MetaKept(g, g', c, x);
      }
    }
    AllMetasOk(g');
  }

  lemma MetaFacts(g: Graph, c: ObjcClass, x: ObjcClass)
    requires g.PairsOk() && g.KidsOk() && g.MetasOk() && c in g.classes && !c.isMeta && c !in g.tree
    requires !x.isMeta && (x in g.tree || x == g.Isa(c)) && x != c
    ensures x in g.classes && g.Isa(x) != null && g.Isa(x) in g.classes && g.MetaOk(x) && g.Isa(x) != g.Isa(c)
    ensures g.Isa(c) != null && g.Isa(c).isMeta
    ensures g.Sup(x) != null ==> g.Sup(x) in g.classes && !g.Sup(x).isMeta
    ensures g.Sup(x) != null ==> g.Isa(g.Sup(x)) != null && g.Isa(g.Sup(x)) in g.classes && g.Isa(g.Sup(x)) != g.Isa(c)
  {
    assert g.IsKid(x) && g.Paired(x) && g.Paired(c);
    assert g.Sup(x) != null ==> g.Paired(g.Sup(x));
  }

  lemma MetaMirrors(g: Graph, g': Graph, c: ObjcClass)
    requires g.PairsOk() && Summary(g, g', c) && !c.isMeta
    requires g.Sup(c) != null ==> g.Sup(c) in g.tree
    ensures g'.MetaOk(c)
  {
    assert g.Paired(c);
    assert g.Sup(c) != null ==> g.Paired(g.Sup(c));
  }

  lemma AllMetasOk(g: Graph)
    requires forall x :: x in g.tree && !x.isMeta ==> g.MetaOk(x)
    ensures g.MetasOk()
  {
  }

  /** Resolving a class keeps both lists, the pairing and the mirror of the hierarchy among metaclasses. */
  lemma ResolvedStable(g: Graph, g1: Graph, g2: Graph, g3: Graph, g4: Graph, g': Graph, c: ObjcClass, k: nat)
    requires Ready(g, c, k) && UnlinkStep(g, g1, c, k) && g.Isa(c) != null && SuperMeta(g, c) != null
    requires MetaStep(g1, g2, g.Isa(c), SuperMeta(g, c), MetaMeta(g, c))
    requires var s := g2.Sup(c); if s == null then RootStep(g2, g3, c) else PrependStep(g2, g3, c, s)
    requires PrependStep(g3, g4, g.Isa(c), SuperMeta(g, c)) && MarkStep(g4, g', c, g.Isa(c))
    ensures g'.Stable() && Summary(g, g', c) && g'.pending == Without(g.pending, k)
  {
    hide Graph.PendingOk, Graph.TreeOk, Graph.PairsOk, Graph.MetasOk, Graph.KidsOk, Summary, SuperMeta, MetaMeta;
    SummaryOfSteps(g, g1, g2, g3, g4, g', c, k);
    StableFacts(g);
    ReadyFacts(g, c, k);
    PairsKept(g, g', c);
    MetasKept(g, g', c);
    SummarySets(g, g', c);
    BothListsKept(g, g1, g2, g3, g4, g', c, k);
  }

  lemma StableFacts(g: Graph)
    requires g.Stable()
    ensures g.PendingOk(null) && g.TreeOk() && g.KidsOk() && g.PairsOk() && g.MetasOk() && g.resolved == g.tree
  {
  }

  lemma BothListsKept(g: Graph, g1: Graph, g2: Graph, g3: Graph, g4: Graph, g': Graph, c: ObjcClass, k: nat)
    requires Ready(g, c, k) && UnlinkStep(g, g1, c, k) && g.Isa(c) != null && SuperMeta(g, c) != null
    requires MetaStep(g1, g2, g.Isa(c), SuperMeta(g, c), MetaMeta(g, c))
    requires var s := g2.Sup(c); if s == null then RootStep(g2, g3, c) else PrependStep(g2, g3, c, s)
    requires PrependStep(g3, g4, g.Isa(c), SuperMeta(g, c)) && MarkStep(g4, g', c, g.Isa(c))
    ensures g'.PendingOk(null) && g'.TreeOk()
  {
    hide Graph.PendingOk, Graph.TreeOk, Graph.Stable, Ready, SuperMeta, MetaMeta, UnlinkStep, MetaStep, Detached,
      HalfLinked;
    DetachedBySteps(g, g1, g2, c, k);
    DetachedFields(g, g1, g2, c, k);
    HalfLinkedByStep(g2, g3, c);
    SameSuperMeta(g2, g3, c);
    LinkedBySteps(g3, g4, g', c);
  }

  lemma SameSuperMeta(g: Graph, g': Graph, c: ObjcClass)
    requires g'.isa == g.isa && g'.sup == g.sup
    ensures SuperMeta(g', c) == SuperMeta(g, c) && g'.Isa(c) == g.Isa(c)
  {
  }

  lemma SummarySets(g: Graph, g': Graph, c: ObjcClass)
    requires Summary(g, g', c)
    ensures g.Isa(c) != null && g'.classes == g.classes && g'.Complete()
    ensures g'.tree == g.tree + {c, g.Isa(c)} && g'.resolved == g.resolved + {c, g.Isa(c)}
  {
  }
}
