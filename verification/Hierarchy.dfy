/**
 The hierarchy of classes as it is declared, by pointer or by name, and which classes can
 be resolved in it.
 */
module Hierarchy {
  import opened Wrappers
  import opened ClassGraph
  import opened ClassLinking

  /**
   The superclass of a class as far as it is known: `Missing` if no class has the name that
   is given, `Absent` if the class that is pointed to has not been loaded.
   */
  datatype Up = Root | Via(sup: ObjcClass) | Missing | Absent(awaited: ObjcClass)

  ghost function UpOf(g: Graph, c: ObjcClass): Up {
    if g.Sup(c) != null then (if g.Sup(c) in g.classes then Via(g.Sup(c)) else Absent(g.Sup(c)))
    else if c.superName.None? then Root
    else if c.superName.value in g.table then Via(g.table[c.superName.value])
    else Missing
  }

  type Rank = map<ObjcClass, nat>

  /** The declared hierarchy has no cycle. */
  ghost predicate Ranked(g: Graph, rank: Rank) {
    && rank.Keys == g.classes
    && (forall c {:trigger UpOf(g, c)} :: c in g.classes && !c.isMeta && UpOf(g, c).Via? ==>
          UpOf(g, c).sup in g.classes && !UpOf(g, c).sup.isMeta && rank[UpOf(g, c).sup] < rank[c])
    && (forall c {:trigger UpOf(g, c)} :: c in g.tree && !c.isMeta ==>
          !UpOf(g, c).Missing? && !UpOf(g, c).Absent? && (UpOf(g, c).Via? ==> g.Sup(c) == UpOf(g, c).sup))
  }

  /** The chain of superclasses of `c` ends at a root class that has been registered. */
  ghost predicate Grounded(g: Graph, rank: Rank, c: ObjcClass)
    requires Ranked(g, rank) && c in g.classes && !c.isMeta
    decreases rank[c]
  {
    match UpOf(g, c)
    case Root => true
    case Via(s) => Grounded(g, rank, s)
    case _ => false
  }

  /** All superclasses of `c` that are given by pointer have been loaded. */
  ghost predicate ChainLoaded(g: Graph, rank: Rank, c: ObjcClass)
    requires Ranked(g, rank) && c in g.classes && !c.isMeta
    decreases rank[c]
  {
    match UpOf(g, c)
    case Via(s) => ChainLoaded(g, rank, s)
    case Absent(_) => false
    case _ => true
  }

  /** `c` and its superclasses. */
  ghost function Chain(g: Graph, rank: Rank, c: ObjcClass): set<ObjcClass>
    requires Ranked(g, rank) && c in g.classes && !c.isMeta
    decreases rank[c]
  {
    if UpOf(g, c).Via? then {c} + Chain(g, rank, UpOf(g, c).sup) else {c}
  }

  /** The class is in the graph, and all its superclasses that are given by pointer have been loaded. */
  ghost predicate Loadable(g: Graph, rank: Rank, c: ObjcClass) {
    Ranked(g, rank) && c in g.classes && !c.isMeta && ChainLoaded(g, rank, c)
  }

  ghost predicate SameUps(g: Graph, g': Graph) {
    && g'.classes == g.classes && g'.table == g.table
    && (forall c {:trigger UpOf(g', c)} :: c in g.classes && !c.isMeta ==> UpOf(g', c) == UpOf(g, c))
    && (forall c {:trigger g'.Sup(c)} :: c in g.classes && !c.isMeta && g.Sup(c) != null ==> g'.Sup(c) == g.Sup(c))
  }

  lemma SameUpsSelf(g: Graph)
    ensures SameUps(g, g)
  {
  }

  lemma SameUpsClasses(g: Graph, g': Graph)
    requires SameUps(g, g')
    ensures g'.classes == g.classes && g'.table == g.table
  {
  }

  lemma SameUpsTransitive(g: Graph, g1: Graph, g2: Graph)
    requires SameUps(g, g1) && SameUps(g1, g2)
    ensures SameUps(g, g2)
  {
    forall x | x in g.classes && !x.isMeta
      ensures UpOf(g2, x) == UpOf(g, x) && (g.Sup(x) != null ==> g2.Sup(x) == g.Sup(x))
    {
      assert UpOf(g1, x) == UpOf(g, x) && (g.Sup(x) != null ==> g1.Sup(x) == g.Sup(x));
    }
  }

  lemma {:induction false} ChainRank(g: Graph, rank: Rank, c: ObjcClass)
    requires Ranked(g, rank) && c in g.classes && !c.isMeta
    ensures forall x :: x in Chain(g, rank, c) ==> x in rank && rank[x] <= rank[c]
    decreases rank[c]
  {
    if UpOf(g, c).Via? {
      ChainRank(g, rank, UpOf(g, c).sup);
    }
  }

  lemma {:induction false} SameGrounded(g: Graph, g': Graph, rank: Rank, c: ObjcClass)
    requires Ranked(g, rank) && Ranked(g', rank) && SameUps(g, g') && c in g.classes && !c.isMeta
    ensures Grounded(g', rank, c) == Grounded(g, rank, c) && Chain(g', rank, c) == Chain(g, rank, c)
    ensures ChainLoaded(g', rank, c) == ChainLoaded(g, rank, c)
    decreases rank[c]
  {
    assert UpOf(g', c) == UpOf(g, c);
    if UpOf(g, c).Via? {
      SameGrounded(g, g', rank, UpOf(g, c).sup);
    }
  }

  lemma {:induction false} LinkedIsGrounded(g: Graph, rank: Rank, c: ObjcClass)
    requires Ranked(g, rank) && g.TreeOk() && g.PairsOk() && c in g.tree && !c.isMeta
    ensures c in g.classes && Grounded(g, rank, c) && Chain(g, rank, c) <= g.tree
    decreases rank[c]
  {
    assert g.IsKid(c);
    if UpOf(g, c).Via? {
      assert g.Paired(c);
      LinkedIsGrounded(g, rank, UpOf(g, c).sup);
    }
  }

  /** `c` has been linked: its declared superclass is a pointer by now. */
  lemma LinkedKeepsUps(g: Graph, g': Graph, rank: Rank, c: ObjcClass)
    requires Ranked(g, rank) && Summary(g, g', c) && !c.isMeta && g.Isa(c).isMeta && g.tree <= g.classes
    requires if g.Sup(c) == null then c.superName.None? else g.Sup(c) in g.classes
    ensures SameUps(g, g') && Ranked(g', rank)
  {
    hide UpOf;
    forall x | x in g.classes && !x.isMeta
      ensures g'.Sup(x) == g.Sup(x)
    {
    }
    SameSupsSameUps(g, g', rank, c);
  }

  lemma SameSupsSameUps(g: Graph, g': Graph, rank: Rank, c: ObjcClass)
    requires Ranked(g, rank) && g'.classes == g.classes && g'.table == g.table && c in g.classes && !c.isMeta
    requires forall x {:trigger g'.Sup(x)} :: x in g.classes && !x.isMeta ==> g'.Sup(x) == g.Sup(x)
    requires forall x :: x in g'.tree && !x.isMeta ==> x in g.tree || x == c
    requires g.tree <= g.classes && if g.Sup(c) == null then c.superName.None? else g.Sup(c) in g.classes
    ensures SameUps(g, g') && Ranked(g', rank)
  {
    hide Follow;
  }

  /** The superclass of an unresolved class, found by name, is noted in the class. */
  ghost predicate FoundStep(g: Graph, g': Graph, c: ObjcClass, s: ObjcClass) {
    g.Complete() && c in g.classes && g' == g.(sup := g.sup[c := s])
  }

  lemma FoundKeepsStable(g: Graph, g': Graph, c: ObjcClass, s: ObjcClass)
    requires g.Stable() && FoundStep(g, g', c, s) && !c.isMeta && c !in g.tree
    requires s in g.classes && !s.isMeta
    ensures g'.Stable()
  {
    hide Graph.PendingOk, Graph.TreeOk, Graph.KidsOk, Graph.PairsOk, Graph.MetasOk, Graph.ListsOk;
    StableFacts(g);
    PendingFrame(g, g', null, null);
    TreeFrame(g, g');
    FoundKeepsPairs(g, g', c, s);
  }

  lemma FoundKeepsPairs(g: Graph, g': Graph, c: ObjcClass, s: ObjcClass)
    requires g.PairsOk() && g.MetasOk() && g.KidsOk() && FoundStep(g, g', c, s) && !c.isMeta && c !in g.tree
    requires s in g.classes && !s.isMeta
    ensures g'.PairsOk() && g'.MetasOk()
  {
    forall x, y | x in g'.classes && y in g'.classes && !x.isMeta && !y.isMeta && g'.Isa(x) == g'.Isa(y)
      ensures x == y
    {
      assert g.Isa(x) == g.Isa(y);
    }
    forall x | x in g'.classes
      ensures g'.Paired(x)
    {
      assert g.Paired(x);
    }
    forall x | x in g'.tree && !x.isMeta
      ensures g'.MetaOk(x)
    {
      assert g.MetaOk(x) && g.Paired(x) && g.IsKid(x);
    }
  }

  lemma FoundKeepsUps(g: Graph, g': Graph, rank: Rank, c: ObjcClass, s: ObjcClass)
    requires Ranked(g, rank) && FoundStep(g, g', c, s) && !c.isMeta && c !in g.tree
    requires UpOf(g, c) == Via(s)
    ensures SameUps(g, g') && Ranked(g', rank)
  {
  }

  /** `p'` lists some of the members of `p`, in the order of `p`. */
  ghost predicate InOrder(p': seq<ObjcClass>, p: seq<ObjcClass>) {
    && (forall x :: x in p' ==> x in p)
    && (forall i, j, a, b ::
          0 <= i < j < |p'| && 0 <= a < |p| && 0 <= b < |p| && p'[i] == p[a] && p'[j] == p[b] ==> a < b)
  }

  lemma WithoutInOrder(p: seq<ObjcClass>, k: nat)
    requires Distinct(p) && k < |p|
    ensures InOrder(Without(p, k), p)
  {
    var q := Without(p, k);
    forall i, j, a, b | 0 <= i < j < |q| && 0 <= a < |p| && 0 <= b < |p| && q[i] == p[a] && q[j] == p[b]
      ensures a < b
    {
      SamePlace(p, a, if i < k then i else i + 1);
      SamePlace(p, b, if j < k then j else j + 1);
    }
  }

  lemma InOrderSelf(p: seq<ObjcClass>)
    requires Distinct(p)
    ensures InOrder(p, p)
  {
    forall i, j, a, b | 0 <= i < j < |p| && 0 <= a < |p| && 0 <= b < |p| && p[i] == p[a] && p[j] == p[b]
      ensures a < b
    {
      SamePlace(p, i, a);
      SamePlace(p, j, b);
    }
  }

  lemma InOrderMember(p: seq<ObjcClass>, q: seq<ObjcClass>, c: ObjcClass)
    requires InOrder(p, q)
    ensures c in p ==> c in q
  {
  }

  lemma InOrderTransitive(p: seq<ObjcClass>, q: seq<ObjcClass>, r: seq<ObjcClass>)
    requires InOrder(p, q) && InOrder(q, r)
    ensures InOrder(p, r)
  {
    forall i, j, a, b | 0 <= i < j < |p| && 0 <= a < |r| && 0 <= b < |r| && p[i] == r[a] && p[j] == r[b]
      ensures a < b
    {
      assert p[i] in q && p[j] in q;
      var m :| 0 <= m < |q| && q[m] == p[i];
      var n :| 0 <= n < |q| && q[n] == p[j];
    }
  }

  /** What an attempt to resolve `c` may change. */
  ghost predicate Attempted(g: Graph, g': Graph, rank: Rank, c: ObjcClass, ok: bool)
    requires Ranked(g, rank) && c in g.classes && !c.isMeta
  {
    && SameUps(g, g') && InOrder(g'.pending, g.pending)
    && ok == Grounded(g, rank, c)
    && (!ok ==> g'.tree == g.tree && g'.pending == g.pending)
    && (ok ==> LinkedWith(g, g', Chain(g, rank, c)))
  }

  /** The classes of `chain` have been linked, and no others. */
  ghost predicate LinkedWith(g: Graph, g': Graph, chain: set<ObjcClass>) {
    && g.tree <= g'.tree
    && forall x: ObjcClass {:trigger x in g'.tree} :: x in g.classes && !x.isMeta ==>
         (x in g'.tree <==> x in g.tree || x in chain)
  }

  /** The superclass has been resolved, and now the class itself. */
  lemma AttemptedAbove(g: Graph, g1: Graph, g': Graph, rank: Rank, c: ObjcClass, k: nat)
    requires Ranked(g, rank) && g.Stable()
    requires c in g.classes && !c.isMeta && Ready(g1, c, k) && Summary(g1, g', c)
    requires g'.pending == Without(g1.pending, k)
    requires SameUps(g1, g')
    requires if UpOf(g, c).Via? then Attempted(g, g1, rank, UpOf(g, c).sup, true) else UpOf(g, c).Root? && g1 == g
    ensures Attempted(g, g', rank, c, true)
  {
    hide Graph.Stable, Ranked, Ready, InOrder, Summary;
    ReadyFacts(g1, c, k);
    SummarySets(g1, g', c);
    AttemptedOrder(g, g1, g', c, k);
    AttemptedChain(g, g1, g', rank, c);
  }

  lemma AttemptedOrder(g: Graph, g1: Graph, g': Graph, c: ObjcClass, k: nat)
    requires g.Stable() && Ready(g1, c, k) && g'.pending == Without(g1.pending, k)
    requires g1 == g || InOrder(g1.pending, g.pending)
    ensures InOrder(g'.pending, g.pending)
  {
    hide InOrder, Without;
    StableFacts(g);
    StableFacts(g1);
    InOrderSelf(g.pending);
    WithoutInOrder(g1.pending, k);
    InOrderTransitive(g'.pending, g1.pending, g.pending);
  }

  lemma AttemptedChain(g: Graph, g1: Graph, g': Graph, rank: Rank, c: ObjcClass)
    requires Ranked(g, rank) && c in g.classes && !c.isMeta && SameUps(g1, g')
    requires g1.Isa(c) != null && g1.Isa(c).isMeta && g'.tree == g1.tree + {c, g1.Isa(c)}
    requires if UpOf(g, c).Via? then Attempted(g, g1, rank, UpOf(g, c).sup, true) else UpOf(g, c).Root? && g1 == g
    ensures SameUps(g, g') && Grounded(g, rank, c) && LinkedWith(g, g', Chain(g, rank, c))
  {
    hide InOrder;
    if g1 != g {
      SameUpsTransitive(g, g1, g');
    }
  }

  lemma PendingOrder(g: Graph)
    requires g.PendingOk(null)
    ensures InOrder(g.pending, g.pending)
  {
    InOrderSelf(g.pending);
  }

  /** Nothing happened, and the answer is the right one. */
  lemma AttemptedNothing(g: Graph, rank: Rank, c: ObjcClass, ok: bool)
    requires Ranked(g, rank) && g.Stable() && c in g.classes && !c.isMeta
    requires if ok then c in g.tree else UpOf(g, c).Missing?
    ensures Attempted(g, g, rank, c, ok)
  {
    hide *;
    StableFacts(g);
    PendingOrder(g);
    SameUpsSelf(g);
    if ok {
      LinkedIsGrounded(g, rank, c);
    } else {
      MissingNotGrounded(g, rank, c);
    }
    AttemptedMade(g, rank, c, ok);
  }

  lemma AttemptedMade(g: Graph, rank: Rank, c: ObjcClass, ok: bool)
    requires Ranked(g, rank) && c in g.classes && !c.isMeta
    requires SameUps(g, g) && InOrder(g.pending, g.pending) && ok == Grounded(g, rank, c)
    requires ok ==> Chain(g, rank, c) <= g.tree
    ensures Attempted(g, g, rank, c, ok)
  {
    hide Ranked, SameUps, InOrder, Grounded, Chain;
  }

  lemma MissingNotGrounded(g: Graph, rank: Rank, c: ObjcClass)
    requires Ranked(g, rank) && c in g.classes && !c.isMeta && UpOf(g, c).Missing?
    ensures !Grounded(g, rank, c)
  {
  }

  /** A failure to resolve the superclass is a failure to resolve the class. */
  lemma AttemptFails(g: Graph, g': Graph, rank: Rank, c: ObjcClass)
    requires Ranked(g, rank) && c in g.classes && !c.isMeta && UpOf(g, c).Via?
    requires Attempted(g, g', rank, UpOf(g, c).sup, false)
    ensures Attempted(g, g', rank, c, false)
  {
  }

  /** Noting a superclass that was found by name does not change what an attempt does. */
  lemma AttemptAfterNote(g: Graph, g1: Graph, g': Graph, rank: Rank, c: ObjcClass, ok: bool)
    requires Ranked(g, rank) && Ranked(g1, rank) && SameUps(g, g1) && c in g.classes && !c.isMeta
    requires g1.tree == g.tree && g1.pending == g.pending && Attempted(g1, g', rank, c, ok)
    ensures Attempted(g, g', rank, c, ok)
  {
    SameGrounded(g, g1, rank, c);
    hide InOrder, Chain, Grounded;
    SameUpsTransitive(g, g1, g');
  }

  lemma {:induction false} DistinctSize(s: seq<ObjcClass>)
    requires Distinct(s)
    ensures |set x | x in s| == |s|
  {
    if s != [] {
      var t := s[..|s| - 1];
      DistinctSize(t);
      assert (set x | x in s) == (set x | x in t) + {s[|s| - 1]};
    } else {
      assert (set x | x in s) == {};
    }
  }

  lemma InOrderShorter(p': seq<ObjcClass>, p: seq<ObjcClass>)
    requires InOrder(p', p) && Distinct(p') && Distinct(p)
    ensures |p'| <= |p|
    ensures forall x :: x in p && x !in p' ==> |p'| < |p|
  {
    var s', s := set x | x in p', set x | x in p;
    DistinctSize(p');
    DistinctSize(p);
    assert s' <= s;
    SubsetSize(s', s);
    forall x | x in p && x !in p'
      ensures |p'| < |p|
    {
      assert s' <= s - {x} && x in s;
      SubsetSize(s', s - {x});
    }
  }

  lemma {:induction false} SubsetSize(s: set<ObjcClass>, t: set<ObjcClass>)
    requires s <= t
    ensures |s| <= |t|
  {
    assert t == s + (t - s);
  }

  lemma PendingDistinct(g: Graph)
    requires g.PendingOk(null)
    ensures Distinct(g.pending)
  {
  }

  lemma NextPending(g: Graph, k: nat)
    requires g.PendingOk(null) && k < |g.pending|
    ensures g.Sub(g.pending[k]) == At(g.pending, k + 1)
    ensures k + 1 < |g.pending| ==>
      g.pending[k + 1] in g.pending && g.pending[k + 1] in g.classes && !g.pending[k + 1].isMeta
  {
    hide Distinct, Follow;
    assert g.PendingAt(k);
    assert k + 1 < |g.pending| ==> g.Waiting(g.pending[k + 1]);
  }

  /** The class after `c` in the list comes after `c` in any earlier state of the list. */
  lemma NextPlace(g: Graph, p: seq<ObjcClass>, c: ObjcClass, i: nat) returns (j: nat)
    requires g.PendingOk(null) && InOrder(g.pending, p) && i < |p| && p[i] == c && c in g.pending
    ensures g.Sub(c) != null ==> i < j < |p| && p[j] == g.Sub(c) && g.Sub(c) in g.classes && !g.Sub(c).isMeta
    ensures g.pending == p ==> j == i + 1 && g.Sub(c) == At(p, i + 1)
  {
    hide Follow, Distinct, Graph.PendingOk;
    var k :| 0 <= k < |g.pending| && g.pending[k] == c;
    NextPending(g, k);
    if g.pending == p {
      PendingDistinct(g);
      SamePlace(p, k, i);
      j := i + 1;
    } else if k + 1 < |g.pending| {
      assert g.pending[k + 1] in p;
      j :| 0 <= j < |p| && p[j] == g.pending[k + 1];
    } else {
      j := 0;
    }
  }
}
