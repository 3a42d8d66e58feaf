/**
 Changes to the hierarchy after classes have been linked: loading a class, giving a class
 another superclass and disposing of a class.
 */
module Reparenting {
  import opened Wrappers
  import opened ClassGraph
  import opened ClassLinking
  import opened Hierarchy

  // ----- loading -----

  /** `c` and its metaclass `m` become known; `c` goes to the front of the list of unresolved classes. */
  ghost predicate LoadStep(g: Graph, g': Graph, c: ObjcClass, m: ObjcClass) {
    && LoadBooks(g, g', c, m) && LoadLinks(g, g', c, m)
    && g'.Isa(c) == m && g'.Sub(c) == g.head && g'.Sib(c) == null && g'.Sub(m) == null
    && (g'.Sup(c) != null ==> !g'.Sup(c).isMeta)
  }

  ghost predicate LoadBooks(g: Graph, g': Graph, c: ObjcClass, m: ObjcClass) {
    && g.Complete() && g'.Complete()
    && c !in g.classes && m !in g.classes && !c.isMeta && m.isMeta && c.name !in g.table
    && g'.classes == g.classes + {c, m} && g'.table == g.table[c.name := c]
    && g'.resolved == g.resolved && g'.tree == g.tree && g'.kids == g.kids[c := []][m := []]
    && g'.pending == [c] + g.pending && g'.head == c
  }

  ghost predicate LoadLinks(g: Graph, g': Graph, c: ObjcClass, m: ObjcClass) {
    && (forall x {:trigger g'.Isa(x)} :: x in g.classes ==> g'.Isa(x) == g.Isa(x))
    && (forall x {:trigger g'.Sup(x)} :: x in g.classes ==> g'.Sup(x) == g.Sup(x))
    && (forall x {:trigger g'.Sub(x)} :: x in g.classes ==> g'.Sub(x) == g.Sub(x))
    && (forall x {:trigger g'.Sib(x)} :: x in g.classes ==> g'.Sib(x) == if x == g.head then c else g.Sib(x))
  }

  /** The graph with `c` and `m` added, given those of their links that the loader leaves alone. */
  ghost function Loaded(g: Graph, c: ObjcClass, m: ObjcClass, sup: ObjcClass?, supM: ObjcClass?, isaM: ObjcClass?,
                        sibM: ObjcClass?): Graph {
    g.(classes := g.classes + {c, m}, isa := g.isa[c := m][m := isaM], sup := g.sup[c := sup][m := supM],
       sub := g.sub[c := g.head][m := null],
       sib := (if g.head == null then g.sib else g.sib[g.head := c])[c := null][m := sibM],
       head := c, table := g.table[c.name := c], pending := [c] + g.pending, kids := g.kids[c := []][m := []])
  }

  lemma LoadMade(g: Graph, c: ObjcClass, m: ObjcClass, sup: ObjcClass?, supM: ObjcClass?, isaM: ObjcClass?,
                 sibM: ObjcClass?)
    requires g.Complete() && c !in g.classes && m !in g.classes && !c.isMeta && m.isMeta && c.name !in g.table
    requires g.head != null ==> g.head in g.classes
    requires sup != null ==> !sup.isMeta
    ensures LoadStep(g, Loaded(g, c, m, sup, supM, isaM, sibM), c, m)
    ensures Loaded(g, c, m, sup, supM, isaM, sibM).Sup(c) == sup
  {
    hide Follow, Loaded, LoadBooks;
    var g' := Loaded(g, c, m, sup, supM, isaM, sibM);
    LoadMadeBooks(g, c, m, sup, supM, isaM, sibM);
    LoadMadeAt(g, c, m, sup, supM, isaM, sibM, c);
    LoadMadeAt(g, c, m, sup, supM, isaM, sibM, m);
    forall x | x in g.classes
      ensures g'.Isa(x) == g.Isa(x) && g'.Sup(x) == g.Sup(x) && g'.Sub(x) == g.Sub(x)
      ensures g'.Sib(x) == if x == g.head then c else g.Sib(x)
    {
      LoadMadeAt(g, c, m, sup, supM, isaM, sibM, x);
    }
  }

  lemma LoadMadeBooks(g: Graph, c: ObjcClass, m: ObjcClass, sup: ObjcClass?, supM: ObjcClass?, isaM: ObjcClass?,
                      sibM: ObjcClass?)
    requires g.Complete() && c !in g.classes && m !in g.classes && !c.isMeta && m.isMeta && c.name !in g.table
    requires g.head != null ==> g.head in g.classes
    ensures LoadBooks(g, Loaded(g, c, m, sup, supM, isaM, sibM), c, m)
  {
    hide Follow, Graph.Complete;
    LoadMadeComplete(g, c, m, sup, supM, isaM, sibM);
  }

  lemma LoadMadeComplete(g: Graph, c: ObjcClass, m: ObjcClass, sup: ObjcClass?, supM: ObjcClass?, isaM: ObjcClass?,
                         sibM: ObjcClass?)
    requires g.Complete() && (g.head != null ==> g.head in g.classes)
    ensures Loaded(g, c, m, sup, supM, isaM, sibM).Complete()
  {
    TwoKeys(g.isa, c, m, m, isaM);
    TwoKeys(g.sup, c, sup, m, supM);
    TwoKeys(g.sub, c, g.head, m, null);
    TwoKeys(if g.head == null then g.sib else g.sib[g.head := c], c, null, m, sibM);
    TwoKeys(g.kids, c, [], m, []);
    if g.head != null {
      assert g.sib[g.head := c].Keys == g.sib.Keys;
    }
  }

  lemma TwoKeys<V>(f: map<ObjcClass, V>, c: ObjcClass, v: V, m: ObjcClass, w: V)
    ensures f[c := v][m := w].Keys == f.Keys + {c, m}
  {
  }

  lemma LoadMadeAt(g: Graph, c: ObjcClass, m: ObjcClass, sup: ObjcClass?, supM: ObjcClass?, isaM: ObjcClass?,
                   sibM: ObjcClass?, x: ObjcClass)
    requires c !in g.classes && m !in g.classes && (g.head != null ==> g.head in g.classes)
    ensures var g' := Loaded(g, c, m, sup, supM, isaM, sibM);
      && g'.Isa(x) == (if x == m then isaM else if x == c then m else g.Isa(x))
      && g'.Sup(x) == (if x == m then supM else if x == c then sup else g.Sup(x))
      && g'.Sub(x) == (if x == m then null else if x == c then g.head else g.Sub(x))
      && g'.Sib(x) == (if x == m then sibM else if x == c then null else if x == g.head then c else g.Sib(x))
  {
    hide Follow;
    TwoUpdates(g.isa, c, m, m, isaM, x);
    TwoUpdates(g.sup, c, sup, m, supM, x);
    TwoUpdates(g.sub, c, g.head, m, null, x);
    TwoUpdates(if g.head == null then g.sib else g.sib[g.head := c], c, null, m, sibM, x);
    if g.head != null {
      OneUpdate(g.sib, g.head, c, x);
    }
  }

  lemma OneUpdate(f: Field, c: ObjcClass, v: ObjcClass?, x: ObjcClass)
    ensures Follow(f[c := v], x) == if x == c then v else Follow(f, x)
  {
  }

  lemma TwoUpdates(f: Field, c: ObjcClass, v: ObjcClass?, d: ObjcClass, w: ObjcClass?, x: ObjcClass)
    ensures Follow(f[c := v][d := w], x) == if x == d then w else if x == c then v else Follow(f, x)
  {
  }

  lemma LoadName(g: Graph, g': Graph, c: ObjcClass, m: ObjcClass)
    requires LoadStep(g, g', c, m)
    ensures c.name !in g.table && g'.table == g.table[c.name := c]
  {
  }

  lemma LoadSets(g: Graph, g': Graph, c: ObjcClass, m: ObjcClass)
    requires LoadStep(g, g', c, m)
    ensures g.Complete() && g'.Complete() && c !in g.classes && m !in g.classes && !c.isMeta && m.isMeta
    ensures g'.classes == g.classes + {c, m} && g'.tree == g.tree && g'.resolved == g.resolved
    ensures g'.pending == [c] + g.pending && g'.head == c && g'.kids == g.kids[c := []][m := []]
    ensures g'.Sub(c) == g.head && g'.Sib(c) == null && g'.Sub(m) == null && g'.Isa(c) == m
    ensures g'.Sup(c) != null ==> !g'.Sup(c).isMeta
  {
  }

  lemma LoadAt(g: Graph, g': Graph, c: ObjcClass, m: ObjcClass, x: ObjcClass)
    requires LoadStep(g, g', c, m) && x in g.classes
    ensures g'.Isa(x) == g.Isa(x) && g'.Sup(x) == g.Sup(x) && g'.Sub(x) == g.Sub(x)
    ensures g'.Sib(x) == (if x == g.head then c else g.Sib(x)) && x != c && x != m
  {
  }

  lemma LoadedPending(g: Graph, g': Graph, c: ObjcClass, m: ObjcClass)
    requires g.PendingOk(null) && LoadStep(g, g', c, m)
    ensures g'.PendingOk(null)
  {
    hide LoadStep, Distinct, Follow;
    LoadSets(g, g', c, m);
    forall x | x in g'.pending
      ensures g'.Waiting(x)
    {
      assert x != c ==> g.Waiting(x);
    }
    forall x | x in g'.classes && g'.Waiting(x)
      ensures x in g'.pending
    {
      assert x != c ==> g.Waiting(x);
    }
    forall i | 0 <= i < |g'.pending|
      ensures g'.PendingAt(i)
    {
      LoadedPlace(g, g', c, m, i);
    }
    assert c in g.pending ==> g.Waiting(c);
    PrependedDistinct(c, g.pending);
  }

  lemma HeadIsFirst(g: Graph)
    requires g.PendingOk(null)
    ensures g.head == At(g.pending, 0)
  {
  }

  lemma PlaceFacts(g: Graph, k: nat)
    requires g.PendingOk(null) && k < |g.pending|
    ensures g.PendingAt(k) && g.pending[k] in g.classes && (g.pending[k] == g.head <==> k == 0)
  {
    assert g.Waiting(g.pending[k]);
    SamePlace(g.pending, k, 0);
  }

  lemma LoadedPlace(g: Graph, g': Graph, c: ObjcClass, m: ObjcClass, i: nat)
    requires g.PendingOk(null) && LoadStep(g, g', c, m) && i < |g'.pending|
    ensures g'.PendingAt(i)
  {
    hide LoadStep, Follow, Graph.PendingOk, Distinct, Graph.Complete, Graph.PendingAt;
    if i == 0 {
      LoadedFirst(g, g', c, m);
    } else {
      LoadSets(g, g', c, m);
      LoadedLater(g, g', c, m, i - 1);
    }
  }

  lemma LoadedFirst(g: Graph, g': Graph, c: ObjcClass, m: ObjcClass)
    requires g.PendingOk(null) && LoadStep(g, g', c, m) && |g'.pending| > 0
    ensures g'.PendingAt(0)
  {
    hide LoadStep, Follow, Graph.PendingOk, Distinct, Graph.Complete;
    LoadSets(g, g', c, m);
    HeadIsFirst(g);
  }

  lemma LoadedLater(g: Graph, g': Graph, c: ObjcClass, m: ObjcClass, k: nat)
    requires g.PendingOk(null) && LoadStep(g, g', c, m) && k < |g.pending| && k + 1 < |g'.pending|
    ensures g'.PendingAt(k + 1)
  {
    hide LoadStep, Follow, Graph.PendingOk, Distinct, Graph.Complete;
    LoadedFront(g, g', c, m);
    HeadIsFirst(g);
    PlaceFacts(g, k);
    LoadAt(g, g', c, m, g.pending[k]);
  }

  lemma LoadedFront(g: Graph, g': Graph, c: ObjcClass, m: ObjcClass)
    requires LoadStep(g, g', c, m)
    ensures g'.pending == [c] + g.pending && g'.head == c
  {
  }

  lemma LoadedTree(g: Graph, g': Graph, c: ObjcClass, m: ObjcClass)
    requires g.PendingOk(null) && g.TreeOk() && LoadStep(g, g', c, m)
    ensures g'.TreeOk()
  {
    hide LoadStep, Graph.KidsOk, Follow, Distinct, Graph.PendingOk;
    LoadSets(g, g', c, m);
    HeadWaits(g);
    LoadedKids(g, g', c, m);
    forall x | x in g'.tree
      ensures x in g'.kids && g'.ListsKids(x)
    {
      InTree(g, x);
      KidsAreLinked(g, x);
      LoadAt(g, g', c, m, x);
      forall d | d in g.kids[x]
        ensures g'.Sib(d) == g.Sib(d)
      {
        InTree(g, d);
        LoadAt(g, g', c, m, d);
      }
      KidsFrame(g, g', x);
    }
  }

  lemma HeadWaits(g: Graph)
    requires g.PendingOk(null)
    ensures g.head != null ==> g.head !in g.tree && g.head in g.classes
  {
    assert g.head != null ==> g.Waiting(g.head);
  }

  lemma LoadedKids(g: Graph, g': Graph, c: ObjcClass, m: ObjcClass)
    requires g.KidsOk() && LoadStep(g, g', c, m)
    ensures g'.KidsOk()
  {
    hide LoadStep, Graph.KidsOk, Follow, Distinct, Graph.IsKid;
    LoadSets(g, g', c, m);
    LoadedDistinct(g, g', c, m);
    LoadedMembers(g, g', c, m);
    forall d | d in g'.tree
      ensures g'.IsKid(d)
    {
      LoadedKid(g, g', c, m, d);
    }
    AllKidsOk(g');
  }

  lemma LoadedKid(g: Graph, g': Graph, c: ObjcClass, m: ObjcClass, d: ObjcClass)
    requires g.KidsOk() && LoadStep(g, g', c, m) && g'.Complete() && d in g'.tree
    ensures g'.IsKid(d)
  {
    hide LoadStep, Graph.KidsOk, Follow;
    LoadSets(g, g', c, m);
    TreeIsKid(g, d);
    LoadAt(g, g', c, m, d);
  }

  lemma LoadedMembers(g: Graph, g': Graph, c: ObjcClass, m: ObjcClass)
    requires g.KidsOk() && LoadStep(g, g', c, m)
    ensures g'.kids.Keys == g'.classes
    ensures forall x, d :: x in g'.classes && d in g'.kids[x] ==> d in g'.tree && g'.Sup(d) == x
  {
    hide *;
    LoadedKeys(g, g', c, m);
    forall x, d | x in g'.classes && d in g'.kids[x]
      ensures d in g'.tree && g'.Sup(d) == x
    {
      LoadedKidsOf(g, g', c, m, x);
      KidsAreLinked(g, x);
      InTree(g, d);
      LoadAt(g, g', c, m, d);
    }
  }

  lemma LoadedKeys(g: Graph, g': Graph, c: ObjcClass, m: ObjcClass)
    requires LoadStep(g, g', c, m)
    ensures g'.kids.Keys == g'.classes && g'.tree == g.tree
  {
    hide LoadLinks, Follow;
  }

  lemma LoadedKidsOf(g: Graph, g': Graph, c: ObjcClass, m: ObjcClass, x: ObjcClass)
    requires LoadStep(g, g', c, m) && x in g'.classes
    ensures x in g'.kids && if x in g.classes then x in g.kids && g'.kids[x] == g.kids[x] else g'.kids[x] == []
  {
    hide LoadLinks, Follow;
  }

  lemma LoadedDistinct(g: Graph, g': Graph, c: ObjcClass, m: ObjcClass)
    requires g.KidsOk() && LoadStep(g, g', c, m)
    ensures forall x :: x in g'.classes ==> Distinct(g'.kids[x])
  {
    hide LoadStep, Graph.KidsOk, Distinct;
    LoadSets(g, g', c, m);
    KidsDistinct(g);
    NoneDistinct();
  }

  lemma NoneDistinct()
    ensures Distinct([])
  {
  }

  lemma LoadedPairs(g: Graph, g': Graph, c: ObjcClass, m: ObjcClass)
    requires g.PairsOk() && g.KidsOk() && LoadStep(g, g', c, m)
    ensures g'.PairsOk()
  {
    hide *;
    forall x | x in g'.classes
      ensures g'.Paired(x)
    {
      LoadedPair(g, g', c, m, x);
    }
    forall x, y | x in g'.classes && y in g'.classes && !x.isMeta && !y.isMeta && g'.Isa(x) == g'.Isa(y)
      ensures x == y
    {
      LoadedApart(g, g', c, m, x, y);
    }
    LoadedTable(g, g', c, m);
    AllPairsOk(g');
  }

  lemma LoadedTable(g: Graph, g': Graph, c: ObjcClass, m: ObjcClass)
    requires g.PairsOk() && LoadStep(g, g', c, m)
    ensures forall n :: n in g'.table ==> g'.table[n] in g'.classes && !g'.table[n].isMeta && g'.table[n].name == n
  {
    hide Follow, Graph.Paired;
  }

  lemma LoadedApart(g: Graph, g': Graph, c: ObjcClass, m: ObjcClass, x: ObjcClass, y: ObjcClass)
    requires g.PairsOk() && g.KidsOk() && LoadStep(g, g', c, m) && x in g'.classes && y in g'.classes
    requires !x.isMeta && !y.isMeta && g'.Isa(x) == g'.Isa(y)
    ensures x == y
  {
    hide LoadStep, Graph.KidsOk, Graph.PairsOk, Follow;
    LoadSets(g, g', c, m);
    LoadedPair(g, g', c, m, x);
    LoadedPair(g, g', c, m, y);
    if x != c && y != c {
      PairFacts(g, x, y);
    }
  }

  lemma LoadedPair(g: Graph, g': Graph, c: ObjcClass, m: ObjcClass, x: ObjcClass)
    requires g.PairsOk() && g.KidsOk() && LoadStep(g, g', c, m) && x in g'.classes
    ensures g'.Paired(x)
    ensures !x.isMeta && x != c ==> g'.Isa(x) == g.Isa(x) && g'.Isa(x) in g.classes
  {
    hide *;
    LoadSets(g, g', c, m);
    LoadName(g, g', c, m);
    LoadOutside(g, g', c, m);
    if x in g.classes {
      PairedFacts(g, x);
      LoadAt(g, g', c, m, x);
      PairedStays(g, g', c, m, x);
    } else {
      PairedNew(g, g', c, m, x);
    }
  }

  lemma LoadOutside(g: Graph, g': Graph, c: ObjcClass, m: ObjcClass)
    requires LoadStep(g, g', c, m)
    ensures c !in g'.tree && m !in g'.tree
  {
    hide LoadLinks, Follow;
  }

  lemma PairedStays(g: Graph, g': Graph, c: ObjcClass, m: ObjcClass, x: ObjcClass)
    requires g.Paired(x) && x in g.classes && x != c && g'.classes == g.classes + {c, m} && g'.tree == g.tree
    requires g'.table == g.table[c.name := c] && c.name !in g.table
    requires g'.Isa(x) == g.Isa(x) && g'.Sup(x) == g.Sup(x) && g'.Sub(x) == g.Sub(x)
    ensures g'.Paired(x) && (!x.isMeta ==> g'.Isa(x) in g.classes)
  {
    hide Follow;
  }

  lemma PairedNew(g: Graph, g': Graph, c: ObjcClass, m: ObjcClass, x: ObjcClass)
    requires x == c || x == m
    requires c !in g'.tree && m !in g'.tree && !c.isMeta && m.isMeta && m in g'.classes
    requires g'.table == g.table[c.name := c] && g'.Isa(c) == m && g'.Sub(m) == null
    requires g'.Sup(c) != null ==> !g'.Sup(c).isMeta
    ensures g'.Paired(x)
  {
    hide Follow;
  }

  lemma LoadedMetas(g: Graph, g': Graph, c: ObjcClass, m: ObjcClass)
    requires g.PairsOk() && g.KidsOk() && g.MetasOk() && LoadStep(g, g', c, m)
    ensures g'.MetasOk()
  {
    hide LoadStep, Follow, Graph.PairsOk, Graph.KidsOk, Graph.MetasOk;
    LoadSets(g, g', c, m);
    forall x | x in g'.tree && !x.isMeta
      ensures g'.MetaOk(x)
    {
      MetasFact(g, x);
      InTree(g, x);
      PairFacts(g, x, x);
      LoadAt(g, g', c, m, x);
      LoadAt(g, g', c, m, g.Isa(x));
      if g.Sup(x) != null {
        SupFacts(g, x);
        PairFacts(g, g.Sup(x), x);
        LoadAt(g, g', c, m, g.Sup(x));
        LoadAt(g, g', c, m, g.Isa(g.Sup(x)));
      }
    }
    AllMetasOk(g');
  }

  lemma LoadedStable(g: Graph, g': Graph, c: ObjcClass, m: ObjcClass)
    requires g.Stable() && LoadStep(g, g', c, m)
    ensures g'.Stable()
  {
    hide Graph.PendingOk, Graph.TreeOk, Graph.KidsOk, Graph.PairsOk, Graph.MetasOk, LoadStep;
    StableFacts(g);
    LoadedPending(g, g', c, m);
    LoadedTree(g, g', c, m);
    LoadedPairs(g, g', c, m);
    LoadedMetas(g, g', c, m);
    LoadedResolved(g, g', c, m);
  }

  lemma LoadedResolved(g: Graph, g': Graph, c: ObjcClass, m: ObjcClass)
    requires LoadStep(g, g', c, m)
    ensures g'.resolved == g.resolved && g'.tree == g.tree
  {
  }

  /** The chain of superclasses of `x` ends at a class whose superclass is to be `c`, by name or by pointer. */
  ghost predicate Awaits(g: Graph, rank: Rank, x: ObjcClass, c: ObjcClass)
    requires Ranked(g, rank) && x in g.classes && !x.isMeta
    decreases rank[x]
  {
    match UpOf(g, x)
    case Root => false
    case Missing => x.superName == Some(c.name)
    case Absent(s) => s == c
    case Via(s) => Awaits(g, rank, s, c)
  }

  /** Loading `c` closes no cycle. */
  ghost predicate ClosesNoCycle(g: Graph, rank: Rank, c: ObjcClass, up: Up)
    requires Ranked(g, rank)
  {
    && (up.Missing? ==> c.superName != Some(c.name)) && (up.Absent? ==> up.awaited != c)
    && (up.Via? ==> up.sup in g.classes && !up.sup.isMeta && !Awaits(g, rank, up.sup, c))
  }

  ghost function LoadedRank(g: Graph, rank: Rank, c: ObjcClass, m: ObjcClass, up: Up): Rank
    requires Ranked(g, rank) && ClosesNoCycle(g, rank, c, up)
  {
    var top := if up.Via? then rank[up.sup] + 1 else 0;
    map x | x in g.classes + {c, m} ::
      if x in g.classes then
        if !x.isMeta && Awaits(g, rank, x, c) then rank[x] + top + 1 else rank[x]
      else if x == c then top
      else 0
  }

  /** The superclass of a class that is not in the graph yet. */
  ghost function UpOfNew(g: Graph, sup: ObjcClass?, superName: Option<string>): Up {
    if sup != null then (if sup in g.classes then Via(sup) else Absent(sup))
    else if superName.None? then Root
    else if superName.value in g.table then Via(g.table[superName.value])
    else Missing
  }

  lemma LoadedRanked(g: Graph, g': Graph, rank: Rank, c: ObjcClass, m: ObjcClass)
    requires Ranked(g, rank) && g.PairsOk() && LoadStep(g, g', c, m)
    requires ClosesNoCycle(g, rank, c, UpOfNew(g, g'.Sup(c), c.superName))
    ensures Ranked(g', LoadedRank(g, rank, c, m, UpOfNew(g, g'.Sup(c), c.superName)))
  {
    hide LoadStep, Follow, UpOf, UpOfNew, Ranked, Awaits, ClosesNoCycle, LoadedRank;
    var up := UpOfNew(g, g'.Sup(c), c.superName);
    var rank' := LoadedRank(g, rank, c, m, up);
    LoadSets(g, g', c, m);
    forall x | x in g'.classes && !x.isMeta
      ensures Placed(g', rank', x)
    {
      LoadedPlaced(g, g', rank, c, m, up, x);
    }
    LoadedRankKeys(g, rank, c, m, up);
    AllPlaced(g', rank');
  }

  ghost predicate Below(g: Graph, rank: Rank, x: ObjcClass, sup: ObjcClass) {
    rank.Keys == g.classes && x in g.classes && sup in g.classes && !sup.isMeta && rank[sup] < rank[x]
  }

  /** What `Ranked` says about one class. */
  ghost predicate Placed(g: Graph, rank: Rank, x: ObjcClass) {
    && (UpOf(g, x).Via? ==> Below(g, rank, x, UpOf(g, x).sup))
    && (x in g.tree ==>
          !UpOf(g, x).Missing? && !UpOf(g, x).Absent? && (UpOf(g, x).Via? ==> g.Sup(x) == UpOf(g, x).sup))
  }

  lemma AllPlaced(g: Graph, rank: Rank)
    requires rank.Keys == g.classes && g.tree <= g.classes
    requires forall x :: x in g.classes && !x.isMeta ==> Placed(g, rank, x)
    ensures Ranked(g, rank)
  {
    hide UpOf;
    forall x | x in g.classes && !x.isMeta
      ensures UpOf(g, x).Via? ==> Below(g, rank, x, UpOf(g, x).sup)
      ensures x in g.tree ==>
        !UpOf(g, x).Missing? && !UpOf(g, x).Absent? && (UpOf(g, x).Via? ==> g.Sup(x) == UpOf(g, x).sup)
    {
      assert Placed(g, rank, x);
    }
  }

  lemma LoadedRankKeys(g: Graph, rank: Rank, c: ObjcClass, m: ObjcClass, up: Up)
    requires Ranked(g, rank) && ClosesNoCycle(g, rank, c, up)
    ensures LoadedRank(g, rank, c, m, up).Keys == g.classes + {c, m}
  {
  }

  lemma LoadedPlaced(g: Graph, g': Graph, rank: Rank, c: ObjcClass, m: ObjcClass, up: Up, x: ObjcClass)
    requires Ranked(g, rank) && g.PairsOk() && LoadStep(g, g', c, m) && up == UpOfNew(g, g'.Sup(c), c.superName)
    requires ClosesNoCycle(g, rank, c, up) && x in g'.classes && !x.isMeta
    ensures Placed(g', LoadedRank(g, rank, c, m, up), x)
  {
    hide LoadStep, Follow, UpOf, UpOfNew, Ranked, Awaits, LoadedRank, Graph.PairsOk, ClosesNoCycle;
    LoadSets(g, g', c, m);
    LoadedRankKeys(g, rank, c, m, up);
    if x == c {
      NotItself(g, rank, c, g'.Sup(c));
      LoadedUpNew(g, g', c, m);
      LoadedTop(g, rank, c, m, up);
    } else {
      SupIsNoMeta(g, x);
      LoadedUp(g, g', c, m, x);
      LoadedBelow(g, rank, c, m, up, x);
      LoadAt(g, g', c, m, x);
      LinkedIsPlaced(g, rank, x);
    }
  }

  lemma NotItself(g: Graph, rank: Rank, c: ObjcClass, sup: ObjcClass?)
    requires Ranked(g, rank) && c !in g.classes && ClosesNoCycle(g, rank, c, UpOfNew(g, sup, c.superName))
    ensures sup != c && (UpOfNew(g, sup, c.superName).Missing? ==> c.superName != Some(c.name))
  {
  }

  lemma SupIsNoMeta(g: Graph, x: ObjcClass)
    requires g.PairsOk() && x in g.classes && !x.isMeta
    ensures g.Sup(x) != null ==> !g.Sup(x).isMeta
  {
    assert g.Paired(x);
  }

  lemma LoadedTop(g: Graph, rank: Rank, c: ObjcClass, m: ObjcClass, up: Up)
    requires Ranked(g, rank) && ClosesNoCycle(g, rank, c, up) && c !in g.classes
    ensures var rank' := LoadedRank(g, rank, c, m, up);
      c in rank' && (up.Via? ==> up.sup in g.classes && !up.sup.isMeta && up.sup in rank' && rank'[up.sup] < rank'[c])
  {
  }

  lemma LinkedIsPlaced(g: Graph, rank: Rank, x: ObjcClass)
    requires Ranked(g, rank) && x in g.classes && !x.isMeta
    ensures x in g.tree ==>
      !UpOf(g, x).Missing? && !UpOf(g, x).Absent? && (UpOf(g, x).Via? ==> g.Sup(x) == UpOf(g, x).sup)
  {
  }

  lemma LoadedBelow(g: Graph, rank: Rank, c: ObjcClass, m: ObjcClass, up: Up, x: ObjcClass)
    requires Ranked(g, rank) && ClosesNoCycle(g, rank, c, up) && x in g.classes && !x.isMeta
    requires c !in g.classes && m !in g.classes
    ensures var rank' := LoadedRank(g, rank, c, m, up); x in rank' && c in rank'
    ensures var rank' := LoadedRank(g, rank, c, m, up);
      UpOf(g, x).Via? ==> UpOf(g, x).sup in rank' && !UpOf(g, x).sup.isMeta && rank'[UpOf(g, x).sup] < rank'[x]
    ensures var rank' := LoadedRank(g, rank, c, m, up);
      (UpOf(g, x).Missing? && x.superName == Some(c.name)) || UpOf(g, x) == Absent(c) ==> rank'[c] < rank'[x]
  {
    hide UpOf;
  }

  lemma LoadedUpNew(g: Graph, g': Graph, c: ObjcClass, m: ObjcClass)
    requires LoadStep(g, g', c, m) && g'.Sup(c) != c
    requires UpOfNew(g, g'.Sup(c), c.superName).Missing? ==> c.superName != Some(c.name)
    ensures UpOf(g', c) == UpOfNew(g, g'.Sup(c), c.superName)
  {
  }

  lemma LoadedUp(g: Graph, g': Graph, c: ObjcClass, m: ObjcClass, x: ObjcClass)
    requires LoadStep(g, g', c, m) && x in g.classes && !x.isMeta && g.Sup(x) != m
    ensures UpOf(g', x) ==
      if (UpOf(g, x).Missing? && x.superName == Some(c.name)) || UpOf(g, x) == Absent(c) then Via(c) else UpOf(g, x)
  {
    hide *;
    LoadSets(g, g', c, m);
    LoadName(g, g', c, m);
    LoadAt(g, g', c, m, x);
    UpLater(g, g', c, m, x);
  }

  lemma UpLater(g: Graph, g': Graph, c: ObjcClass, m: ObjcClass, x: ObjcClass)
    requires g'.classes == g.classes + {c, m} && g'.table == g.table[c.name := c] && c.name !in g.table
    requires c !in g.classes && g'.Sup(x) == g.Sup(x) && g.Sup(x) != m
    ensures UpOf(g', x) ==
      if (UpOf(g, x).Missing? && x.superName == Some(c.name)) || UpOf(g, x) == Absent(c) then Via(c) else UpOf(g, x)
  {
    hide Graph.Sup;
  }

  lemma LoadedFine(g: Graph, g': Graph, rank: Rank, c: ObjcClass, m: ObjcClass, sup: ObjcClass?, supM: ObjcClass?,
                   isaM: ObjcClass?, sibM: ObjcClass?)
    requires g.Stable() && Ranked(g, rank) && g' == Loaded(g, c, m, sup, supM, isaM, sibM)
    requires c !in g.classes && m !in g.classes && !c.isMeta && m.isMeta && c.name !in g.table
    requires sup != null ==> !sup.isMeta
    requires ClosesNoCycle(g, rank, c, UpOfNew(g, sup, c.superName))
    ensures LoadStep(g, g', c, m) && g'.Stable()
    ensures Ranked(g', LoadedRank(g, rank, c, m, UpOfNew(g, sup, c.superName)))
    ensures g'.table == g.table[c.name := c] && g'.pending == [c] + g.pending
  {
    hide Graph.PendingOk, Graph.TreeOk, Graph.KidsOk, Graph.PairsOk, Graph.MetasOk, Graph.Stable, LoadStep, Ranked,
      UpOf,
      UpOfNew, LoadedRank, ClosesNoCycle, Follow;
    StableFacts(g);
    HeadWaits(g);
    TreeInClasses(g);
    LoadMade(g, c, m, sup, supM, isaM, sibM);
    LoadedStable(g, g', c, m);
    LoadedRanked(g, g', rank, c, m);
  }

  // ----- taking a class out of the list of its superclass -----

  /** `c`, which stands at place `i` in the list of `p`, is taken out of that list. */
  ghost predicate CutStep(g: Graph, g': Graph, c: ObjcClass, p: ObjcClass, i: nat) {
    && SameClasses(g, g') && c in g.classes && p in g.classes
    && i < |g.kids[p]| && g.kids[p][i] == c
    && g'.isa == g.isa && g'.sup == g.sup && g'.resolved == g.resolved && g'.tree == g.tree
    && g'.pending == g.pending && g'.head == g.head
    && g'.kids == g.kids[p := Without(g.kids[p], i)]
    && (forall x {:trigger g'.Sub(x)} :: x in g.classes ==>
          g'.Sub(x) == if x == p && i == 0 then g.Sib(c) else g.Sub(x))
    && (forall x {:trigger g'.Sib(x)} :: x in g.classes ==>
          g'.Sib(x) == if i > 0 && x == g.kids[p][i - 1] then g.Sib(c) else g.Sib(x))
  }

  lemma CutMade(g: Graph, g': Graph, c: ObjcClass, p: ObjcClass, i: nat)
    requires g.Complete() && c in g.classes && p in g.classes && i < |g.kids[p]| && g.kids[p][i] == c
    requires i > 0 ==> g.kids[p][i - 1] in g.classes
    requires g'.classes == g.classes && g'.isa == g.isa && g'.sup == g.sup && g'.resolved == g.resolved
    requires g'.tree == g.tree && g'.pending == g.pending && g'.head == g.head && g'.table == g.table
    requires g'.sub == if i == 0 then g.sub[p := g.Sib(c)] else g.sub
    requires g'.sib == if i == 0 then g.sib else g.sib[g.kids[p][i - 1] := g.Sib(c)]
    requires g'.kids == g.kids[p := Without(g.kids[p], i)]
    ensures CutStep(g, g', c, p, i)
  {
  }

  lemma CutList(g: Graph, g': Graph, c: ObjcClass, p: ObjcClass, i: nat)
    requires CutStep(g, g', c, p, i) && g.ListsKids(p) && Distinct(g.kids[p])
    requires forall d :: d in g.kids[p] ==> d in g.classes
    ensures g'.ListsKids(p)
  {
    assert g.KidAt(p, i);
    forall j | 0 <= j < |g'.kids[p]|
      ensures g'.KidAt(p, j)
    {
      CutPlace(g, g', c, p, i, j);
    }
  }

  lemma CutPlace(g: Graph, g': Graph, c: ObjcClass, p: ObjcClass, i: nat, j: nat)
    requires CutStep(g, g', c, p, i) && g.ListsKids(p) && Distinct(g.kids[p])
    requires forall d :: d in g.kids[p] ==> d in g.classes
    requires j < |g'.kids[p]|
    ensures g'.KidAt(p, j)
  {
    var m := if j < i then j else j + 1;
    assert g.KidAt(p, i) && g.KidAt(p, m) && g.kids[p][m] in g.kids[p];
    assert g'.kids[p][j] == g.kids[p][m];
    if i > 0 {
      SamePlace(g.kids[p], m, i - 1);
    }
  }

  /** After the cut all other lists are as before, and `c` is in none. */
  lemma CutLists(g: Graph, g': Graph, c: ObjcClass, p: ObjcClass, i: nat)
    requires g.TreeOk() && CutStep(g, g', c, p, i) && p in g.tree
    ensures g'.ListsOk()
    ensures forall x, d :: x in g.classes && d in g'.kids[x] ==> d in g.kids[x] && d != c
    ensures forall x :: x in g.classes ==> Distinct(g'.kids[x])
    ensures forall x, d :: x in g.classes && d in g.kids[x] && d != c ==> d in g'.kids[x]
  {
    hide Graph.KidsOk, Distinct;
    KidsDistinct(g);
    KidsAreLinked(g, p);
    WithoutMembers(g.kids[p], i);
    forall x | x in g'.tree
      ensures x in g'.kids && g'.ListsKids(x)
    {
      CutListOf(g, g', c, p, i, x);
    }
    forall x | x in g.classes
      ensures Distinct(g'.kids[x])
      ensures forall d :: d in g'.kids[x] ==> d in g.kids[x] && d != c
    {
      KidsAreLinked(g, x);
    }
  }

  lemma CutListOf(g: Graph, g': Graph, c: ObjcClass, p: ObjcClass, i: nat, x: ObjcClass)
    requires g.TreeOk() && CutStep(g, g', c, p, i) && p in g.tree && x in g.tree
    ensures x in g'.kids && g'.ListsKids(x)
  {
    hide Graph.KidsOk, Distinct;
    InTree(g, x);
    KidsAreLinked(g, x);
    KidsAreLinked(g, p);
    KidsDistinct(g);
    InClasses(g, p);
    if x == p {
      CutList(g, g', c, p, i);
    } else {
      KidsFrame(g, g', x);
    }
  }

  lemma InClasses(g: Graph, x: ObjcClass)
    requires g.KidsOk() && x in g.classes
    ensures forall d :: d in g.kids[x] ==> d in g.classes
  {
  }

  // ----- another superclass -----

  /** `c`, which is in no list, is put at the front of the list of `q`, its new superclass. */
  ghost predicate JoinStep(g: Graph, g': Graph, c: ObjcClass, q: ObjcClass, isa: ObjcClass?) {
    && SameClasses(g, g') && c in g.classes && q in g.classes
    && g'.resolved == g.resolved && g'.tree == g.tree && g'.pending == g.pending && g'.head == g.head
    && g'.kids == g.kids[q := [c] + g.kids[q]]
    && (forall x {:trigger g'.Isa(x)} :: x in g.classes ==> g'.Isa(x) == if x == c then isa else g.Isa(x))
    && (forall x {:trigger g'.Sup(x)} :: x in g.classes ==> g'.Sup(x) == if x == c then q else g.Sup(x))
    && (forall x {:trigger g'.Sub(x)} :: x in g.classes ==> g'.Sub(x) == if x == q then c else g.Sub(x))
    && (forall x {:trigger g'.Sib(x)} :: x in g.classes ==> g'.Sib(x) == if x == c then g.Sub(q) else g.Sib(x))
  }

  lemma JoinMade(g: Graph, g': Graph, c: ObjcClass, q: ObjcClass, isa: ObjcClass?)
    requires g.Complete() && c in g.classes && q in g.classes
    requires g'.classes == g.classes && g'.table == g.table && g'.resolved == g.resolved && g'.tree == g.tree
    requires g'.pending == g.pending && g'.head == g.head
    requires g'.isa == g.isa[c := isa] && g'.sup == g.sup[c := q]
    requires g'.sib == g.sib[c := g.sub[q]] && g'.sub == g.sub[q := c]
    requires g'.kids == g.kids[q := [c] + g.kids[q]]
    ensures JoinStep(g, g', c, q, isa)
  {
    hide Follow;
    forall x | x in g.classes
      ensures g'.Isa(x) == (if x == c then isa else g.Isa(x)) && g'.Sup(x) == if x == c then q else g.Sup(x)
      ensures g'.Sub(x) == (if x == q then c else g.Sub(x)) && g'.Sib(x) == if x == c then g.Sub(q) else g.Sib(x)
    {
      OneUpdate(g.isa, c, isa, x);
      OneUpdate(g.sup, c, q, x);
      OneUpdate(g.sub, q, c, x);
      OneUpdate(g.sib, c, g.sub[q], x);
      KnownField(g.sub, q);
    }
  }

  lemma KnownField(f: Field, x: ObjcClass)
    ensures x in f ==> Follow(f, x) == f[x]
  {
  }

  /** All is well with the tree, except that `c` is in no list. */
  ghost predicate TreeBut(g: Graph, c: ObjcClass) {
    && g.Complete() && g.ListsOk() && c in g.tree
    && (forall x, d :: x in g.classes && d in g.kids[x] ==> d in g.tree && d != c && g.Sup(d) == x)
    && (forall d {:trigger g.IsKid(d)} :: d in g.tree && d != c ==> g.IsKid(d))
    && (forall x :: x in g.classes ==> Distinct(g.kids[x]))
  }

  lemma CutTree(g: Graph, g': Graph, c: ObjcClass, p: ObjcClass, i: nat)
    requires g.TreeOk() && CutStep(g, g', c, p, i) && p in g.tree
    ensures TreeBut(g', c)
  {
    hide Graph.ListsOk, Distinct, Graph.KidsOk;
    CutLists(g, g', c, p, i);
    KidsAreLinked(g, p);
    assert c in g.kids[p];
    forall d | d in g'.tree && d != c
      ensures g'.IsKid(d)
    {
      TreeIsKid(g, d);
      assert g'.Sup(d) == g.Sup(d);
    }
    forall x, d | x in g'.classes && d in g'.kids[x]
      ensures d in g'.tree && d != c && g'.Sup(d) == x
    {
      KidsAreLinked(g, x);
    }
  }

  lemma JoinAt(g: Graph, g': Graph, c: ObjcClass, q: ObjcClass, isa: ObjcClass?, x: ObjcClass)
    requires JoinStep(g, g', c, q, isa) && x in g.classes
    ensures x != c ==> g'.Sup(x) == g.Sup(x) && g'.Sib(x) == g.Sib(x) && g'.Isa(x) == g.Isa(x)
    ensures x != q ==> g'.Sub(x) == g.Sub(x)
  {
  }

  lemma JoinSets(g: Graph, g': Graph, c: ObjcClass, q: ObjcClass, isa: ObjcClass?)
    requires JoinStep(g, g', c, q, isa)
    ensures SameClasses(g, g') && c in g.classes && q in g.classes && g'.tree == g.tree
    ensures g'.kids == g.kids[q := [c] + g.kids[q]]
    ensures g'.Sup(c) == q && g'.Sub(q) == c && g'.Sib(c) == g.Sub(q)
  {
  }

  lemma ButAt(g: Graph, c: ObjcClass, x: ObjcClass)
    requires TreeBut(g, c) && x in g.classes
    ensures x in g.kids && Distinct(g.kids[x]) && (x in g.tree ==> g.ListsKids(x))
    ensures forall d :: d in g.kids[x] ==> d in g.tree && d in g.classes && d != c && g.Sup(d) == x
    ensures x in g.tree && x != c ==> g.IsKid(x)
  {
    hide Distinct, Graph.ListsKids;
  }

  lemma JoinedTree(g: Graph, g': Graph, c: ObjcClass, q: ObjcClass, isa: ObjcClass?)
    requires TreeBut(g, c) && JoinStep(g, g', c, q, isa) && q in g.tree
    ensures g'.TreeOk()
  {
    hide TreeBut, JoinStep, Distinct, Follow, Graph.ListsKids, Graph.KidsOk;
    JoinSets(g, g', c, q, isa);
    JoinedLists(g, g', c, q, isa);
    forall d | d in g'.tree
      ensures g'.IsKid(d)
    {
      ButAt(g, c, d);
      JoinAt(g, g', c, q, isa, d);
    }
    forall x, d | x in g'.classes && d in g'.kids[x]
      ensures d in g'.tree && g'.Sup(d) == x
    {
      ButAt(g, c, x);
      ButTree(g, c);
      JoinAt(g, g', c, q, isa, d);
    }
    JoinedDistinct(g, g', c, q);
    AllKidsOk(g');
  }

  lemma JoinedDistinct(g: Graph, g': Graph, c: ObjcClass, q: ObjcClass)
    requires TreeBut(g, c) && q in g.classes && g.kids.Keys == g.classes
    requires g'.classes == g.classes && g'.kids == g.kids[q := [c] + g.kids[q]]
    ensures forall x :: x in g'.classes ==> Distinct(g'.kids[x])
  {
    hide TreeBut, Distinct;
    forall x | x in g'.classes
      ensures Distinct(g'.kids[x])
    {
      ButAt(g, c, x);
      ButAt(g, c, q);
      PrependedDistinct(c, g.kids[q]);
    }
  }

  lemma ButTree(g: Graph, c: ObjcClass)
    requires TreeBut(g, c)
    ensures c in g.tree && g.tree <= g.classes
  {
  }

  lemma JoinedLists(g: Graph, g': Graph, c: ObjcClass, q: ObjcClass, isa: ObjcClass?)
    requires TreeBut(g, c) && JoinStep(g, g', c, q, isa) && q in g.tree
    ensures g'.ListsOk()
  {
    hide Distinct, TreeBut, JoinStep, Follow, Graph.ListsKids;
    JoinSets(g, g', c, q, isa);
    forall x | x in g'.tree
      ensures x in g'.kids && g'.ListsKids(x)
    {
      ButAt(g, c, x);
      JoinAt(g, g', c, q, isa, x);
      forall d | d in g.kids[x]
        ensures g'.Sib(d) == g.Sib(d) && d != c
      {
        JoinAt(g, g', c, q, isa, d);
      }
      if x == q {
        JoinedList(g, g', c, q);
      } else {
        KidsFrame(g, g', x);
      }
    }
  }

  lemma JoinedList(g: Graph, g': Graph, c: ObjcClass, q: ObjcClass)
    requires q in g.kids && q in g'.kids && g'.kids[q] == [c] + g.kids[q] && g.ListsKids(q)
    requires g'.Sub(q) == c && g'.Sib(c) == g.Sub(q)
    requires forall d :: d in g.kids[q] ==> g'.Sib(d) == g.Sib(d)
    ensures g'.ListsKids(q)
  {
    hide Follow;
    forall i | 0 <= i < |g'.kids[q]|
      ensures g'.KidAt(q, i)
    {
      if i > 0 {
        assert g.KidAt(q, i - 1) && g.kids[q][i - 1] in g.kids[q];
      }
    }
  }

  /** A class and its metaclass have been moved below another class and its metaclass. */
  ghost predicate MoveStep(g: Graph, g': Graph, c: ObjcClass, q: ObjcClass) {
    && SameClasses(g, g') && c in g.classes && g.Isa(c) != null
    && g'.tree == g.tree && g'.resolved == g.resolved && g'.pending == g.pending && g'.head == g.head
    && (forall x {:trigger g'.Isa(x)} :: x in g.classes ==>
          g'.Isa(x) == if x == g.Isa(c) then g.Isa(g.Isa(q)) else g.Isa(x))
    && (forall x {:trigger g'.Sup(x)} :: x in g.classes ==>
          g'.Sup(x) == if x == c then q else if x == g.Isa(c) then g.Isa(q) else g.Sup(x))
    && (forall x {:trigger g'.Sub(x)} :: x in g.pending ==> g'.Sub(x) == g.Sub(x))
    && (forall x {:trigger g'.Sib(x)} :: x in g.pending ==> g'.Sib(x) == g.Sib(x))
    && (forall x {:trigger g'.Sub(x)} :: x in g.classes && x !in g.tree ==> g'.Sub(x) == g.Sub(x))
  }

  /** A class is cut from the list of `p` and joins that of `q`. */
  lemma CutJoinTree(g: Graph, g1: Graph, g2: Graph, c: ObjcClass, p: ObjcClass, i: nat, q: ObjcClass, isa: ObjcClass?)
    requires g.TreeOk() && CutStep(g, g1, c, p, i) && p in g.tree && q in g.tree && JoinStep(g1, g2, c, q, isa)
    ensures g2.TreeOk() && CutJoined(g, g2, c, q, isa)
  {
    hide *;
    CutTree(g, g1, c, p, i);
    CutSets(g, g1, c, p, i);
    JoinedTree(g1, g2, c, q, isa);
    KidsInTree(g, p);
    CutInTree(g, g1, g2, c, p, i, q, isa);
  }

  lemma CutSets(g: Graph, g': Graph, c: ObjcClass, p: ObjcClass, i: nat)
    requires CutStep(g, g', c, p, i)
    ensures g'.tree == g.tree && g'.classes == g.classes && c in g.classes && p in g.classes
  {
  }

  /** The net effect of moving one class. */
  ghost predicate CutJoined(g: Graph, g': Graph, c: ObjcClass, q: ObjcClass, isa: ObjcClass?) {
    && SameClasses(g, g') && c in g.classes
    && g'.tree == g.tree && g'.resolved == g.resolved && g'.pending == g.pending && g'.head == g.head
    && (forall x {:trigger g'.Isa(x)} :: x in g.classes ==> g'.Isa(x) == if x == c then isa else g.Isa(x))
    && (forall x {:trigger g'.Sup(x)} :: x in g.classes ==> g'.Sup(x) == if x == c then q else g.Sup(x))
    && (forall x {:trigger g'.Sub(x)} :: x in g.classes && x !in g.tree ==> g'.Sub(x) == g.Sub(x))
    && (forall x {:trigger g'.Sib(x)} :: x in g.classes && x !in g.tree ==> g'.Sib(x) == g.Sib(x))
  }

  lemma CutInTree(g: Graph, g1: Graph, g2: Graph, c: ObjcClass, p: ObjcClass, i: nat, q: ObjcClass, isa: ObjcClass?)
    requires CutStep(g, g1, c, p, i) && JoinStep(g1, g2, c, q, isa) && p in g.tree && q in g.tree
    requires p in g.kids && forall d :: d in g.kids[p] ==> d in g.tree
    ensures CutJoined(g, g2, c, q, isa)
  {
    hide Follow, CutStep, JoinStep;
    CutBooks(g, g1, c, p, i);
    JoinBooks(g1, g2, c, q, isa);
    forall x | x in g.classes
      ensures g2.Isa(x) == if x == c then isa else g.Isa(x)
      ensures g2.Sup(x) == if x == c then q else g.Sup(x)
      ensures x !in g.tree ==> g2.Sub(x) == g.Sub(x) && g2.Sib(x) == g.Sib(x)
    {
      JoinAt(g1, g2, c, q, isa, x);
      if x !in g.tree {
        CutOutside(g, g1, c, p, i, x);
      }
    }
  }

  lemma CutBooks(g: Graph, g': Graph, c: ObjcClass, p: ObjcClass, i: nat)
    requires CutStep(g, g', c, p, i)
    ensures SameClasses(g, g') && c in g.classes && c in g.kids[p] && g'.isa == g.isa && g'.sup == g.sup
    ensures g'.tree == g.tree && g'.resolved == g.resolved && g'.pending == g.pending && g'.head == g.head
  {
  }

  lemma JoinBooks(g: Graph, g': Graph, c: ObjcClass, q: ObjcClass, isa: ObjcClass?)
    requires JoinStep(g, g', c, q, isa)
    ensures SameClasses(g, g') && c in g.classes && g'.Isa(c) == isa && g'.Sup(c) == q
    ensures g'.tree == g.tree && g'.resolved == g.resolved && g'.pending == g.pending && g'.head == g.head
  {
  }

  lemma CutJoinedAt(g: Graph, g': Graph, c: ObjcClass, q: ObjcClass, isa: ObjcClass?, x: ObjcClass)
    requires CutJoined(g, g', c, q, isa) && x in g.classes
    ensures g'.Isa(x) == (if x == c then isa else g.Isa(x)) && g'.Sup(x) == if x == c then q else g.Sup(x)
    ensures x !in g.tree ==> g'.Sub(x) == g.Sub(x) && g'.Sib(x) == g.Sib(x)
  {
  }

  lemma CutJoinedBooks(g: Graph, g': Graph, c: ObjcClass, q: ObjcClass, isa: ObjcClass?)
    requires CutJoined(g, g', c, q, isa)
    ensures SameClasses(g, g') && c in g.classes
    ensures g'.tree == g.tree && g'.resolved == g.resolved && g'.pending == g.pending && g'.head == g.head
  {
  }

  lemma MoveMade(g: Graph, g1: Graph, g2: Graph, c: ObjcClass, q: ObjcClass, m: ObjcClass, qm: ObjcClass)
    requires g.Isa(c) == m && c != m && g.Isa(q) == qm && CutJoined(g, g1, c, q, m)
    requires CutJoined(g1, g2, m, qm, g.Isa(qm))
    requires forall x :: x in g.pending ==> x in g.classes && x !in g.tree
    ensures MoveStep(g, g2, c, q)
  {
    hide Follow, CutJoined, Graph.Complete;
    CutJoinedBooks(g, g1, c, q, m);
    CutJoinedBooks(g1, g2, m, qm, g.Isa(qm));
    forall x | x in g.classes
      ensures g2.Isa(x) == if x == m then g.Isa(qm) else g.Isa(x)
      ensures g2.Sup(x) == if x == c then q else if x == m then qm else g.Sup(x)
      ensures x !in g.tree ==> g2.Sub(x) == g.Sub(x) && g2.Sib(x) == g.Sib(x)
    {
      CutJoinedAt(g, g1, c, q, m, x);
      CutJoinedAt(g1, g2, m, qm, g.Isa(qm), x);
    }
  }

  /** The class is linked, is no root, and the new superclass is another linked class. */
  ghost predicate Movable(g: Graph, c: ObjcClass, q: ObjcClass) {
    && c in g.tree && q in g.tree && !c.isMeta && !q.isMeta && c != q
    && g.Sup(c) != null && g.Sup(c) != q && g.Sup(c) != c
  }

  /** The metaclasses of both classes are instances of the metaclass of the same root. */
  ghost predicate SameRoot(g: Graph, c: ObjcClass, q: ObjcClass) {
    g.Isa(g.Isa(q)) == g.Isa(g.Isa(c))
  }

  ghost predicate NoSubclasses(g: Graph, c: ObjcClass) {
    forall x {:trigger g.Sup(x)} :: x in g.tree && !x.isMeta ==> g.Sup(x) != c
  }

  lemma MovedPairs(g: Graph, g': Graph, c: ObjcClass, q: ObjcClass)
    requires g.PairsOk() && g.KidsOk() && MoveStep(g, g', c, q) && Movable(g, c, q)
    ensures g'.PairsOk()
  {
    assert g.Paired(c);
    forall x, y | x in g'.classes && y in g'.classes && !x.isMeta && !y.isMeta && g'.Isa(x) == g'.Isa(y)
      ensures x == y
    {
      assert g.Isa(x) == g.Isa(y);
    }
    forall x | x in g'.classes
      ensures g'.Paired(x)
    {
      assert g.Paired(x) && g'.Isa(x) == if x == g.Isa(c) then g.Isa(g.Isa(q)) else g.Isa(x);
    }
  }

  lemma MoveAt(g: Graph, g': Graph, c: ObjcClass, q: ObjcClass, x: ObjcClass)
    requires MoveStep(g, g', c, q) && x in g.classes
    ensures g'.Isa(x) == if x == g.Isa(c) then g.Isa(g.Isa(q)) else g.Isa(x)
    ensures g'.Sup(x) == if x == c then q else if x == g.Isa(c) then g.Isa(q) else g.Sup(x)
  {
  }

  lemma PairFacts(g: Graph, x: ObjcClass, y: ObjcClass)
    requires g.PairsOk() && x in g.classes && y in g.classes && !x.isMeta && !y.isMeta
    ensures g.Isa(x) != null && g.Isa(x) in g.classes && g.Isa(x).isMeta
    ensures g.Isa(x) == g.Isa(y) ==> x == y
  {
    assert g.Paired(x);
  }

  lemma MovedMeta(g: Graph, g': Graph, c: ObjcClass, q: ObjcClass, x: ObjcClass)
    requires g.PairsOk() && g.KidsOk() && g.MetasOk() && MoveStep(g, g', c, q) && Movable(g, c, q)
    requires x in g.tree && !x.isMeta
    ensures g'.MetaOk(x) <==> SameRoot(g, c, q) || g.Sup(x) != c
  {
    hide Graph.MetasOk, Graph.PairsOk, Graph.KidsOk, MoveStep, Follow;
    MetasFact(g, x);
    MetasFact(g, c);
    InTree(g, c);
    InTree(g, q);
    TreeIsKid(g, x);
    PairFacts(g, x, c);
    PairFacts(g, c, q);
    PairFacts(g, q, c);
    MoveAt(g, g', c, q, x);
    MoveAt(g, g', c, q, g.Isa(x));
    MoveAt(g, g', c, q, q);
    MoveAt(g, g', c, q, c);
    MoveAt(g, g', c, q, g.Isa(q));
    if g.Sup(x) != null {
      SupFacts(g, x);
      PairFacts(g, g.Sup(x), c);
      MoveAt(g, g', c, q, g.Sup(x));
      MoveAt(g, g', c, q, g.Isa(g.Sup(x)));
    }
  }

  lemma SupFacts(g: Graph, x: ObjcClass)
    requires g.PairsOk() && g.KidsOk() && x in g.tree && !x.isMeta && g.Sup(x) != null
    ensures g.Sup(x) in g.classes && !g.Sup(x).isMeta
  {
    assert g.Paired(x);
  }

  lemma MetasFact(g: Graph, x: ObjcClass)
    requires g.MetasOk() && x in g.tree && !x.isMeta
    ensures g.MetaOk(x)
  {
  }

  /**
   After a move all is well if and only if the new superclass has the same root or the
   class has no subclasses, whose metaclasses would still be instances of the old one's.
   */
  lemma MovedStable(g: Graph, g': Graph, c: ObjcClass, q: ObjcClass)
    requires g.Stable() && MoveStep(g, g', c, q) && Movable(g, c, q) && g'.TreeOk()
    ensures g'.Stable() <==> SameRoot(g, c, q) || NoSubclasses(g, c)
  {
    hide Graph.PendingOk, Graph.TreeOk, Graph.KidsOk, Graph.PairsOk, Graph.MetasOk, MoveStep, SameRoot;
    StableFacts(g);
    MoveSets(g, g', c, q);
    MovedPairs(g, g', c, q);
    MovedPending(g, g', c, q);
    if SameRoot(g, c, q) || NoSubclasses(g, c) {
      forall x | x in g'.tree && !x.isMeta
        ensures g'.MetaOk(x)
      {
        MovedMeta(g, g', c, q, x);
      }
      AllMetasOk(g');
    } else {
      var x :| x in g.tree && !x.isMeta && g.Sup(x) == c;
      MovedMeta(g, g', c, q, x);
      NotAllMetasOk(g', x);
    }
  }

  lemma NotAllMetasOk(g: Graph, x: ObjcClass)
    requires x in g.tree && !x.isMeta && !g.MetaOk(x)
    ensures !g.MetasOk()
  {
  }

  lemma MovedPending(g: Graph, g': Graph, c: ObjcClass, q: ObjcClass)
    requires g.PendingOk(null) && MoveStep(g, g', c, q) && Movable(g, c, q)
    ensures g'.PendingOk(null)
  {
    PendingFrame(g, g', null, null);
  }

  /** Everything at or below `c` moves up by enough to stay above its superclass. */
  ghost function MovedRank(g: Graph, rank: Rank, c: ObjcClass, q: ObjcClass): Rank
    requires Ranked(g, rank) && q in g.classes
  {
    map x | x in g.classes :: if !x.isMeta && c in Chain(g, rank, x) then rank[x] + rank[q] + 1 else rank[x]
  }

  lemma MovedRanked(g: Graph, g': Graph, rank: Rank, c: ObjcClass, q: ObjcClass)
    requires Ranked(g, rank) && g.PairsOk() && MoveStep(g, g', c, q) && Movable(g, c, q) && g.tree <= g.classes
    requires c !in Chain(g, rank, q)
    ensures Ranked(g', MovedRank(g, rank, c, q))
  {
    hide Graph.PairsOk, MoveStep, Follow, UpOf, Ranked, Chain;
    MoveSets(g, g', c, q);
    PairFacts(g, c, c);
    forall x | x in g'.classes && !x.isMeta
      ensures Placed(g', MovedRank(g, rank, c, q), x)
    {
      MovedUp(g, g', c, q, x);
      MoveAt(g, g', c, q, x);
      MovedBelow(g, rank, c, q, x);
      LinkedIsPlaced(g, rank, x);
    }
    AllPlaced(g', MovedRank(g, rank, c, q));
  }

  lemma MoveSets(g: Graph, g': Graph, c: ObjcClass, q: ObjcClass)
    requires MoveStep(g, g', c, q)
    ensures g'.classes == g.classes && g'.tree == g.tree && g'.table == g.table && c in g.classes
    ensures g'.resolved == g.resolved && g'.Complete()
  {
  }

  lemma MovedUp(g: Graph, g': Graph, c: ObjcClass, q: ObjcClass, x: ObjcClass)
    requires MoveStep(g, g', c, q) && x in g.classes && !x.isMeta && g.Isa(c).isMeta && q in g.classes
    ensures UpOf(g', x) == if x == c then Via(q) else UpOf(g, x)
  {
    hide Follow;
    MoveAt(g, g', c, q, x);
  }

  lemma MovedBelow(g: Graph, rank: Rank, c: ObjcClass, q: ObjcClass, x: ObjcClass)
    requires Ranked(g, rank) && c in g.classes && q in g.classes && !c.isMeta && !q.isMeta
    requires c !in Chain(g, rank, q) && x in g.classes && !x.isMeta
    ensures var rank' := MovedRank(g, rank, c, q);
      x != c && UpOf(g, x).Via? ==>
        UpOf(g, x).sup in rank' && !UpOf(g, x).sup.isMeta && rank'[UpOf(g, x).sup] < rank'[x]
    ensures MovedRank(g, rank, c, q)[q] < MovedRank(g, rank, c, q)[c]
  {
    hide UpOf;
  }

  lemma MovedFine(g: Graph, g': Graph, rank: Rank, c: ObjcClass, q: ObjcClass)
    requires g.Stable() && Ranked(g, rank) && MoveStep(g, g', c, q) && Movable(g, c, q) && g'.TreeOk()
    requires q in g.classes && c !in Chain(g, rank, q)
    ensures MovedWell(g, g', rank, c, q)
  {
    hide *;
    StableFacts(g);
    TreeWithin(g);
    MovedStable(g, g', c, q);
    MovedRanked(g, g', rank, c, q);
    MovedWellMade(g, g', rank, c, q);
  }

  /** The move has been made, and all is well if and only if it can be. */
  ghost predicate MovedWell(g: Graph, g': Graph, rank: Rank, c: ObjcClass, q: ObjcClass) {
    && MoveStep(g, g', c, q) && (g'.Stable() <==> SameRoot(g, c, q) || NoSubclasses(g, c))
    && Ranked(g, rank) && q in g.classes && Ranked(g', MovedRank(g, rank, c, q))
  }

  lemma MovedWellMade(g: Graph, g': Graph, rank: Rank, c: ObjcClass, q: ObjcClass)
    requires MoveStep(g, g', c, q) && (g'.Stable() <==> SameRoot(g, c, q) || NoSubclasses(g, c))
    requires Ranked(g, rank) && q in g.classes && Ranked(g', MovedRank(g, rank, c, q))
    ensures MovedWell(g, g', rank, c, q)
  {
  }

  // ----- disposing of a class -----

  /** A class without subclasses leaves the tree. */
  lemma LeafTree(g: Graph, g': Graph, c: ObjcClass)
    requires TreeBut(g, c) && g.Complete() && c in g.kids && g.kids[c] == [] && g' == g.(tree := g.tree - {c})
    ensures g'.TreeOk()
  {
    hide Follow, Distinct, Graph.ListsKids, TreeBut;
    ButTree(g, c);
    forall x | x in g'.tree
      ensures x in g'.kids && g'.ListsKids(x)
    {
      ButAt(g, c, x);
      KidsFrame(g, g', x);
    }
    forall x | x in g.classes
      ensures x in g'.kids && Distinct(g'.kids[x])
      ensures forall d :: d in g'.kids[x] ==> d in g'.tree && g'.Sup(d) == x
    {
      ButAt(g, c, x);
    }
    forall d | d in g'.tree
      ensures g'.IsKid(d)
    {
      ButAt(g, c, d);
    }
    AllKidsOk(g');
  }

  /** The class and its metaclass have been taken out of the lists. */
  ghost predicate OutOfTree(g: Graph, g': Graph, c: ObjcClass, m: ObjcClass) {
    && g.Complete() && g'.Complete() && g'.classes == g.classes && g'.table == g.table
    && g'.isa == g.isa && g'.sup == g.sup && g'.resolved == g.resolved
    && g'.pending == g.pending && g'.head == g.head && g'.tree == g.tree - {c, m}
    && (forall x {:trigger g'.Sub(x)} :: x in g.classes && x !in g.tree ==> g'.Sub(x) == g.Sub(x))
    && (forall x {:trigger g'.Sib(x)} :: x in g.classes && x !in g.tree ==> g'.Sib(x) == g.Sib(x))
  }

  lemma OutOfTreeMade(g: Graph, g1: Graph, g2: Graph, g3: Graph, c: ObjcClass, p: ObjcClass, i: nat,
                      m: ObjcClass, pm: ObjcClass, j: nat)
    requires g.TreeOk() && CutStep(g, g1, m, pm, j) && pm in g.tree && p in g.tree && m in g.tree && c in g.tree
    requires g2 == g1.(tree := g1.tree - {m}) && CutStep(g2, g3, c, p, i)
    requires c != m
    ensures OutOfTree(g, g3.(tree := g3.tree - {c}), c, m)
  {
    hide Graph.TreeOk, Follow, CutStep;
    CutBooks(g, g1, m, pm, j);
    CutBooks(g2, g3, c, p, i);
    KidsInTree(g, pm);
    forall x | x in g.classes && x !in g.tree
      ensures g3.Sub(x) == g.Sub(x) && g3.Sib(x) == g.Sib(x)
    {
      CutOutside(g, g1, m, pm, j, x);
      assert g2.Sub(x) == g1.Sub(x) && g2.Sib(x) == g1.Sib(x);
      KidsShrink(g, g1, m, pm, j, p);
      KidsInTree(g, p);
      CutOutside(g2, g3, c, p, i, x);
    }
  }

  lemma KidsInTree(g: Graph, p: ObjcClass)
    requires g.TreeOk() && p in g.classes
    ensures p in g.kids && forall d :: d in g.kids[p] ==> d in g.tree
  {
  }

  lemma KidsShrink(g: Graph, g': Graph, c: ObjcClass, p: ObjcClass, i: nat, x: ObjcClass)
    requires CutStep(g, g', c, p, i) && x in g.classes
    ensures x in g'.kids && forall d :: d in g'.kids[x] ==> d in g.kids[x]
  {
  }

  lemma CutOutside(g: Graph, g': Graph, c: ObjcClass, p: ObjcClass, i: nat, x: ObjcClass)
    requires CutStep(g, g', c, p, i) && x in g.classes && x != p && x !in g.kids[p]
    ensures g'.Sub(x) == g.Sub(x) && g'.Sib(x) == g.Sib(x)
  {
  }

  ghost function Only<V>(f: map<ObjcClass, V>, classes: set<ObjcClass>): map<ObjcClass, V> {
    map x | x in f && x in classes :: f[x]
  }

  /** The graph without `c` and `m`. */
  ghost function Forget(g: Graph, c: ObjcClass, m: ObjcClass): Graph
    requires g.Complete()
  {
    var classes := g.classes - {c, m};
    g.(classes := classes, isa := Only(g.isa, classes), sup := Only(g.sup, classes), sub := Only(g.sub, classes),
       sib := Only(g.sib, classes), resolved := g.resolved - {c, m}, table := g.table - {c.name},
       kids := Only(g.kids, classes))
  }

  lemma ForgetAt(g: Graph, c: ObjcClass, m: ObjcClass, x: ObjcClass)
    requires g.Complete() && x in g.classes - {c, m}
    ensures var g' := Forget(g, c, m);
      g'.Isa(x) == g.Isa(x) && g'.Sup(x) == g.Sup(x) && g'.Sub(x) == g.Sub(x) && g'.Sib(x) == g.Sib(x)
  {
  }

  lemma ForgottenTree(g: Graph, c: ObjcClass, m: ObjcClass)
    requires g.Complete() && g.TreeOk() && c !in g.tree && m !in g.tree
    ensures Forget(g, c, m).TreeOk()
  {
    hide Follow, Distinct, Graph.KidsOk;
    var g' := Forget(g, c, m);
    TreeInClasses(g);
    KidsDistinct(g);
    forall x | x in g'.tree
      ensures x in g'.kids && g'.ListsKids(x)
    {
      KidsAreLinked(g, x);
      ForgetAt(g, c, m, x);
      forall d | d in g.kids[x]
        ensures g'.Sib(d) == g.Sib(d)
      {
        ForgetAt(g, c, m, d);
      }
      KidsFrame(g, g', x);
    }
    forall x | x in g'.classes
      ensures forall d :: d in g'.kids[x] ==> d in g'.tree && g'.Sup(d) == x
    {
      KidsAreLinked(g, x);
      forall d | d in g.kids[x]
        ensures g'.Sup(d) == g.Sup(d)
      {
        ForgetAt(g, c, m, d);
      }
    }
    forall d | d in g'.tree
      ensures g'.IsKid(d)
    {
      TreeIsKid(g, d);
      ForgetAt(g, c, m, d);
    }
    AllKidsOk(g');
  }

  lemma ForgottenPending(g: Graph, g1: Graph, c: ObjcClass, m: ObjcClass)
    requires g.PendingOk(null) && OutOfTree(g, g1, c, m) && c in g.tree && m.isMeta && m in g.tree
    ensures Forget(g1, c, m).PendingOk(null)
  {
    hide Follow, Distinct;
    var g' := Forget(g1, c, m);
    forall x | x in g.pending
      ensures g'.Waiting(x) && g'.Sub(x) == g.Sub(x) && g'.Sib(x) == g.Sib(x)
    {
      assert g.Waiting(x);
      ForgetAt(g1, c, m, x);
    }
    forall x | x in g'.classes && g'.Waiting(x)
      ensures x in g'.pending
    {
      assert g.Waiting(x);
    }
    forall i | 0 <= i < |g'.pending|
      ensures g'.PendingAt(i)
    {
      assert g.PendingAt(i) && g.pending[i] in g.pending;
    }
  }

  /** No linked class has `c` or its metaclass as superclass. */
  ghost predicate IsLeaf(g: Graph, c: ObjcClass) {
    forall x {:trigger g.Sup(x)} :: x in g.tree ==> g.Sup(x) != c && g.Sup(x) != g.Isa(c)
  }

  lemma ForgottenPairs(g: Graph, g1: Graph, c: ObjcClass, m: ObjcClass)
    requires g.PairsOk() && g.MetasOk() && g.KidsOk() && OutOfTree(g, g1, c, m) && c in g.tree && !c.isMeta
    requires g.Isa(c) == m
    requires IsLeaf(g, c)
    ensures Forget(g1, c, m).PairsOk() && Forget(g1, c, m).MetasOk()
  {
    hide Follow, Graph.MetasOk, Graph.KidsOk, Graph.PairsOk;
    var g' := Forget(g1, c, m);
    InTree(g, c);
    PairFacts(g, c, c);
    forall x | x in g'.classes
      ensures g'.Paired(x) && g'.Isa(x) == g.Isa(x)
    {
      OutAt(g, g1, c, m, x);
      ForgottenPair(g, g1, c, m, x);
    }
    forall x, y | x in g'.classes && y in g'.classes && !x.isMeta && !y.isMeta && g'.Isa(x) == g'.Isa(y)
      ensures x == y
    {
      PairFacts(g, x, y);
    }
    ForgottenTable(g, g1, c, m);
    ForgottenMetas(g, g1, c, m);
    AllPairsOk(g');
  }

  lemma AllPairsOk(g: Graph)
    requires forall x :: x in g.classes ==> g.Paired(x)
    requires forall x, y ::
      x in g.classes && y in g.classes && !x.isMeta && !y.isMeta && g.Isa(x) == g.Isa(y) ==> x == y
    requires forall n :: n in g.table ==> g.table[n] in g.classes && !g.table[n].isMeta && g.table[n].name == n
    ensures g.PairsOk()
  {
  }

  lemma ForgottenTable(g: Graph, g1: Graph, c: ObjcClass, m: ObjcClass)
    requires g.PairsOk() && OutOfTree(g, g1, c, m) && m.isMeta
    ensures var g' := Forget(g1, c, m);
      forall n :: n in g'.table ==> g'.table[n] in g'.classes && !g'.table[n].isMeta && g'.table[n].name == n
  {
  }

  lemma ForgottenPair(g: Graph, g1: Graph, c: ObjcClass, m: ObjcClass, x: ObjcClass)
    requires g.PairsOk() && g.KidsOk() && OutOfTree(g, g1, c, m) && c in g.tree && !c.isMeta && g.Isa(c) == m
    requires IsLeaf(g, c) && x in g.classes && x != c && x != m
    ensures Forget(g1, c, m).Paired(x)
  {
    hide *;
    OutBooks(g, g1, c, m);
    OutAt(g, g1, c, m, x);
    OutSub(g, g1, c, m, x);
    ForgetSets(g1, c, m);
    InTree(g, c);
    PairedFacts(g, x);
    PairedFacts(g, c);
    if !x.isMeta {
      PairFacts(g, x, c);
      if x in g.tree {
        LeafAt(g, c, x);
      }
    }
    PairedMade(g, g1, Forget(g1, c, m), c, m, x);
  }

  lemma OutBooks(g: Graph, g1: Graph, c: ObjcClass, m: ObjcClass)
    requires OutOfTree(g, g1, c, m)
    ensures g1.Complete() && g1.classes == g.classes && g1.tree == g.tree - {c, m}
    ensures Forget(g1, c, m).table == g.table - {c.name}
  {
  }

  lemma OutSub(g: Graph, g1: Graph, c: ObjcClass, m: ObjcClass, x: ObjcClass)
    requires OutOfTree(g, g1, c, m) && x in g.classes && x != c && x != m
    ensures x !in g.tree ==> Forget(g1, c, m).Sub(x) == g.Sub(x)
  {
    hide Follow;
    ForgetAt(g1, c, m, x);
    assert x !in g.tree ==> g1.Sub(x) == g.Sub(x);
  }

  lemma PairedFacts(g: Graph, x: ObjcClass)
    requires g.PairsOk() && x in g.classes
    ensures g.Paired(x)
  {
  }

  lemma LeafAt(g: Graph, c: ObjcClass, x: ObjcClass)
    requires IsLeaf(g, c) && x in g.tree
    ensures g.Sup(x) != c && g.Sup(x) != g.Isa(c)
  {
  }

  lemma PairedMade(g: Graph, g1: Graph, g': Graph, c: ObjcClass, m: ObjcClass, x: ObjcClass)
    requires g.Paired(x) && g.Paired(c) && x != c && x != m && x in g.classes && c in g.classes && !c.isMeta
    requires g.Isa(c) == m && g'.classes == g.classes - {c, m} && g'.tree == g.tree - {c, m}
    requires g'.table == g.table - {c.name} && g'.Isa(x) == g.Isa(x) && g'.Sup(x) == g.Sup(x)
    requires x !in g.tree ==> g'.Sub(x) == g.Sub(x)
    requires !x.isMeta ==> g.Isa(x) != m && (x in g.tree ==> g.Sup(x) != c && g.Sup(x) != m)
    ensures g'.Paired(x)
  {
    hide Follow;
  }

  lemma ForgottenMetas(g: Graph, g1: Graph, c: ObjcClass, m: ObjcClass)
    requires g.PairsOk() && g.MetasOk() && g.KidsOk() && OutOfTree(g, g1, c, m) && c in g.tree && !c.isMeta
    requires g.Isa(c) == m
    requires IsLeaf(g, c)
    ensures Forget(g1, c, m).MetasOk()
  {
    hide Follow, Graph.MetasOk, Graph.KidsOk, Graph.PairsOk, Forget;
    var g' := Forget(g1, c, m);
    ForgetSets(g1, c, m);
    InTree(g, c);
    PairFacts(g, c, c);
    forall x | x in g'.tree && !x.isMeta
      ensures g'.MetaOk(x)
    {
      MetasFact(g, x);
      InTree(g, x);
      PairFacts(g, x, c);
      OutAt(g, g1, c, m, x);
      OutAt(g, g1, c, m, g.Isa(x));
      if g.Sup(x) != null {
        SupFacts(g, x);
        PairFacts(g, g.Sup(x), c);
        OutAt(g, g1, c, m, g.Sup(x));
        OutAt(g, g1, c, m, g.Isa(g.Sup(x)));
      }
    }
    AllMetasOk(g');
  }

  lemma OutAt(g: Graph, g1: Graph, c: ObjcClass, m: ObjcClass, x: ObjcClass)
    requires OutOfTree(g, g1, c, m) && x in g.classes && x != c && x != m
    ensures Forget(g1, c, m).Isa(x) == g.Isa(x) && Forget(g1, c, m).Sup(x) == g.Sup(x)
  {
    hide Follow;
    ForgetAt(g1, c, m, x);
    assert g1.Isa(x) == g.Isa(x) && g1.Sup(x) == g.Sup(x);
  }

  lemma ForgetSets(g: Graph, c: ObjcClass, m: ObjcClass)
    requires g.Complete()
    ensures var g' := Forget(g, c, m); g'.classes == g.classes - {c, m} && g'.tree == g.tree
    ensures Forget(g, c, m).Complete() == (c !in g.tree && m !in g.tree)
  {
  }

  lemma ForgottenStable(g: Graph, g1: Graph, c: ObjcClass, m: ObjcClass)
    requires g.Stable() && OutOfTree(g, g1, c, m) && c in g.tree && !c.isMeta && g.Isa(c) == m && IsLeaf(g, c)
    requires g1.TreeOk()
    ensures Forget(g1, c, m).Stable()
  {
    hide Follow, Graph.PendingOk, Graph.TreeOk, Graph.KidsOk, Graph.PairsOk, Graph.MetasOk;
    StableFacts(g);
    InTree(g, c);
    PairFacts(g, c, c);
    MetaInTree(g, c);
    ForgottenPending(g, g1, c, m);
    ForgottenTree(g1, c, m);
    ForgottenPairs(g, g1, c, m);
  }

  lemma MetaInTree(g: Graph, c: ObjcClass)
    requires g.PairsOk() && c in g.classes && c in g.tree && !c.isMeta
    ensures g.Isa(c) in g.tree
  {
    assert g.Paired(c);
  }

  ghost function RankWithout(rank: Rank, c: ObjcClass, m: ObjcClass): Rank {
    map x | x in rank && x != c && x != m :: rank[x]
  }

  lemma ForgottenRanked(g: Graph, g1: Graph, rank: Rank, c: ObjcClass, m: ObjcClass)
    requires g.PairsOk() && g.KidsOk() && Ranked(g, rank) && OutOfTree(g, g1, c, m) && !c.isMeta && c in g.classes
    requires m in g.classes && m.isMeta && g.Isa(c) == m && IsLeaf(g, c)
    ensures Ranked(Forget(g1, c, m), RankWithout(rank, c, m))
  {
    hide Graph.PairsOk, Graph.KidsOk, Follow, UpOf, Ranked, Forget;
    var g' := Forget(g1, c, m);
    var rank' := RankWithout(rank, c, m);
    RankKeys(g, rank);
    ForgetSets(g1, c, m);
    forall x | x in g'.classes && !x.isMeta
      ensures Placed(g', rank', x)
    {
      ForgottenPlaced(g, g1, rank, c, m, x);
    }
    TreeWithin(g);
    AllPlaced(g', rank');
  }

  lemma TreeWithin(g: Graph)
    requires g.KidsOk()
    ensures g.tree <= g.classes
  {
  }

  lemma RankKeys(g: Graph, rank: Rank)
    requires Ranked(g, rank)
    ensures rank.Keys == g.classes
  {
  }

  lemma ForgottenPlaced(g: Graph, g1: Graph, rank: Rank, c: ObjcClass, m: ObjcClass, x: ObjcClass)
    requires g.PairsOk() && Ranked(g, rank) && OutOfTree(g, g1, c, m) && !c.isMeta && IsLeaf(g, c) && g.Isa(c) == m
    requires m.isMeta
    requires x in g.classes && x != c && !x.isMeta && c in g.classes
    ensures Placed(Forget(g1, c, m), RankWithout(rank, c, m), x)
  {
    hide Graph.PairsOk, Follow, UpOf, Ranked;
    ForgottenUp(g, g1, c, m, x);
    RankKeys(g, rank);
    RankAt(g, rank, x);
    ForgetAt(g1, c, m, x);
    assert g1.Sup(x) == g.Sup(x);
    ForgetSets(g1, c, m);
  }

  lemma RankAt(g: Graph, rank: Rank, x: ObjcClass)
    requires Ranked(g, rank) && x in g.classes && !x.isMeta
    ensures Placed(g, rank, x)
  {
  }

  lemma ForgottenUp(g: Graph, g1: Graph, c: ObjcClass, m: ObjcClass, x: ObjcClass)
    requires g.PairsOk() && OutOfTree(g, g1, c, m) && m.isMeta && g.Isa(c) == m && IsLeaf(g, c)
    requires x in g.classes && x != c && !x.isMeta && c in g.classes && !c.isMeta
    ensures UpOf(Forget(g1, c, m), x) ==
      if UpOf(g, x) != Via(c) then UpOf(g, x) else if g.Sup(x) == c then Absent(c) else Missing
  {
    hide Follow, Graph.PairsOk, Forget;
    PairedFacts(g, x);
    PairedFacts(g, c);
    NamesFit(g);
    OutAt(g, g1, c, m, x);
    OutBooks(g, g1, c, m);
    ForgetSets(g1, c, m);
  }

  lemma NamesFit(g: Graph)
    requires g.PairsOk()
    ensures forall n :: n in g.table ==> g.table[n].name == n && g.table[n] in g.classes
  {
  }

  lemma LeafCut(g: Graph, g1: Graph, g2: Graph, c: ObjcClass, p: ObjcClass, i: nat)
    requires g.TreeOk() && CutStep(g, g1, c, p, i) && p in g.tree && c in g.kids && g.kids[c] == []
    requires g2 == g1.(tree := g1.tree - {c})
    ensures g2.TreeOk() && g2.classes == g.classes && g2.tree == g.tree - {c} && c in g.classes
    ensures g2.sup == g.sup && g2.isa == g.isa && g2.kids == g1.kids
  {
    hide Graph.TreeOk, TreeBut, CutStep;
    CutTree(g, g1, c, p, i);
    CutBooks(g, g1, c, p, i);
    KidsShrink(g, g1, c, p, i, c);
    NoMembers(g1.kids[c]);
    ButTree(g1, c);
    LeafTree(g1, g2, c);
  }

  lemma NoMembers(s: seq<ObjcClass>)
    ensures s != [] ==> s[0] in s
  {
  }

  lemma NoKids(g: Graph, c: ObjcClass)
    requires g.KidsOk() && g.PairsOk() && c in g.classes && !c.isMeta && IsLeaf(g, c)
    ensures c in g.kids && g.kids[c] == [] && g.Isa(c) != null && g.Isa(c) in g.kids && g.Isa(c) != c
    ensures g.Isa(c) in g.classes && g.kids[g.Isa(c)] == []
  {
    hide Graph.KidsOk, Graph.PairsOk;
    PairFacts(g, c, c);
    KidsAreLinked(g, c);
    KidsAreLinked(g, g.Isa(c));
    NoMembers(g.kids[c]);
    NoMembers(g.kids[g.Isa(c)]);
    LeafMember(g, c, g.kids[c]);
    LeafMember(g, c, g.kids[g.Isa(c)]);
  }

  lemma LeafSup(g: Graph, c: ObjcClass)
    requires IsLeaf(g, c) && c in g.tree
    ensures g.Sup(c) != c && g.Sup(c) != g.Isa(c)
  {
  }

  lemma LeafMember(g: Graph, c: ObjcClass, s: seq<ObjcClass>)
    requires g.KidsOk() && IsLeaf(g, c)
    ensures s != [] && s[0] in g.tree ==> g.Sup(s[0]) != c && g.Sup(s[0]) != g.Isa(c)
  {
  }

  /** What is left without the class and its metaclass is in order. */
  ghost predicate DisposedWell(g: Graph, rank: Rank, c: ObjcClass, m: ObjcClass) {
    g.Complete() && Forget(g, c, m).Stable() && Ranked(Forget(g, c, m), RankWithout(rank, c, m))
  }

  lemma DisposedFine(g: Graph, g1: Graph, g2: Graph, g3: Graph, g4: Graph, rank: Rank, c: ObjcClass, p: ObjcClass,
                     i: nat, m: ObjcClass, pm: ObjcClass, j: nat)
    requires g.Stable() && Ranked(g, rank) && c in g.tree && !c.isMeta && g.Isa(c) == m && IsLeaf(g, c)
    requires CutStep(g, g1, m, pm, j) && pm in g.tree && p in g.tree
    requires g2 == g1.(tree := g1.tree - {m}) && CutStep(g2, g3, c, p, i) && g4 == g3.(tree := g3.tree - {c})
    requires g4.TreeOk()
    ensures DisposedWell(g4, rank, c, m)
  {
    hide Graph.Stable, Graph.PendingOk, Graph.TreeOk, Graph.KidsOk, Graph.PairsOk, Graph.MetasOk, CutStep, Ranked,
      IsLeaf,
      Forget, OutOfTree, Follow;
    StableFacts(g);
    InTree(g, c);
    PairFacts(g, c, c);
    MetaInTree(g, c);
    OutOfTreeMade(g, g1, g2, g3, c, p, i, m, pm, j);
    ForgottenStable(g, g4, c, m);
    ForgottenRanked(g, g4, rank, c, m);
    TreeInClasses(g4);
  }

  /** The class and its metaclass have been taken out of the lists, one after the other. */
  ghost predicate CutBoth(g: Graph, g1: Graph, g2: Graph, c: ObjcClass, i: nat, m: ObjcClass, j: nat) {
    && g.Sup(m) != null && g.Sup(c) != null && CutStep(g, g1, m, g.Sup(m), j) && CutStep(g1, g2, c, g.Sup(c), i)
    && g.Sup(m) in g.tree && g.Sup(c) in g.tree && c in g.tree && m in g.tree && c != m
  }

  lemma CutEarlier(g: Graph, g': Graph, c: ObjcClass, p: ObjcClass, i: nat, rest: set<ObjcClass>)
    requires CutStep(g, g', c, p, i) && rest <= g.tree
    ensures CutStep(g.(tree := rest), g'.(tree := rest), c, p, i)
  {
    var h, h' := g.(tree := rest), g'.(tree := rest);
    forall x | x in g.classes
      ensures h'.Sub(x) == g'.Sub(x) && h.Sub(x) == g.Sub(x) && h'.Sib(x) == g'.Sib(x) && h.Sib(x) == g.Sib(x)
    {
    }
  }

  /** What becomes of the class when it has no subclasses. */
  lemma DisposedLeaf(g: Graph, g1: Graph, g2: Graph, rank: Rank, c: ObjcClass, i: nat, m: ObjcClass, j: nat)
    requires g.Stable() && Ranked(g, rank) && !c.isMeta && g.Isa(c) == m && IsLeaf(g, c)
    requires CutBoth(g, g1, g2, c, i, m, j)
    ensures DisposedWell(g2.(tree := g2.tree - {c, m}), rank, c, m)
  {
    hide Graph.Stable, Graph.TreeOk, CutStep, Ranked, IsLeaf, Forget, Follow, DisposedWell, SameClasses, Graph.KidsOk,
      Graph.PendingOk, Graph.PairsOk, Graph.MetasOk;
    var g1', g2', g' := g1.(tree := g1.tree - {m}), g2.(tree := g1.tree - {m}), g2.(tree := g2.tree - {c, m});
    StableFacts(g);
    LeavesCut(g, g1, g2, c, i, m, j);
    CutBooks(g, g1, m, g.Sup(m), j);
    CutBooks(g1, g2, c, g.Sup(c), i);
    CutEarlier(g1, g2, c, g.Sup(c), i, g1.tree - {m});
    assert g' == g2'.(tree := g2'.tree - {c});
    DisposedFine(g, g1, g1', g2', g', rank, c, g.Sup(c), i, m, g.Sup(m), j);
  }

  lemma LeavesCut(g: Graph, g1: Graph, g2: Graph, c: ObjcClass, i: nat, m: ObjcClass, j: nat)
    requires g.TreeOk() && g.PairsOk() && !c.isMeta && g.Isa(c) == m && IsLeaf(g, c) && CutBoth(g, g1, g2, c, i, m, j)
    ensures g2.(tree := g2.tree - {c, m}).TreeOk()
  {
    hide Graph.KidsOk, Graph.ListsOk, Graph.TreeOk, Graph.PairsOk, CutStep, IsLeaf, Follow, SameClasses;
    var g1', g2', g' := g1.(tree := g1.tree - {m}), g2.(tree := g1.tree - {m}), g2.(tree := g2.tree - {c, m});
    KidsOfTree(g);
    CutBooks(g, g1, m, g.Sup(m), j);
    CutBooks(g1, g2, c, g.Sup(c), i);
    CutEarlier(g1, g2, c, g.Sup(c), i, g1.tree - {m});
    NoKids(g, c);
    LeafCut(g, g1, g1', m, g.Sup(m), j);
    KidsShrink(g, g1, m, g.Sup(m), j, c);
    NoMembers(g1.kids[c]);
    LeafSup(g, c);
    assert g' == g2'.(tree := g2'.tree - {c});
    LeafCut(g1', g2', g', c, g.Sup(c), i);
  }

  lemma KidsOfTree(g: Graph)
    requires g.TreeOk()
    ensures g.KidsOk()
  {
  }

  /** A linked subclass of what has been disposed of has no superclass any more. */
  lemma DisposedOrphans(g: Graph, g1: Graph, g2: Graph, c: ObjcClass, i: nat, m: ObjcClass, j: nat)
    requires g.Stable() && !IsLeaf(g, c) && !c.isMeta && g.Isa(c) == m && CutBoth(g, g1, g2, c, i, m, j)
    requires g.Sup(c) != c && g.Sup(c) != m && g.Sup(m) != c && g.Sup(m) != m
    ensures var g' := g2.(tree := g2.tree - {c, m});
      g'.Complete() && !Forget(g', c, m).Stable()
  {
    hide Graph.Stable, Graph.TreeOk, Graph.PairsOk, CutStep, Forget, Follow, IsLeaf;
    CutBooks(g, g1, m, g.Sup(m), j);
    CutBooks(g1, g2, c, g.Sup(c), i);
    var g' := g2.(tree := g2.tree - {c, m});
    var x := Subclass(g, c);
    var f := Forget(g', c, m);
    ForgetSets(g', c, m);
    assert g'.Sup(x) == g.Sup(x);
    ForgetAt(g', c, m, x);
    if f.Stable() {
      Supported(f, x);
    }
  }

  lemma Subclass(g: Graph, c: ObjcClass) returns (x: ObjcClass)
    requires !IsLeaf(g, c)
    ensures x in g.tree && (g.Sup(x) == c || g.Sup(x) == g.Isa(c))
  {
    x :| x in g.tree && (g.Sup(x) == c || g.Sup(x) == g.Isa(c));
  }

  lemma Supported(g: Graph, x: ObjcClass)
    requires g.Stable() && x in g.tree
    ensures g.Sup(x) != null ==> g.Sup(x) in g.classes
  {
    TreeIsKid(g, x);
  }

  /** The list of classes that wait to be resolved still has an unresolved class that is disposed of. */
  lemma DisposedWaiting(g: Graph, c: ObjcClass, m: ObjcClass)
    requires g.Stable() && c in g.classes && !c.isMeta && c !in g.resolved
    ensures g.Complete() && !Forget(g, c, m).Stable()
  {
    StableFacts(g);
    TreeInClasses(g);
    IsPending(g, c);
    if Forget(g, c, m).Stable() {
      NotPending(Forget(g, c, m), c);
    }
  }

  lemma IsPending(g: Graph, c: ObjcClass)
    requires g.Stable() && c in g.classes && !c.isMeta && c !in g.resolved
    ensures c in g.pending
  {
    assert g.Waiting(c);
  }

  lemma NotPending(g: Graph, c: ObjcClass)
    requires g.Stable() && c !in g.classes
    ensures c !in g.pending
  {
    assert c in g.pending ==> g.Waiting(c);
  }

  /** What is left is in order if and only if the class was linked and no linked class was below it. */
  lemma Disposed(g: Graph, g1: Graph, g2: Graph, rank: Rank, c: ObjcClass, i: nat, m: ObjcClass, j: nat)
    requires g.Stable() && Ranked(g, rank) && c in g.classes && !c.isMeta && g.Isa(c) == m
    requires if c in g.tree then CutBoth(g, g1, g2, c, i, m, j) else g2 == g
    ensures g2.(tree := g2.tree - {c, m}).Complete()
    ensures DisposedWell(g2.(tree := g2.tree - {c, m}), rank, c, m) <==> c in g.tree && IsLeaf(g, c)
  {
    hide Graph.Stable, Ranked, IsLeaf, CutBoth, Graph.Complete;
    if c !in g.tree {
      OutsideTree(g, c, m);
      DisposedWaiting(g, c, m);
    } else if IsLeaf(g, c) {
      DisposedLeaf(g, g1, g2, rank, c, i, m, j);
    } else {
      SupersApart(g, g1, g2, rank, c, i, m, j);
      DisposedOrphans(g, g1, g2, c, i, m, j);
    }
  }

  lemma OutsideTree(g: Graph, c: ObjcClass, m: ObjcClass)
    requires g.Stable() && c in g.classes && !c.isMeta && g.Isa(c) == m && c !in g.tree
    ensures g.(tree := g.tree - {c, m}) == g && c !in g.resolved
  {
    assert g.Paired(c);
  }

  lemma SupersApart(g: Graph, g1: Graph, g2: Graph, rank: Rank, c: ObjcClass, i: nat, m: ObjcClass, j: nat)
    requires g.Stable() && Ranked(g, rank) && !c.isMeta && g.Isa(c) == m && CutBoth(g, g1, g2, c, i, m, j)
    ensures g.Sup(c) != c && g.Sup(c) != m && g.Sup(m) != c && g.Sup(m) != m
  {
    hide Graph.TreeOk, Graph.PairsOk, Graph.MetasOk, CutStep;
    StableFacts(g);
    InTree(g, c);
    PairFacts(g, c, c);
    SupFacts(g, c);
    PairFacts(g, g.Sup(c), c);
    MetasFact(g, c);
    assert UpOf(g, c) == Via(g.Sup(c));
  }
}
