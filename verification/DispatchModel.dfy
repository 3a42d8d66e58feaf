/**
 Dispatch tables as functions of the class hierarchy: what a table should hold, which
 tables the installation of a method reaches, and when the two agree.
 */
module DispatchModel {
  import opened Wrappers

  /** A class or, with `meta`, its metaclass.  Class names are unique. */
  datatype Class = Class(name: string, meta: bool)

  /** Two methods are the same only if they are the same object, hence `id`. */
  datatype Method = Method(id: nat, selector: nat, imp: nat)

  type Table = map<nat, Method>

  /**
   Where an enumeration of a table with keys of 8 or 16 bits ends.  At 8 bits no selector
   has the last index; at 16 bits the last child of the root is never looked at.
   */
  function Limit(depth: nat): nat {
    if depth == 8 then 0xFF else 0xFF00
  }

  datatype World = World(classes: set<Class>, sup: map<Class, Option<Class>>, subs: map<Class, seq<Class>>,
                         methods: map<Class, seq<seq<Method>>>, tables: map<Class, Table>, depth: nat, version: nat,
                         rank: map<Class, nat>)
  {
    /** The tables are of a depth at which it is known what an enumeration comes to. */
    predicate Listable() {
      depth == 8 || depth == 16
    }

    /** Enumerating a table comes to this selector. */
    predicate Scanned(s: nat) {
      0 < s < Limit(depth)
    }

    ghost function Entry(c: Class, s: nat): Option<Method> {
      if c in tables && s in tables[c] then Some(tables[c][s]) else None
    }

    ghost predicate IsSup(c: Class, p: Class) {
      c in sup && sup[c] == Some(p)
    }

    /** The hierarchy as the class table keeps it: no cycles, and exact lists of subclasses. */
    ghost predicate Sound() {
      && sup.Keys == classes && subs.Keys == classes && methods.Keys == classes && rank.Keys == classes
      && tables.Keys <= classes
      && (forall c, p {:trigger IsSup(c, p)} :: IsSup(c, p) ==> p in classes && rank[p] < rank[c])
      && (forall c, d :: c in classes ==> (d in subs[c] <==> IsSup(d, c)))
      && (forall c, i, j :: c in classes && 0 <= i < j < |subs[c]| ==> subs[c][i] != subs[c][j])
      && (forall c, d, m :: c in classes && d in classes && m in Flat(methods[c]) && m in Flat(methods[d]) ==> c == d)
    }

    /** `d` is in `x` or below a class of `x`. */
    ghost predicate Under(x: set<Class>, d: Class)
      requires Sound()
      decreases if d in rank then rank[d] else 0
    {
      d in x || (d in classes && sup[d].Some? && (assert IsSup(d, sup[d].value); Under(x, sup[d].value)))
    }

    /** The method of `c` itself for a selector. */
    ghost function Own(c: Class, s: nat): Option<Method>
      requires Sound() && c in classes
    {
      Find(Flat(methods[c]), s, None)
    }

    /** The slow lookup: the first match in the lists of the class, or else what the superclass answers. */
    ghost function Resolve(c: Class, s: nat): Option<Method>
      requires Sound() && c in classes
      decreases rank[c]
    {
      if Own(c, s).Some? then Own(c, s) else Inherited(c, s)
    }

    ghost function Inherited(c: Class, s: nat): Option<Method>
      requires Sound() && c in classes
      decreases rank[c], 0
    {
      match sup[c]
      case None => None
      case Some(p) => assert IsSup(c, p); Resolve(p, s)
    }

    ghost predicate AgreesAt(s: nat)
      requires Sound()
    {
      forall c {:trigger Entry(c, s)} :: c in tables ==> Entry(c, s) == Resolve(c, s)
    }

    /** Every table agrees with the slow lookup. */
    ghost predicate Agrees()
      requires Sound()
    {
      forall s :: AgreesAt(s)
    }
  }

  function Put(t: Table, m: Method): Table {
    t[m.selector := m]
  }

  function Flat(lists: seq<seq<Method>>): seq<Method> {
    if lists == [] then [] else lists[0] + Flat(lists[1..])
  }

  /** The first method for `s` that does not share its implementation with `avoid`. */
  function Find(ms: seq<Method>, s: nat, avoid: Option<Method>): Option<Method> {
    if ms == [] then None
    else if ms[0].selector == s && (avoid.None? || ms[0].imp != avoid.value.imp) then Some(ms[0])
    else Find(ms[1..], s, avoid)
  }

  lemma {:induction false} FindAppend(p: seq<Method>, q: seq<Method>, s: nat, avoid: Option<Method>)
    ensures Find(p + q, s, avoid) == if Find(p, s, avoid).Some? then Find(p, s, avoid) else Find(q, s, avoid)
  {
    if p == [] {
      assert p + q == q;
    } else {
      assert (p + q)[1..] == p[1..] + q;
      FindAppend(p[1..], q, s, avoid);
    }
  }

  lemma {:induction false} FlatAppend(p: seq<seq<Method>>, q: seq<seq<Method>>)
    ensures Flat(p + q) == Flat(p) + Flat(q)
  {
    if p == [] {
      assert p + q == q;
    } else {
      assert (p + q)[1..] == p[1..] + q;
      FlatAppend(p[1..], q);
    }
  }

  lemma {:induction false} FindSound(ms: seq<Method>, s: nat, avoid: Option<Method>)
    ensures Find(ms, s, avoid).Some? ==> Find(ms, s, avoid).value in ms && Find(ms, s, avoid).value.selector == s
    ensures Find(ms, s, avoid).None? ==>
      forall m :: m in ms && m.selector == s ==> avoid.Some? && m.imp == avoid.value.imp
  {
    if ms != [] {
      FindSound(ms[1..], s, avoid);
    }
  }

  // ----- what the installation of a method reaches -----

  /**
   `d` and everything between `c` and `d` have tables with `was` at `s`: these are the
   tables that a method installed in `c` in the place of `was` is passed on to.
   */
  ghost predicate Affected(w: World, c: Class, s: nat, was: Option<Method>, d: Class)
    requires w.Sound()
    decreases if d in w.rank then w.rank[d] else 0
  {
    && d in w.tables && w.Entry(d, s) == was
    && (d == c || (w.sup[d].Some? && (assert w.IsSup(d, w.sup[d].value); Affected(w, c, s, was, w.sup[d].value))))
  }

  ghost function Installed(w: World, c: Class, m: Method, was: Option<Method>): map<Class, Table>
    requires w.Sound()
  {
    map d | d in w.tables :: if Affected(w, c, m.selector, was, d) then Put(w.tables[d], m) else w.tables[d]
  }

  /** The same hierarchy and the same set of tables. */
  ghost predicate SameShape(w: World, w': World) {
    && w'.classes == w.classes && w'.sup == w.sup && w'.subs == w.subs && w'.methods == w.methods && w'.rank == w.rank
    && w'.tables.Keys == w.tables.Keys && w'.depth == w.depth
  }

  lemma SameShapeSound(w: World, w': World)
    requires w.Sound() && SameShape(w, w')
    ensures w'.Sound()
  {
    hide Flat;
    forall c, p | w'.IsSup(c, p)
      ensures p in w'.classes && w'.rank[p] < w'.rank[c]
    {
      assert w.IsSup(c, p);
    }
    forall c, d | c in w'.classes
      ensures d in w'.subs[c] <==> w'.IsSup(d, c)
    {
      assert w.IsSup(d, c) == w'.IsSup(d, c);
    }
  }

  lemma {:induction false} AffectedIsUnder(w: World, c: Class, s: nat, was: Option<Method>, d: Class)
    requires w.Sound() && Affected(w, c, s, was, d)
    ensures w.Under({c}, d) && Affected(w, c, s, was, c)
    decreases w.rank[d]
  {
    if d != c {
      assert w.IsSup(d, w.sup[d].value);
      AffectedIsUnder(w, c, s, was, w.sup[d].value);
    }
  }

  lemma {:induction false} UnderRank(w: World, c: Class, d: Class)
    requires w.Sound() && w.Under({c}, d) && c in w.classes
    ensures d in w.classes && w.rank[c] <= w.rank[d]
    ensures d != c ==> w.rank[c] < w.rank[d]
    decreases if d in w.rank then w.rank[d] else 0
  {
    if d != c {
      assert w.IsSup(d, w.sup[d].value);
      UnderRank(w, c, w.sup[d].value);
    }
  }

  /** The child of `c` that leads to `d`. */
  ghost function Toward(w: World, c: Class, d: Class): Option<Class>
    requires w.Sound()
    decreases if d in w.rank then w.rank[d] else 0
  {
    if d !in w.classes || w.sup[d].None? then None
    else if w.sup[d].value == c then Some(d)
    else assert w.IsSup(d, w.sup[d].value); Toward(w, c, w.sup[d].value)
  }

  lemma {:induction false} UnderChild(w: World, c: Class, k: Class, d: Class)
    requires w.Sound() && w.IsSup(k, c) && w.Under({k}, d)
    ensures Toward(w, c, d) == Some(k) && d != c && w.Under({c}, d)
    decreases if d in w.rank then w.rank[d] else 0
  {
    UnderRank(w, k, d);
    if d != k {
      var p := w.sup[d].value;
      assert w.IsSup(d, p);
      UnderChild(w, c, k, p);
    }
  }

  /** A table below `c` is reached from `c` just if it is reached from a child of `c`. */
  lemma {:induction false} AffectedThroughChild(w: World, c: Class, s: nat, was: Option<Method>, d: Class)
    requires w.Sound() && c in w.classes && d != c && Affected(w, c, s, was, d)
    ensures Toward(w, c, d).Some?
    ensures var k := Toward(w, c, d).value; w.IsSup(k, c) && Affected(w, k, s, was, d)
    decreases w.rank[d]
  {
    var p := w.sup[d].value;
    assert w.IsSup(d, p);
    if p != c {
      AffectedThroughChild(w, c, s, was, p);
      AffectedIsUnder(w, Toward(w, c, p).value, s, was, p);
      assert Toward(w, c, d) == Toward(w, c, p);
    }
  }

  lemma {:induction false} AffectedFromChild(w: World, c: Class, k: Class, s: nat, was: Option<Method>, d: Class)
    requires w.Sound() && w.IsSup(k, c) && Affected(w, k, s, was, d) && Affected(w, c, s, was, c)
    ensures Affected(w, c, s, was, d)
    decreases w.rank[d]
  {
    if d != k {
      assert w.IsSup(d, w.sup[d].value);
      AffectedFromChild(w, c, k, s, was, w.sup[d].value);
    }
  }

  /** What is reached from `c` depends only on the tables below `c`. */
  lemma {:induction false} AffectedFrame(w: World, w': World, c: Class, s: nat, was: Option<Method>, d: Class)
    requires w.Sound() && w'.Sound() && SameShape(w, w')
    requires forall x {:trigger w'.Entry(x, s)} :: x in w.tables && w.Under({c}, x) ==> w'.Entry(x, s) == w.Entry(x, s)
    ensures Affected(w', c, s, was, d) == Affected(w, c, s, was, d)
    decreases if d in w.rank then w.rank[d] else 0
  {
    if d in w.tables && d != c && w.sup[d].Some? {
      assert w.IsSup(d, w.sup[d].value);
      AffectedFrame(w, w', c, s, was, w.sup[d].value);
      if Affected(w, c, s, was, w.sup[d].value) {
        AffectedIsUnder(w, c, s, was, w.sup[d].value);
      }
    }
  }

  // ----- one child at a time -----

  /** The children of `c` before the `i`-th one, and all below them, have been seen to. */
  ghost predicate Seen(w: World, c: Class, i: nat, d: Class)
    requires w.Sound() && c in w.classes && i <= |w.subs[c]|
  {
    Toward(w, c, d).Some? && Toward(w, c, d).value in w.subs[c][..i]
  }

  ghost function Partly(w: World, c: Class, m: Method, was: Option<Method>, i: nat): map<Class, Table>
    requires w.Sound() && c in w.classes && i <= |w.subs[c]|
  {
    map d | d in w.tables ::
      if Affected(w, c, m.selector, was, d) && (d == c || Seen(w, c, i, d)) then Put(w.tables[d], m)
      else w.tables[d]
  }

  lemma PartlyStart(w: World, c: Class, m: Method, was: Option<Method>)
    requires w.Sound() && c in w.tables && w.Entry(c, m.selector) == was
    ensures Partly(w, c, m, was, 0) == w.tables[c := Put(w.tables[c], m)]
  {
    assert w.subs[c][..0] == [];
  }

  lemma PartlyEnd(w: World, c: Class, m: Method, was: Option<Method>)
    requires w.Sound() && c in w.tables
    ensures Partly(w, c, m, was, |w.subs[c]|) == Installed(w, c, m, was)
  {
    assert w.subs[c][..|w.subs[c]|] == w.subs[c];
    forall d | d in w.tables && d != c && Affected(w, c, m.selector, was, d)
      ensures Seen(w, c, |w.subs[c]|, d)
    {
      AffectedThroughChild(w, c, m.selector, was, d);
      assert w.IsSup(Toward(w, c, d).value, c);
    }
  }

  ghost predicate SeenBySteps(w: World, c: Class, i: nat, k: Class, d: Class)
    requires w.Sound() && c in w.classes && i < |w.subs[c]|
  {
    && (Seen(w, c, i + 1, d) <==> Seen(w, c, i, d) || Toward(w, c, d) == Some(k))
    && (Toward(w, c, d) == Some(k) ==> !Seen(w, c, i, d))
  }

  lemma SeenStep(w: World, c: Class, i: nat, d: Class)
    requires w.Sound() && c in w.classes && i < |w.subs[c]|
    ensures w.IsSup(w.subs[c][i], c) && SeenBySteps(w, c, i, w.subs[c][i], d)
  {
    var k := w.subs[c][i];
    assert k in w.subs[c];
    assert w.subs[c][..i + 1] == w.subs[c][..i] + [k];
    forall j | 0 <= j < i
      ensures w.subs[c][j] != k
    {
    }
  }

  /** Installing in the next child what was installed in `c`. */
  lemma PartlyStep(w: World, w1: World, c: Class, m: Method, was: Option<Method>, i: nat)
    requires w.Sound() && w1.Sound() && c in w.tables && w.Entry(c, m.selector) == was && i < |w.subs[c]|
    requires SameShape(w, w1) && w1.tables == Partly(w, c, m, was, i)
    ensures var k := w.subs[c][i];
      Partly(w, c, m, was, i + 1) == if Affected(w, k, m.selector, was, k) then Installed(w1, k, m, was) else w1.tables
    ensures var k := w.subs[c][i]; k in w.tables ==> w1.Entry(k, m.selector) == w.Entry(k, m.selector)
  {
    hide Affected;
    var k, s := w.subs[c][i], m.selector;
    SeenStep(w, c, i, k);
    AffectedSelf(w, c, s, was);
    forall x | x in w.tables && w.Under({k}, x)
      ensures w1.tables[x] == w.tables[x] && w1.Entry(x, s) == w.Entry(x, s)
    {
      UnderChild(w, c, k, x);
      SeenStep(w, c, i, x);
    }
    forall d | d in w.tables
      ensures Partly(w, c, m, was, i + 1)[d] ==
        (if Affected(w, k, s, was, k) then Installed(w1, k, m, was)[d] else w1.tables[d])
    {
      PartlyStepAt(w, w1, c, m, was, i, d);
    }
  }

  lemma AffectedSelf(w: World, c: Class, s: nat, was: Option<Method>)
    requires w.Sound() && c in w.tables && w.Entry(c, s) == was
    ensures Affected(w, c, s, was, c)
  {
  }

  lemma PartlyStepAt(w: World, w1: World, c: Class, m: Method, was: Option<Method>, i: nat, d: Class)
    requires w.Sound() && w1.Sound() && c in w.tables && Affected(w, c, m.selector, was, c) && i < |w.subs[c]|
    requires SameShape(w, w1) && w1.tables == Partly(w, c, m, was, i) && d in w.tables
    requires forall x {:trigger w1.Entry(x, m.selector)} ::
      x in w.tables && w.Under({w.subs[c][i]}, x) ==>
        w1.tables[x] == w.tables[x] && w1.Entry(x, m.selector) == w.Entry(x, m.selector)
    ensures var k := w.subs[c][i];
      Partly(w, c, m, was, i + 1)[d] ==
        if Affected(w, k, m.selector, was, k) then Installed(w1, k, m, was)[d] else w1.tables[d]
  {
    var k, s := w.subs[c][i], m.selector;
    SeenStep(w, c, i, d);
    AffectedFrame(w, w1, k, s, was, d);
    if Affected(w, k, s, was, d) {
      AffectedIsUnder(w, k, s, was, d);
      UnderChild(w, c, k, d);
      AffectedFromChild(w, c, k, s, was, d);
    } else if d != c && Affected(w, c, s, was, d) {
      AffectedThroughChild(w, c, s, was, d);
    }
  }
}
