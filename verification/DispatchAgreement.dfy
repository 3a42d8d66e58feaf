/**
 When dispatch tables agree with the slow lookup: after a method list is added, after a
 table is created, and after a class gets another superclass.
 */
module DispatchAgreement {
  import opened Wrappers
  import opened DispatchModel

  ghost predicate AgreesClass(w: World, c: Class)
    requires w.Sound() && c in w.classes
  {
    forall s {:trigger w.Entry(c, s)} :: w.Entry(c, s) == w.Resolve(c, s)
  }

  /** What the class itself defines is what its table holds. */
  ghost predicate OwnRight(w: World, c: Class)
    requires w.Sound() && c in w.classes
  {
    forall s {:trigger w.Entry(c, s)} :: w.Own(c, s).Some? ==> w.Entry(c, s) == w.Own(c, s)
  }

  /** What the class does not define is what the table of its superclass holds. */
  ghost predicate FollowsParent(w: World, c: Class)
    requires w.Sound() && c in w.classes
  {
    forall s {:trigger w.Entry(c, s)} :: w.Own(c, s).None? ==> w.Entry(c, s) == ParentEntry(w, c, s)
  }

  /** What the table of the superclass holds. */
  ghost function ParentEntry(w: World, c: Class, s: nat): Option<Method>
    requires w.Sound() && c in w.classes
  {
    match w.sup[c]
    case None => None
    case Some(p) => w.Entry(p, s)
  }

  ghost predicate Above(w: World, d: Class) {
    forall p {:trigger w.IsSup(d, p)} :: w.IsSup(d, p) ==> p in w.tables
  }

  /**
   All is well except for what the classes of `x` inherit, whose superclass has just
   changed: tables are created from the root downwards, and each holds what its class
   defines and, for the rest, what the table of the superclass holds.
   */
  ghost predicate Settled(w: World, x: set<Class>) {
    && w.Sound()
    && (forall d {:trigger Above(w, d)} :: d in w.tables && d !in x ==> Above(w, d))
    && (forall d {:trigger FollowsParent(w, d)} :: d in w.tables && d !in x ==> FollowsParent(w, d))
    && (forall d {:trigger OwnRight(w, d)} :: d in w.tables ==> OwnRight(w, d))
  }

  lemma SettledAgrees(w: World)
    requires Settled(w, {})
    ensures w.Agrees()
  {
    forall s, c | c in w.tables
      ensures w.Entry(c, s) == w.Resolve(c, s)
    {
      UnderNothing(w, c);
      SettledRight(w, {}, c);
      assert AgreesClass(w, c);
    }
  }

  /** A table agrees with the slow lookup unless it is at or below a class of `x`. */
  lemma SettledRight(w: World, x: set<Class>, c: Class)
    requires Settled(w, x) && c in w.tables && !w.Under(x, c)
    ensures AgreesClass(w, c)
  {
    forall s
      ensures w.Entry(c, s) == w.Resolve(c, s)
    {
      SettledRightAt(w, x, c, s);
    }
  }

  lemma {:induction false} SettledRightAt(w: World, x: set<Class>, c: Class, s: nat)
    requires Settled(w, x) && c in w.tables && !w.Under(x, c)
    ensures w.Entry(c, s) == w.Resolve(c, s)
    decreases w.rank[c]
  {
    assert OwnRight(w, c) && FollowsParent(w, c) && Above(w, c);
    if w.Own(c, s).None? && w.sup[c].Some? {
      assert w.IsSup(c, w.sup[c].value);
      SettledRightAt(w, x, w.sup[c].value, s);
    }
  }

  lemma {:induction false} UnderNothing(w: World, d: Class)
    requires w.Sound()
    ensures !w.Under({}, d)
    decreases if d in w.rank then w.rank[d] else 0
  {
    if d in w.classes && w.sup[d].Some? {
      assert w.IsSup(d, w.sup[d].value);
      UnderNothing(w, w.sup[d].value);
    }
  }

  /** Where an answer of the slow lookup comes from. */
  lemma {:induction false} ResolveOwner(w: World, c: Class, s: nat) returns (e: Class)
    requires w.Sound() && c in w.classes && w.Resolve(c, s).Some?
    ensures e in w.classes && w.rank[e] <= w.rank[c] && w.Resolve(c, s).value in Flat(w.methods[e])
    ensures w.Own(c, s).None? ==> w.rank[e] < w.rank[c]
    decreases w.rank[c]
  {
    FindSound(Flat(w.methods[c]), s, None);
    if w.Own(c, s).Some? {
      e := c;
    } else {
      var p := w.sup[c].value;
      assert w.IsSup(c, p);
      e := ResolveOwner(w, p, s);
    }
  }

  /** What a class inherits is no method of its own, nor of any class below it. */
  lemma InheritedIsForeign(w: World, c: Class, d: Class, s: nat)
    requires w.Sound() && c in w.classes && d in w.classes && w.rank[c] <= w.rank[d]
    ensures w.Inherited(c, s).Some? ==> w.Inherited(c, s).value !in Flat(w.methods[d])
  {
    if w.Inherited(c, s).Some? {
      var p := w.sup[c].value;
      assert w.IsSup(c, p);
      var e := ResolveOwner(w, p, s);
    }
  }

  ghost predicate Installs(entry: Option<Method>, m: Method, toReplace: Option<Method>, replaceExisting: bool) {
    && (if replaceExisting then toReplace == entry else entry.None?)
    && (entry.Some? ==> entry.value.imp != m.imp)
  }

  // ----- adding a list of methods -----

  function Last(list: seq<Method>, s: nat): Option<Method> {
    if list == [] then None
    else if list[|list| - 1].selector == s then Some(list[|list| - 1])
    else Last(list[..|list| - 1], s)
  }

  lemma {:induction false} LastSound(list: seq<Method>, s: nat)
    ensures Last(list, s).Some? ==> Last(list, s).value in list && Last(list, s).value.selector == s
    ensures Last(list, s).None? <==> Find(list, s, None).None?
  {
    if list != [] {
      var front := list[..|list| - 1];
      LastSound(front, s);
      assert list == front + [list[|list| - 1]];
      FindAppend(front, [list[|list| - 1]], s, None);
    }
  }

  /** The entry of `d` at `s` after `list` has been added to `c`. */
  ghost function AddedEntry(w: World, c: Class, list: seq<Method>, d: Class, s: nat): Option<Method>
    requires w.Sound() && c in w.classes
  {
    var entry := w.Entry(c, s);
    if
      && w.Scanned(s) && Last(list, s).Some? && Installs(entry, Last(list, s).value, ParentEntry(w, c, s), true)
      && Affected(w, c, s, entry, d)
    then Last(list, s)
    else w.Entry(d, s)
  }

  ghost predicate Fresh(w: World, list: seq<Method>)
    requires w.methods.Keys == w.classes
  {
    forall m, d :: m in list && d in w.classes ==> m !in Flat(w.methods[d])
  }

  /** The new list is put in front; the tables change as `AddedEntry` says. */
  ghost predicate AddStep(w: World, w': World, c: Class, list: seq<Method>) {
    && w.Sound() && w'.Sound() && c in w.classes && Fresh(w, list)
    && w'.classes == w.classes && w'.sup == w.sup && w'.subs == w.subs && w'.rank == w.rank && w'.depth == w.depth
    && w'.methods == w.methods[c := [list] + w.methods[c]] && w'.tables.Keys == w.tables.Keys
    && (forall d, s {:trigger w'.Entry(d, s)} :: d in w.tables ==>
          w'.Entry(d, s) == if c in w.tables then AddedEntry(w, c, list, d, s) else w.Entry(d, s))
  }

  lemma OwnAdded(w: World, w': World, c: Class, list: seq<Method>, d: Class, s: nat)
    requires AddStep(w, w', c, list) && d in w.classes
    ensures w'.Own(d, s) == if d == c && Find(list, s, None).Some? then Find(list, s, None) else w.Own(d, s)
  {
    if d == c {
      assert ([list] + w.methods[c])[1..] == w.methods[c];
      assert Flat([list] + w.methods[c]) == list + Flat(w.methods[c]);
      FindAppend(list, Flat(w.methods[c]), s, None);
    }
  }

  /**
   The condition for the new methods to be found: the enumeration comes to the selector,
   and there is no clash in the list, in the class or with the inherited implementation.
   */
  ghost predicate OkToAdd(w: World, c: Class, list: seq<Method>, s: nat)
    requires w.Sound() && c in w.classes
  {
    Last(list, s).Some? ==>
      && w.Scanned(s) && w.Own(c, s).None? && Last(list, s) == Find(list, s, None)
      && (w.Inherited(c, s).Some? ==> w.Inherited(c, s).value.imp != Last(list, s).value.imp)
  }

  lemma {:induction false} SameResolve(w: World, w': World, c: Class, list: seq<Method>, d: Class, s: nat)
    requires AddStep(w, w', c, list) && d in w.classes
    requires Last(list, s).None? || !w.Under({c}, d)
    ensures w'.Resolve(d, s) == w.Resolve(d, s)
    decreases w.rank[d]
  {
    LastSound(list, s);
    OwnAdded(w, w', c, list, d, s);
    if w.sup[d].Some? {
      assert w.IsSup(d, w.sup[d].value) && w'.IsSup(d, w.sup[d].value);
      SameResolve(w, w', c, list, w.sup[d].value, s);
    }
  }

  lemma ParentAgrees(w: World, x: set<Class>, c: Class, s: nat)
    requires Settled(w, x) && c in w.classes && !w.Under(x, c) && Above(w, c)
    ensures ParentEntry(w, c, s) == w.Inherited(c, s)
  {
    if w.sup[c].Some? {
      assert w.IsSup(c, w.sup[c].value);
      SettledRightAt(w, x, w.sup[c].value, s);
    }
  }

  lemma {:induction false} AddedRight(w: World, w': World, c: Class, list: seq<Method>, d: Class, s: nat)
    requires Settled(w, {}) && AddStep(w, w', c, list) && c in w.tables && d in w.tables
    requires OkToAdd(w, c, list, s) && Last(list, s).Some?
    ensures w'.Entry(d, s) == w'.Resolve(d, s)
    decreases w.rank[d]
  {
    var r := w.Inherited(c, s);
    SettledAt(w, c, s);
    SettledAt(w, d, s);
    ParentAgrees(w, {}, c, s);
    LastSound(list, s);
    OwnAdded(w, w', c, list, d, s);
    if d != c {
      if w.sup[d].Some? {
        var p := w.sup[d].value;
        assert w.IsSup(d, p) && w'.IsSup(d, p) && Above(w, d);
        AddedRight(w, w', c, list, p, s);
        SettledAt(w, p, s);
        if Affected(w, c, s, r, d) {
          AffectedIsUnder(w, c, s, r, d);
          UnderRank(w, c, d);
          InheritedIsForeign(w, c, d, s);
          FindSound(Flat(w.methods[d]), s, None);
        }
      }
    }
  }

  lemma SettledAt(w: World, d: Class, s: nat)
    requires Settled(w, {}) && d in w.tables
    ensures w.Entry(d, s) == w.Resolve(d, s) && Above(w, d) && !w.Under({}, d)
  {
    UnderNothing(w, d);
    SettledRightAt(w, {}, d, s);
  }

  lemma AddedWrong(w: World, w': World, c: Class, list: seq<Method>, s: nat)
    requires Settled(w, {}) && AddStep(w, w', c, list) && c in w.tables
    requires !OkToAdd(w, c, list, s)
    ensures w'.Entry(c, s) != w'.Resolve(c, s)
  {
    LastSound(list, s);
    var f := Find(list, s, None).value;
    FindSound(list, s, None);
    OwnAdded(w, w', c, list, c, s);
    assert w'.Resolve(c, s) == Some(f);
    SettledAt(w, c, s);
    ParentAgrees(w, {}, c, s);
    InheritedIsForeign(w, c, c, s);
    FindSound(Flat(w.methods[c]), s, None);
    if w.Entry(c, s) == Some(f) {
      var e := ResolveOwner(w, c, s);
      assert false;
    }
  }

  /** Adding a list keeps a selector right in all tables just if the condition holds for it. */
  lemma AddedAgreesAt(w: World, w': World, c: Class, list: seq<Method>, s: nat)
    requires Settled(w, {}) && AddStep(w, w', c, list) && c in w.tables
    ensures w'.AgreesAt(s) <==> OkToAdd(w, c, list, s)
  {
    if !OkToAdd(w, c, list, s) {
      AddedWrong(w, w', c, list, s);
    } else {
      forall d | d in w'.tables
        ensures w'.Entry(d, s) == w'.Resolve(d, s)
      {
        if Last(list, s).Some? {
          AddedRight(w, w', c, list, d, s);
        } else {
          SettledAt(w, d, s);
          SameResolve(w, w', c, list, d, s);
        }
      }
    }
  }

  /** Without a table nothing has to be kept up to date. */
  lemma {:induction false} NoTableNoneBelow(w: World, x: set<Class>, c: Class, d: Class)
    requires Settled(w, x) && c !in w.tables && d in w.tables && w.Under({c}, d)
    ensures w.Under(x, d)
    decreases w.rank[d]
  {
    if d !in x {
      assert w.IsSup(d, w.sup[d].value) && Above(w, d);
      NoTableNoneBelow(w, x, c, w.sup[d].value);
    }
  }

  /** Adding a list to a class keeps all tables right if, and only if, it clashes with nothing. */
  lemma AddedSettled(w: World, w': World, c: Class, list: seq<Method>)
    requires Settled(w, {}) && AddStep(w, w', c, list)
    ensures Settled(w', {}) <==> (c in w.tables ==> forall s :: OkToAdd(w, c, list, s))
  {
    if c in w.tables {
      if forall s :: OkToAdd(w, c, list, s) {
        forall s
          ensures w'.AgreesAt(s)
        {
          AddedAgreesAt(w, w', c, list, s);
        }
        AgreesSettled(w, w');
      } else {
        var s :| !OkToAdd(w, c, list, s);
        AddedWrong(w, w', c, list, s);
        UnderNothing(w', c);
        if Settled(w', {}) {
          SettledAt(w', c, s);
        }
      }
    } else {
      forall s
        ensures w'.AgreesAt(s)
      {
        forall d | d in w'.tables
          ensures w'.Entry(d, s) == w'.Resolve(d, s)
        {
          SettledAt(w, d, s);
          if w.Under({c}, d) {
            NoTableNoneBelow(w, {}, c, d);
          }
          SameResolve(w, w', c, list, d, s);
        }
      }
      AgreesSettled(w, w');
    }
  }

  /**
   A selector with an index from 0xFF00 on cannot be added to a class that has a table: the
   table stays as it is, and the slow lookup finds the new method.
   */
  lemma HighSelectorLost(w: World, w': World, c: Class, m: Method)
    requires Settled(w, {}) && AddStep(w, w', c, [m]) && c in w.tables && m.selector >= 0xFF00
    ensures w'.Entry(c, m.selector) == w.Entry(c, m.selector) && w'.Resolve(c, m.selector) == Some(m)
    ensures w'.Entry(c, m.selector) != Some(m) && !w'.AgreesAt(m.selector)
  {
    var s := m.selector;
    assert Last([m], s) == Some(m) == Find([m], s, None);
    OwnAdded(w, w', c, [m], c, s);
    AddedWrong(w, w', c, [m], s);
  }

  /** There is such a case: a root class with its metaclass, tables of 16 bits, and the selector 0xFF10. */
  lemma HighSelectorExample() returns (w: World, w': World, c: Class, m: Method)
    ensures Settled(w, {}) && w.depth == 16 && c in w.tables && m.selector == 0xFF10
    ensures AddStep(w, w', c, [m]) && w'.Entry(c, m.selector).None? && w'.Resolve(c, m.selector) == Some(m)
  {
    var meta := Class("Root", true);
    c, m := Class("Root", false), Method(0, 0xFF10, 0);
    w := World({c, meta}, map[c := None, meta := Some(c)], map[c := [meta], meta := []], map[c := [], meta := []],
               map[c := map[], meta := map[]], 16, 0, map[c := 0, meta := 1]);
    ExampleSound(w, c, meta);
    w' := w.(methods := w.methods[c := [[m]] + w.methods[c]]);
    ExampleSound(w', c, meta);
    ExampleAdded(w, w', c, meta, m);
    HighSelectorLost(w, w', c, m);
  }

  lemma ExampleAdded(w: World, w': World, c: Class, meta: Class, m: Method)
    requires w.classes == {c, meta} && w.methods == map[c := [], meta := []] && w.depth == 16 && m.selector == 0xFF10
    requires w.Sound() && w'.Sound() && w' == w.(methods := w.methods[c := [[m]] + w.methods[c]])
    ensures AddStep(w, w', c, [m])
  {
    forall s | s != m.selector
      ensures Last([m], s).None?
    {
      assert [m][..0] == [];
    }
    assert w'.tables == w.tables;
  }

  lemma ExampleSound(w: World, c: Class, meta: Class)
    requires c != meta && w.classes == {c, meta} && w.sup == map[c := None, meta := Some(c)]
    requires w.subs == map[c := [meta], meta := []] && w.rank == map[c := 0, meta := 1] && w.depth == 16
    requires w.methods.Keys == {c, meta} && w.methods[meta] == []
    requires w.tables == map[c := map[], meta := map[]]
    ensures w.Sound() && (w.methods[c] == [] ==> Settled(w, {}))
  {
    assert Flat(w.methods[meta]) == [];
    if w.methods[c] == [] {
      assert forall d, s :: w.Entry(d, s).None?;
      assert forall d, s {:trigger w.Own(d, s)} :: d in w.classes ==> w.Own(d, s).None?;
      ExampleSettled(w, c, meta);
    }
  }

  lemma ExampleSettled(w: World, c: Class, meta: Class)
    requires w.Sound() && w.classes == w.tables.Keys == {c, meta} && w.sup == map[c := None, meta := Some(c)]
    requires (forall d, s :: w.Entry(d, s).None?) && forall d, s :: d in w.classes ==> w.Own(d, s).None?
    ensures Settled(w, {})
  {
    hide World.Sound, World.Own;
    assert Above(w, c) && Above(w, meta);
  }

  lemma AgreesSettled(w: World, w': World)
    requires Settled(w, {}) && w'.Sound() && w'.Agrees() && w'.tables.Keys == w.tables.Keys && w'.sup == w.sup
    ensures Settled(w', {})
  {
    forall d | d in w'.tables
      ensures Above(w', d) && FollowsParent(w', d) && OwnRight(w', d)
    {
      assert Above(w, d);
      forall p | w'.IsSup(d, p)
        ensures p in w'.tables
      {
        assert w.IsSup(d, p);
      }
      if w'.sup[d].Some? {
        assert w'.IsSup(d, w'.sup[d].value);
      }
      forall s
        ensures w'.Entry(d, s) == w'.Resolve(d, s)
        ensures w'.Own(d, s).None? ==> w'.Entry(d, s) == ParentEntry(w', d, s)
      {
        assert w'.AgreesAt(s);
        assert w'.sup[d].Some? ==> w'.Entry(w'.sup[d].value, s) == w'.Resolve(w'.sup[d].value, s);
      }
    }
  }

  // ----- creating a table -----

  /** The new table starts as a copy of the superclass's. */
  ghost function Copied(w: World, c: Class): World
    requires w.Sound() && c in w.classes
  {
    var p := w.sup[c];
    w.(tables := w.tables[c := if p.Some? && p.value in w.tables then w.tables[p.value] else map[]])
  }

  /** The entries after the methods `ms` of `c` have been installed; `w1` is the world with the copied table. */
  ghost function CreatedEntry(w1: World, c: Class, ms: seq<Method>, d: Class, s: nat): Option<Method>
    requires w1.Sound()
  {
    var r := w1.Entry(c, s);
    if Find(ms, s, r).Some? && Affected(w1, c, s, r, d) then Find(ms, s, r) else w1.Entry(d, s)
  }

  ghost predicate CreateStep(w: World, w': World, c: Class) {
    && w.Sound() && w'.Sound() && c in w.classes && c !in w.tables && Copied(w, c).Sound()
    && SameShape(Copied(w, c), w')
    && (forall d, s {:trigger w'.Entry(d, s)} :: d in w'.tables ==>
          w'.Entry(d, s) == CreatedEntry(Copied(w, c), c, Flat(w.methods[c]), d, s))
  }

  /** No method of the class shares its implementation with the method that it overrides. */
  ghost predicate OkToCreate(w: World, c: Class)
    requires w.Sound() && c in w.classes
  {
    forall s {:trigger w.Own(c, s)} :: w.Own(c, s).Some? && w.Inherited(c, s).Some? ==>
      w.Own(c, s).value.imp != w.Inherited(c, s).value.imp
  }

  lemma CopiedSound(w: World, c: Class)
    requires w.Sound() && c in w.classes
    ensures Copied(w, c).Sound()
  {
    var w1 := Copied(w, c);
    forall d, p | w1.IsSup(d, p)
      ensures p in w1.classes && w1.rank[p] < w1.rank[d]
    {
      assert w.IsSup(d, p);
    }
    forall e, d | e in w1.classes
      ensures d in w1.subs[e] <==> w1.IsSup(d, e)
    {
      assert w.IsSup(d, e) == w1.IsSup(d, e);
    }
  }

  lemma {:induction false} FindFirst(ms: seq<Method>, s: nat, avoid: Option<Method>)
    requires Find(ms, s, None).Some? && avoid.Some? && Find(ms, s, None).value.imp != avoid.value.imp
    ensures Find(ms, s, avoid) == Find(ms, s, None)
  {
    if !(ms[0].selector == s) {
      FindFirst(ms[1..], s, avoid);
    }
  }

  lemma {:induction false} FindLess(ms: seq<Method>, s: nat, avoid: Option<Method>)
    requires Find(ms, s, avoid).Some?
    ensures Find(ms, s, None).Some?
  {
    if !(ms[0].selector == s) {
      FindLess(ms[1..], s, avoid);
    }
  }

  lemma {:induction false} FindAvoids(ms: seq<Method>, s: nat, avoid: Option<Method>)
    ensures avoid.Some? && Find(ms, s, avoid).Some? ==> Find(ms, s, avoid).value.imp != avoid.value.imp
  {
    if ms != [] {
      FindAvoids(ms[1..], s, avoid);
    }
  }

  /** The new table holds the right method for a selector just if the implementations differ. */
  lemma CreatedAt(w: World, w': World, x: set<Class>, c: Class, s: nat)
    requires Settled(w, x) && CreateStep(w, w', c) && !w.Under(x, c) && Above(w, c)
    ensures w'.Entry(c, s) == w.Resolve(c, s) <==>
      !(w.Own(c, s).Some? && w.Inherited(c, s).Some? && w.Own(c, s).value.imp == w.Inherited(c, s).value.imp)
  {
    var w1, ms, r := Copied(w, c), Flat(w.methods[c]), w.Inherited(c, s);
    ParentAgrees(w, x, c, s);
    if w.sup[c].Some? {
      assert w.IsSup(c, w.sup[c].value);
    }
    assert w1.Entry(c, s) == r;
    assert Affected(w1, c, s, r, c);
    InheritedIsForeign(w, c, c, s);
    FindSound(ms, s, None);
    FindAvoids(ms, s, r);
    if w.Own(c, s).None? {
      if Find(ms, s, r).Some? {
        FindLess(ms, s, r);
      }
    } else if r.Some? && w.Own(c, s).value.imp != r.value.imp {
      FindFirst(ms, s, r);
    }
  }

  lemma {:induction false} ResolveFrame(w: World, w': World, d: Class, s: nat)
    requires w.Sound() && w'.Sound() && d in w.classes
    requires w'.classes == w.classes && w'.sup == w.sup && w'.methods == w.methods && w'.rank == w.rank
    ensures w'.Resolve(d, s) == w.Resolve(d, s) && w'.Own(d, s) == w.Own(d, s)
    ensures w'.Inherited(d, s) == w.Inherited(d, s)
    decreases w.rank[d]
  {
    if w.sup[d].Some? {
      assert w.IsSup(d, w.sup[d].value) && w'.IsSup(d, w.sup[d].value);
      ResolveFrame(w, w', w.sup[d].value, s);
    }
  }

  lemma {:induction false} UnderFrame(w: World, w': World, x: set<Class>, d: Class)
    requires w.Sound() && w'.Sound() && w'.classes == w.classes && w'.sup == w.sup && w'.rank == w.rank
    ensures w'.Under(x, d) == w.Under(x, d)
    decreases if d in w.rank then w.rank[d] else 0
  {
    if d in w.classes && w.sup[d].Some? {
      assert w.IsSup(d, w.sup[d].value) && w'.IsSup(d, w.sup[d].value);
      UnderFrame(w, w', x, w.sup[d].value);
    }
  }

  /** Classes other than `c` keep their entries, unless they are below `c`, and then they keep their own methods. */
  lemma CreatedElsewhere(w: World, w': World, x: set<Class>, c: Class, d: Class, s: nat)
    requires Settled(w, x) && CreateStep(w, w', c) && !w.Under(x, c) && Above(w, c) && d in w.tables
    ensures w'.Entry(d, s) == w.Entry(d, s) || (w.Under(x, d) && w.Own(d, s).None?)
  {
    var w1, r := Copied(w, c), w.Inherited(c, s);
    assert w1.Entry(d, s) == w.Entry(d, s);
    ParentAgrees(w, x, c, s);
    if w.sup[c].Some? {
      assert w.IsSup(c, w.sup[c].value);
    }
    assert w1.Entry(c, s) == r;
    if Affected(w1, c, s, r, d) {
      AffectedIsUnder(w1, c, s, r, d);
      UnderFrame(w, w1, {c}, d);
      NoTableNoneBelow(w, x, c, d);
      UnderRank(w, c, d);
      InheritedIsForeign(w, c, d, s);
      FindSound(Flat(w.methods[d]), s, None);
      assert OwnRight(w, d);
    }
  }

  /** Creating a table keeps everything settled just if no implementation is shared with an overridden method. */
  lemma CreatedSettled(w: World, w': World, x: set<Class>, c: Class)
    requires Settled(w, x) && CreateStep(w, w', c) && !w.Under(x, c) && Above(w, c)
    ensures Settled(w', x) <==> OkToCreate(w, c)
  {
    UnderFrame(w, w', x, c);
    forall s
      ensures w'.Resolve(c, s) == w.Resolve(c, s) && w'.Own(c, s) == w.Own(c, s)
      ensures w'.Entry(c, s) == w.Resolve(c, s) <==>
        !(w.Own(c, s).Some? && w.Inherited(c, s).Some? && w.Own(c, s).value.imp == w.Inherited(c, s).value.imp)
    {
      CreatedAt(w, w', x, c, s);
      ResolveFrame(w, w', c, s);
    }
    if OkToCreate(w, c) {
      forall d | d in w'.tables
        ensures d !in x ==> Above(w', d) && FollowsParent(w', d)
        ensures OwnRight(w', d)
      {
        if d != c {
          CreatedOther(w, w', x, c, d);
        } else {
          CreatedFollows(w, w', x, c);
        }
        CreatedAbove(w, w', x, c, d);
      }
    } else {
      var s :| w.Own(c, s).Some? && w.Inherited(c, s).Some? && w.Own(c, s).value.imp == w.Inherited(c, s).value.imp;
      assert w'.Entry(c, s) != w'.Own(c, s);
      assert !OwnRight(w', c);
    }
  }

  lemma CreatedAbove(w: World, w': World, x: set<Class>, c: Class, d: Class)
    requires Settled(w, x) && CreateStep(w, w', c) && Above(w, c) && d in w'.tables
    ensures d !in x ==> Above(w', d)
  {
    if d !in x {
      assert Above(w, d);
      forall p | w'.IsSup(d, p)
        ensures p in w'.tables
      {
        assert w.IsSup(d, p);
      }
    }
  }

  /** The new table itself. */
  lemma CreatedFollows(w: World, w': World, x: set<Class>, c: Class)
    requires Settled(w, x) && CreateStep(w, w', c) && !w.Under(x, c) && Above(w, c) && OkToCreate(w, c)
    ensures FollowsParent(w', c) && OwnRight(w', c)
  {
    forall s
      ensures w'.Own(c, s) == w.Own(c, s) && w'.Entry(c, s) == w.Resolve(c, s)
      ensures w.Own(c, s).None? ==> w'.Entry(c, s) == ParentEntry(w', c, s)
    {
      CreatedAt(w, w', x, c, s);
      ResolveFrame(w, w', c, s);
      ParentAgrees(w, x, c, s);
      if w.sup[c].Some? {
        assert w.IsSup(c, w.sup[c].value);
        CreatedElsewhere(w, w', x, c, w.sup[c].value, s);
      }
    }
  }

  lemma CreatedOther(w: World, w': World, x: set<Class>, c: Class, d: Class)
    requires Settled(w, x) && CreateStep(w, w', c) && !w.Under(x, c) && Above(w, c) && d in w.tables
    ensures OwnRight(w', d) && (d !in x ==> FollowsParent(w', d))
  {
    assert OwnRight(w, d);
    assert d !in x ==> FollowsParent(w, d) && Above(w, d);
    forall s
      ensures w'.Own(d, s).Some? ==> w'.Entry(d, s) == w'.Own(d, s)
      ensures d !in x && w'.Own(d, s).None? ==> w'.Entry(d, s) == ParentEntry(w', d, s)
    {
      CreatedElsewhere(w, w', x, c, d, s);
      ResolveFrame(w, w', d, s);
      assert w.Entry(d, s) == w.Entry(d, s);
      if d !in x && w.Own(d, s).None? {
        CreatedBelow(w, w', c, d, s);
      }
    }
  }

  /** A table that follows its superclass's goes on to do so. */
  lemma CreatedBelow(w: World, w': World, c: Class, d: Class, s: nat)
    requires CreateStep(w, w', c) && d in w.tables && Above(w, d) && w.Entry(d, s) == ParentEntry(w, d, s)
    ensures w'.Entry(d, s) == ParentEntry(w', d, s)
  {
    var w1 := Copied(w, c);
    assert w1.Entry(d, s) == w.Entry(d, s);
    if w.sup[d].Some? {
      var p := w.sup[d].value;
      assert w.IsSup(d, p) && w1.IsSup(d, p);
      assert w1.Entry(p, s) == w.Entry(p, s);
      assert Affected(w1, c, s, w1.Entry(c, s), d) == Affected(w1, c, s, w1.Entry(c, s), p);
    }
  }

  /** How the creation of its superclass's table reaches the table of a class of `x`. */
  lemma CreatedPassesDown(w: World, w': World, x: set<Class>, c: Class, d: Class, f: Class, s: nat)
    requires Settled(w, x) && CreateStep(w, w', c) && !w.Under(x, c) && Above(w, c) && OkToCreate(w, c)
    requires d in w.tables && w.IsSup(d, f) && !w.Under(x, f)
    ensures w'.Entry(d, s) ==
      if f == c && w.Own(c, s).Some? && w.Entry(d, s) == w.Inherited(c, s) then w.Own(c, s) else w.Entry(d, s)
  {
    var w1, ms, r := Copied(w, c), Flat(w.methods[c]), w.Inherited(c, s);
    ParentAgrees(w, x, c, s);
    if w.sup[c].Some? {
      assert w.IsSup(c, w.sup[c].value);
    }
    assert w1.Entry(c, s) == r && w1.Entry(d, s) == w.Entry(d, s);
    assert Affected(w1, c, s, r, c);
    if f == c {
      if w.Own(c, s).Some? && r.Some? {
        FindFirst(ms, s, r);
      } else if Find(ms, s, r).Some? {
        FindLess(ms, s, r);
      }
    } else if Affected(w1, c, s, r, d) {
      AffectedIsUnder(w1, c, s, r, f);
      UnderFrame(w, w1, {c}, f);
      NoTableNoneBelow(w, x, c, f);
      assert false;
    }
  }

  // ----- another superclass -----

  /** `c` has been moved below `p`, with its metaclass `m` below `q`; no table has changed. */
  ghost predicate Relinked(w: World, w': World, c: Class, p: Class, m: Class, q: Class) {
    && w.Sound() && w'.Sound() && w'.classes == w.classes && w'.methods == w.methods && w'.tables == w.tables
    && w'.sup == w.sup[c := Some(p)][m := Some(q)] && c in w.classes && m in w.classes && w'.depth == w.depth
  }

  lemma {:induction false} RelinkedSame(w: World, w': World, c: Class, p: Class, m: Class, q: Class, d: Class, s: nat)
    requires Relinked(w, w', c, p, m, q) && d in w.classes && !w'.Under({c, m}, d)
    ensures w'.Resolve(d, s) == w.Resolve(d, s) && w'.Own(d, s) == w.Own(d, s)
    ensures w'.Inherited(d, s) == w.Inherited(d, s)
    decreases w'.rank[d]
  {
    assert d != c && d != m && w'.sup[d] == w.sup[d];
    if w.sup[d].Some? {
      assert w.IsSup(d, w.sup[d].value) && w'.IsSup(d, w.sup[d].value);
      RelinkedSame(w, w', c, p, m, q, w.sup[d].value, s);
    }
  }

  lemma RelinkedOwn(w: World, w': World, d: Class, s: nat)
    requires w.Sound() && w'.Sound() && w'.methods == w.methods && d in w.classes && d in w'.classes
    ensures w'.Own(d, s) == w.Own(d, s)
  {
  }

  /** What is not below the moved classes is as right as before. */
  lemma RelinkedSettled(w: World, w': World, c: Class, p: Class, m: Class, q: Class)
    requires Settled(w, {}) && Relinked(w, w', c, p, m, q)
    ensures Settled(w', {c, m})
  {
    forall d | d in w'.tables
      ensures d !in {c, m} ==> Above(w', d) && FollowsParent(w', d)
      ensures OwnRight(w', d)
    {
      assert Above(w, d) && FollowsParent(w, d) && OwnRight(w, d);
      if d !in {c, m} {
        forall e | w'.IsSup(d, e)
          ensures e in w'.tables
        {
          assert w.IsSup(d, e);
        }
      }
      forall s
        ensures d !in {c, m} && w'.Own(d, s).None? ==> w'.Entry(d, s) == ParentEntry(w', d, s)
        ensures w'.Own(d, s).Some? ==> w'.Entry(d, s) == w'.Own(d, s)
      {
        assert w'.Entry(d, s) == w.Entry(d, s);
        assert w.sup[d].Some? ==> w'.Entry(w.sup[d].value, s) == w.Entry(w.sup[d].value, s);
        RelinkedOwn(w, w', d, s);
      }
    }
  }

  /**
   The tables at and below `c` have been rebuilt from the table of the superclass of `c`,
   as far as the enumeration goes.
   */
  ghost predicate RebaseStep(w: World, w': World, c: Class) {
    && w.Sound() && w'.Sound() && SameShape(w, w') && c in w.tables
    && (forall d, s {:trigger w'.Entry(d, s)} :: d in w.tables ==>
          w'.Entry(d, s) ==
            if !w.Under({c}, d) || w.Own(d, s).Some? || !w.Scanned(s) then w.Entry(d, s) else ParentEntry(w', d, s))
  }

  /** For selectors that the enumeration does not come to, the table already holds what it is to inherit. */
  ghost predicate Carried(w: World, c: Class)
    requires w.Sound() && c in w.classes
  {
    forall s {:trigger w.Entry(c, s)} :: !w.Scanned(s) && w.Own(c, s).None? ==> w.Entry(c, s) == ParentEntry(w, c, s)
  }

  /** No class of `x` is below `c`. */
  ghost predicate Aside(w: World, x: set<Class>, c: Class)
    requires w.Sound()
  {
    forall e :: e in x ==> !w.Under({c}, e)
  }

  lemma {:induction false} UnderUnion(w: World, c: Class, x: set<Class>, d: Class)
    requires w.Sound()
    ensures w.Under({c} + x, d) <==> w.Under({c}, d) || w.Under(x, d)
    decreases if d in w.rank then w.rank[d] else 0
  {
    if d in w.classes && w.sup[d].Some? {
      assert w.IsSup(d, w.sup[d].value);
      UnderUnion(w, c, x, w.sup[d].value);
    }
  }

  /**
   Rebuilding the tables at and below `c` settles them if and only if nothing that the
   enumeration does not come to had to change.
   */
  lemma RebasedSettled(w: World, w': World, x: set<Class>, c: Class)
    requires Settled(w, {c} + x) && RebaseStep(w, w', c) && Above(w, c) && Aside(w, x, c)
    ensures Settled(w', x) <==> Carried(w, c)
  {
    forall d | d in w'.tables
      ensures d !in x ==> Above(w', d)
      ensures OwnRight(w', d)
      ensures d !in x && (d != c || Carried(w, c)) ==> FollowsParent(w', d)
    {
      RebasedTable(w, w', x, c, d);
    }
    if !Carried(w, c) {
      var s :| !w.Scanned(s) && w.Own(c, s).None? && w.Entry(c, s) != ParentEntry(w, c, s);
      RebasedParent(w, w', c, c, s);
      assert w'.Entry(c, s) == w.Entry(c, s) && w'.Own(c, s) == w.Own(c, s);
      assert !FollowsParent(w', c);
    }
  }

  lemma RebasedTable(w: World, w': World, x: set<Class>, c: Class, d: Class)
    requires Settled(w, {c} + x) && RebaseStep(w, w', c) && Above(w, c) && d in w.tables
    ensures d !in x ==> Above(w', d)
    ensures OwnRight(w', d)
    ensures d !in x && (d != c || Carried(w, c)) ==> FollowsParent(w', d)
  {
    if d !in x {
      assert Above(w, d);
      forall p | w'.IsSup(d, p)
        ensures p in w'.tables
      {
        assert w.IsSup(d, p);
      }
    }
    assert OwnRight(w, d);
    assert d !in {c} + x ==> FollowsParent(w, d);
    forall s
      ensures w'.Own(d, s).Some? ==> w'.Entry(d, s) == w'.Own(d, s)
      ensures d !in x && (d != c || Carried(w, c)) && w'.Own(d, s).None? ==> w'.Entry(d, s) == ParentEntry(w', d, s)
    {
      assert w'.Own(d, s) == w.Own(d, s) && w.Entry(d, s) == w.Entry(d, s);
      if !w.Scanned(s) || !w.Under({c}, d) {
        RebasedParent(w, w', c, d, s);
      }
    }
  }

  /** The table of the superclass has not changed, if the enumeration does not come to `s` or `d` is not below `c`. */
  lemma RebasedParent(w: World, w': World, c: Class, d: Class, s: nat)
    requires RebaseStep(w, w', c) && d in w.tables && (!w.Scanned(s) || !w.Under({c}, d))
    ensures ParentEntry(w', d, s) == ParentEntry(w, d, s)
  {
    if w.sup[d].Some? {
      var p := w.sup[d].value;
      assert w.IsSup(d, p);
      assert p in w.tables ==> w'.Entry(p, s) == w.Entry(p, s);
    }
  }

  // ----- caches -----

  /** As long as the version is the same, what was found in a table can be relied on. */
  ghost predicate Coherent(w: World, w': World) {
    && w.version <= w'.version
    && (w'.version == w.version ==>
          forall c, s {:trigger w.Entry(c, s)} :: w.Entry(c, s).Some? ==> w'.Entry(c, s) == w.Entry(c, s))
  }

  lemma CoherentTransitive(w: World, w1: World, w2: World)
    requires Coherent(w, w1) && Coherent(w1, w2)
    ensures Coherent(w, w2)
  {
    if w2.version == w.version {
      forall c, s | w.Entry(c, s).Some?
        ensures w2.Entry(c, s) == w.Entry(c, s)
      {
        assert w1.Entry(c, s) == w.Entry(c, s);
      }
    }
  }
}
