/**
 Small programs whose tables do not agree with the slow lookup.
 */
module DispatchExamples {
  import opened Wrappers
  import opened DispatchModel
  import opened DispatchAgreement
  import opened DispatchTables

  const ROOT := Class("Root", false)
  const SUB := Class("Sub", false)

  /** A root class and a subclass, without their metaclasses, that have these methods. */
  ghost predicate TwoClasses(w: World, root: seq<Method>, sub: seq<Method>) {
    && w.classes == {ROOT, SUB} && w.sup == map[ROOT := None, SUB := Some(ROOT)]
    && w.subs == map[ROOT := [SUB], SUB := []] && w.rank == map[ROOT := 0, SUB := 1]
    && w.methods == map[ROOT := [root], SUB := [sub]] && w.depth == 8
  }

  lemma OneList(ms: seq<Method>)
    ensures Flat([ms]) == ms
  {
    assert ms + Flat([]) == ms;
  }

  lemma TwoSound(w: World, root: seq<Method>, sub: seq<Method>)
    requires TwoClasses(w, root, sub) && w.tables.Keys <= w.classes && forall m :: m in root ==> m !in sub
    ensures w.Sound() && forall s :: w.Own(ROOT, s) == Find(root, s, None) && w.Own(SUB, s) == Find(sub, s, None)
  {
    OneList(root);
    OneList(sub);
  }

  lemma RootCreated(w: World, w': World, root: seq<Method>, sub: seq<Method>, s: nat)
    requires TwoClasses(w, root, sub) && (forall m :: m in root ==> m !in sub)
    requires w.tables == map[] && CreateStep(w, w', ROOT)
    ensures TwoClasses(w', root, sub) && w'.tables.Keys == {ROOT} && w'.Entry(ROOT, s) == Find(root, s, None)
  {
    OneList(root);
    var w1 := Copied(w, ROOT);
    assert w1.Entry(ROOT, s).None? && Affected(w1, ROOT, s, None, ROOT);
  }

  lemma SubCreated(w: World, w': World, root: seq<Method>, sub: seq<Method>, s: nat)
    requires TwoClasses(w, root, sub) && (forall m :: m in root ==> m !in sub)
    requires w.tables.Keys == {ROOT} && CreateStep(w, w', SUB)
    ensures TwoClasses(w', root, sub) && w'.tables.Keys == {ROOT, SUB}
    ensures w'.Entry(SUB, s) ==
      if Find(sub, s, w.Entry(ROOT, s)).Some? then Find(sub, s, w.Entry(ROOT, s)) else w.Entry(ROOT, s)
  {
    OneList(sub);
    var w1 := Copied(w, SUB);
    assert w1.Entry(SUB, s) == w.Entry(ROOT, s) && Affected(w1, SUB, s, w1.Entry(SUB, s), SUB);
  }

  /** A subclass overrides a method with the same implementation: its table keeps the inherited method. */
  method SharedImplementation() returns (d: Dispatch, c: Class, inherited: Method, own: Method)
    ensures d.Now().Sound() && c in d.classes && inherited != own && own in Flat(d.methods[c])
    ensures d.Now().Entry(c, 1) == Some(inherited) && d.Now().Resolve(c, 1) == Some(own)
  {
    hide CreateStep, World.Sound, Coherent, Flat;
    c, inherited, own := SUB, Method(0, 1, 0), Method(1, 1, 0);
    d := new Dispatch({ROOT, SUB}, map[ROOT := None, SUB := Some(ROOT)], map[ROOT := [SUB], SUB := []],
                      map[ROOT := [[inherited]], SUB := [[own]]], map[ROOT := 0, SUB := 1]);
    ghost var w := d.Now();
    TwoSound(w, [inherited], [own]);
    d.CreateDtable(ROOT);
    ghost var w1 := d.Now();
    RootCreated(w, w1, [inherited], [own], 1);
    TwoSound(w1, [inherited], [own]);
    d.CreateDtable(SUB);
    SubCreated(w1, d.Now(), [inherited], [own], 1);
    TwoSound(d.Now(), [inherited], [own]);
    OneList([own]);
  }

  /** Two methods for one selector are added in one list: the table gets the second, the slow lookup finds the first. */
  method TwoForOneSelector() returns (d: Dispatch, c: Class, first: Method, second: Method)
    ensures d.Now().Sound() && c in d.classes && first != second
    ensures d.Now().Entry(c, 1) == Some(second) && d.Now().Resolve(c, 1) == Some(first)
  {
    hide CreateStep, World.Sound, Coherent, Flat, AddStep;
    c, first, second := ROOT, Method(0, 1, 0), Method(1, 1, 1);
    d := new Dispatch({ROOT, SUB}, map[ROOT := None, SUB := Some(ROOT)], map[ROOT := [SUB], SUB := []],
                      map[ROOT := [[]], SUB := [[]]], map[ROOT := 0, SUB := 1]);
    ghost var w := d.Now();
    TwoSound(w, [], []);
    d.CreateDtable(ROOT);
    ghost var w1 := d.Now();
    RootCreated(w, w1, [], [], 1);
    TwoSound(w1, [], []);
    NoneDefined(w1, [first, second]);
    d.AddMethodList(ROOT, [first, second]);
    LastWins(w1, d.Now(), first, second);
  }

  lemma NoneDefined(w: World, list: seq<Method>)
    requires TwoClasses(w, [], [])
    ensures Fresh(w, list)
  {
    OneList([]);
  }

  lemma LastWins(w: World, w': World, first: Method, second: Method)
    requires TwoClasses(w, [], []) && w.tables.Keys == {ROOT} && w.Entry(ROOT, 1).None?
    requires AddStep(w, w', ROOT, [first, second]) && first.selector == second.selector == 1
    ensures w'.Entry(ROOT, 1) == Some(second) && w'.Resolve(ROOT, 1) == Some(first)
  {
    TwoSound(w, [], []);
    var list := [first, second];
    assert Last(list, 1) == Some(second) && Find(list, 1, None) == Some(first);
    assert ParentEntry(w, ROOT, 1).None? && Affected(w, ROOT, 1, None, ROOT);
    OwnAdded(w, w', ROOT, list, ROOT, 1);
  }
}
