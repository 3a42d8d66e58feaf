/**
 The class structure and the pure reasoning about the links between classes.

 Two fields are used twice: in a class that is not resolved yet, `subclassList` and
 `sibling` are the forward and backward links of the list of unresolved classes; in a
 resolved class they are the head of its list of subclasses and the link to its next
 sibling.
 */
module ClassGraph {
  import opened Wrappers

  class ObjcClass {
    const name: string
    const isMeta: bool
    /** The superclass of a legacy class is given by name until the class is resolved. */
    const superName: Option<string>
    var isa: ObjcClass?
    var superClass: ObjcClass?
    var subclassList: ObjcClass?
    var sibling: ObjcClass?
    var resolved: bool

    constructor (name: string, isMeta: bool, superName: Option<string>, isa: ObjcClass?, superClass: ObjcClass?)
      ensures this.name == name && this.isMeta == isMeta && this.superName == superName
      ensures this.isa == isa && this.superClass == superClass
      ensures subclassList == null && sibling == null && !resolved
    {
      this.name, this.isMeta, this.superName := name, isMeta, superName;
      this.isa, this.superClass := isa, superClass;
      subclassList, sibling, resolved := null, null, false;
    }
  }

  /** One link field of all classes. */
  type Field = map<ObjcClass, ObjcClass?>

  ghost function Follow(f: Field, c: ObjcClass?): ObjcClass? {
    if c != null && c in f then f[c] else null
  }

  ghost function At(s: seq<ObjcClass>, i: int): ObjcClass? {
    if 0 <= i < |s| then s[i] else null
  }

  ghost predicate Distinct(s: seq<ObjcClass>) {
    forall i, j :: 0 <= i < j < |s| ==> s[i] != s[j]
  }

  lemma SamePlace(s: seq<ObjcClass>, i: nat, j: nat)
    requires Distinct(s) && i < |s| && j < |s|
    ensures s[i] == s[j] <==> i == j
  {
  }

  /**
   A snapshot of the links, with what they are meant to represent: `pending` is the list
   of unresolved classes, `tree` the classes that have been linked into the class tree and
   `kids` the list of subclasses of each class.
   */
  datatype Graph = Graph(classes: set<ObjcClass>, isa: Field, sup: Field, sub: Field, sib: Field,
                         resolved: set<ObjcClass>, head: ObjcClass?, table: map<string, ObjcClass>,
                         pending: seq<ObjcClass>, tree: set<ObjcClass>, kids: map<ObjcClass, seq<ObjcClass>>)
  {
    ghost function Isa(c: ObjcClass?): ObjcClass? { Follow(isa, c) }
    ghost function Sup(c: ObjcClass?): ObjcClass? { Follow(sup, c) }
    ghost function Sub(c: ObjcClass?): ObjcClass? { Follow(sub, c) }
    ghost function Sib(c: ObjcClass?): ObjcClass? { Follow(sib, c) }

    ghost predicate Complete() {
      isa.Keys == classes && sup.Keys == classes && sub.Keys == classes && sib.Keys == classes
      && kids.Keys == classes && tree <= classes && resolved <= classes
    }

    ghost predicate Waiting(c: ObjcClass) {
      c in classes && !c.isMeta && c !in tree
    }

    /** The unresolved list is a doubly linked list of exactly the unresolved classes, `limbo` aside. */
    ghost predicate PendingOk(limbo: ObjcClass?) {
      && Distinct(pending)
      && head == At(pending, 0)
      && (forall c :: c in pending ==> Waiting(c) && c != limbo)
      && (forall c :: c in classes && Waiting(c) && c != limbo ==> c in pending)
      && (forall i :: 0 <= i < |pending| ==> PendingAt(i))
    }

    ghost predicate PendingAt(i: nat)
      requires i < |pending|
    {
      Sub(pending[i]) == At(pending, i + 1) && Sib(pending[i]) == At(pending, i - 1)
    }

    ghost predicate ListsKids(c: ObjcClass)
      requires c in kids
    {
      && Sub(c) == At(kids[c], 0)
      && (forall i :: 0 <= i < |kids[c]| ==> KidAt(c, i))
    }

    ghost predicate KidAt(c: ObjcClass, i: nat)
      requires c in kids && i < |kids[c]|
    {
      Sib(kids[c][i]) == At(kids[c], i + 1)
    }

    /** `kids` lists the linked direct subclasses of each class, once each. */
    ghost predicate KidsOk() {
      && Complete()
      && (forall c, d :: c in classes && d in kids[c] ==> d in tree && Sup(d) == c)
      && (forall d {:trigger IsKid(d)} :: d in tree ==> IsKid(d))
      && (forall c :: c in classes ==> Distinct(kids[c]))
    }

    /** A linked class is listed by its superclass, which is linked too. */
    ghost predicate IsKid(d: ObjcClass)
      requires kids.Keys == classes && tree <= classes
    {
      Sup(d) != null ==> Sup(d) in tree && d in kids[Sup(d)]
    }

    ghost predicate ListsOk() {
      forall c :: c in tree ==> c in kids && ListsKids(c)
    }

    /** Following `subclassList` and `sibling` from a linked class visits exactly its kids, in order. */
    ghost predicate TreeOk() {
      KidsOk() && ListsOk()
    }

    /**
     A class is registered, is linked together with its metaclass, and its superclass is a
     class, which need not have been loaded before the class is linked.
     */
    ghost predicate Paired(c: ObjcClass) {
      if c.isMeta then c !in tree ==> Sub(c) == null
      else
        && Isa(c) != null && Isa(c) in classes && Isa(c).isMeta && (c in tree <==> Isa(c) in tree)
        && (Sup(c) != null ==> !Sup(c).isMeta && (c in tree ==> Sup(c) in classes))
        && c.name in table && table[c.name] == c
    }

    /** Classes and metaclasses come in pairs. */
    ghost predicate PairsOk() {
      && (forall c {:trigger Paired(c)} :: c in classes ==> Paired(c))
      && (forall c, d {:trigger Isa(c), Isa(d)} ::
            c in classes && d in classes && !c.isMeta && !d.isMeta && Isa(c) == Isa(d) ==> c == d)
      && (forall n :: n in table ==> table[n] in classes && !table[n].isMeta && table[n].name == n)
    }

    /** The metaclass of a linked class mirrors it. */
    ghost predicate MetaOk(c: ObjcClass) {
      && Sup(Isa(c)) == (if Sup(c) == null then c else Isa(Sup(c)))
      && Isa(Isa(c)) == (if Sup(c) == null then Isa(c) else Isa(Isa(Sup(c))))
    }

    ghost predicate MetasOk() {
      forall c {:trigger MetaOk(c)} :: c in tree && !c.isMeta ==> MetaOk(c)
    }

    ghost predicate Stable() {
      && PendingOk(null) && TreeOk() && PairsOk() && MetasOk()
      && resolved == tree
    }

    // ----- the steps of resolving a class -----
  }

  ghost function Without(s: seq<ObjcClass>, k: nat): seq<ObjcClass>
    requires k < |s|
  {
    s[..k] + s[k + 1..]
  }

  // ----- the steps, field by field -----

  ghost predicate SameClasses(g: Graph, g': Graph) {
    g'.classes == g.classes && g'.table == g.table && g.Complete() && g'.Complete()
  }

  /** `c` is taken out of the list of unresolved classes, where it was at place `k`. */
  ghost predicate UnlinkStep(g: Graph, g': Graph, c: ObjcClass, k: nat) {
    && SameClasses(g, g') && k < |g.pending| && g.pending[k] == c && c in g.classes
    && g'.isa == g.isa && g'.sup == g.sup && g'.resolved == g.resolved && g'.tree == g.tree && g'.kids == g.kids
    && g'.pending == Without(g.pending, k)
    && g'.head == (if g.Sib(c) == null then g.Sub(c) else g.head)
    && (forall x {:trigger g'.Sub(x)} :: x in g.classes ==>
          g'.Sub(x) == if x == c then null else if x == g.Sib(c) then g.Sub(c) else g.Sub(x))
    && (forall x {:trigger g'.Sib(x)} :: x in g.classes ==>
          g'.Sib(x) == if x == c then null else if x == g.Sub(c) then g.Sib(c) else g.Sib(x))
  }

  /** The superclass and the class of a metaclass are set. */
  ghost predicate MetaStep(g: Graph, g': Graph, meta: ObjcClass, sup: ObjcClass?, isa: ObjcClass?) {
    && SameClasses(g, g') && meta in g.classes
    && g'.sub == g.sub && g'.sib == g.sib && g'.resolved == g.resolved && g'.tree == g.tree && g'.kids == g.kids
    && g'.pending == g.pending && g'.head == g.head
    && (forall x {:trigger g'.Sup(x)} :: x in g.classes ==> g'.Sup(x) == if x == meta then sup else g.Sup(x))
    && (forall x {:trigger g'.Isa(x)} :: x in g.classes ==> g'.Isa(x) == if x == meta then isa else g.Isa(x))
  }

  /** A root class joins the tree without a parent. */
  ghost predicate RootStep(g: Graph, g': Graph, c: ObjcClass) {
    g.Complete() && c in g.classes && g' == g.(tree := g.tree + {c})
  }

  /** `c` becomes the first subclass of `parent`. */
  ghost predicate PrependStep(g: Graph, g': Graph, c: ObjcClass, parent: ObjcClass) {
    && SameClasses(g, g') && c in g.classes && parent in g.classes
    && g'.isa == g.isa && g'.sup == g.sup && g'.resolved == g.resolved
    && g'.pending == g.pending && g'.head == g.head
    && g'.tree == g.tree + {c} && g'.kids == g.kids[parent := [c] + g.kids[parent]]
    && (forall x {:trigger g'.Sub(x)} :: x in g.classes ==> g'.Sub(x) == if x == parent then c else g.Sub(x))
    && (forall x {:trigger g'.Sib(x)} :: x in g.classes ==> g'.Sib(x) == if x == c then g.Sub(parent) else g.Sib(x))
  }

  ghost predicate MarkStep(g: Graph, g': Graph, c: ObjcClass, meta: ObjcClass) {
    g.Complete() && g'.Complete() && g' == g.(resolved := g.resolved + {c, meta})
  }
}
