/**
 The operations on dispatch tables.  A table is the map that its sparse array stands for
 and the list of subclasses of a class is the sequence that its links stand for.
 */
module DispatchTables {
  import opened Wrappers
  import opened Arithmetic
  import opened DispatchModel
  import opened DispatchAgreement
  import opened DispatchRebase
  import opened DispatchSteps

  function Lookup(t: Table, s: nat): Option<Method> {
    if s in t then Some(t[s]) else None
  }

  class Dispatch {
    var classes: set<Class>
    var sup: map<Class, Option<Class>>
    var subs: map<Class, seq<Class>>
    var methods: map<Class, seq<seq<Method>>>
    /** The classes that have a table, installed or not. */
    var tables: map<Class, Table>
    /** `dtable_depth`: how many bits the indices of selectors may have. */
    var depth: nat
    /** `objc_method_cache_version` */
    var version: nat
    ghost var rank: map<Class, nat>

    ghost function Now(): World
      reads this
    {
      World(classes, sup, subs, methods, tables, depth, version, rank)
    }

    /** The classes as they have been loaded; none has been sent a message. */
    constructor (classes: set<Class>, sup: map<Class, Option<Class>>, subs: map<Class, seq<Class>>,
                 methods: map<Class, seq<seq<Method>>>, ghost rank: map<Class, nat>)
      ensures Now() == World(classes, sup, subs, methods, map[], 8, 0, rank)
    {
      this.classes, this.sup, this.subs, this.methods, this.rank := classes, sup, subs, methods, rank;
      tables, depth, version := map[], 8, 0;
    }

    /**
     Installs a method in the table of a class and passes it on to the subclasses that
     inherit what it takes the place of.
     */
    method InstallMethod(c: Class, m: Method, toReplace: Option<Method>, replaceExisting: bool) returns (ok: bool)
      requires Now().Sound() && c in tables
      modifies this`tables, this`version
      ensures Now().Sound() && SameShape(old(Now()), Now())
      ensures ok == Installs(old(Now()).Entry(c, m.selector), m, toReplace, replaceExisting)
      ensures tables == if ok then Installed(old(Now()), c, m, old(Now()).Entry(c, m.selector)) else old(tables)
      ensures version >= old(version)
      ensures ok && old(Now()).Entry(c, m.selector).Some? ==> version > old(version)
      ensures !ok || old(Now()).Entry(c, m.selector).None? ==> version == old(version)
      decreases From(Now(), c), 3
    {
      var oldMethod := Lookup(tables[c], m.selector);
      if replaceExisting && toReplace != oldMethod {
        return false;
      }
      if !replaceExisting && oldMethod.Some? {
        return false;
      }
      if oldMethod.Some? && oldMethod.value.imp == m.imp {
        return false;
      }
      InstallHere(c, m, oldMethod);
      return true;
    }

    /** Puts the method into the table of `c` and, in turn, of those below. */
    method InstallHere(c: Class, m: Method, oldMethod: Option<Method>)
      requires Now().Sound() && c in tables && oldMethod == Now().Entry(c, m.selector)
      requires Installs(oldMethod, m, oldMethod, true)
      modifies this`tables, this`version
      ensures Now().Sound() && SameShape(old(Now()), Now())
      ensures tables == Installed(old(Now()), c, m, oldMethod)
      ensures version >= old(version)
      ensures if oldMethod.Some? then version > old(version) else version == old(version)
      decreases From(Now(), c), 2
    {
      hide Installed, Affected, Partly;
      ghost var g := Now();
      tables := tables[c := Put(tables[c], m)];
      PartlyStart(g, c, m, oldMethod);
      SameShapeSound(g, Now());
      for i := 0 to |subs[c]|
        invariant Now().Sound() && SameShape(g, Now()) && tables == Partly(g, c, m, oldMethod, i)
        invariant version >= g.version && (oldMethod.None? ==> version == g.version)
      {
        PassOn(c, m, oldMethod, g, i);
      }
      PartlyEnd(g, c, m, oldMethod);
      if oldMethod.Some? {
        version := version + 1;
      }
      SameShapeSound(g, Now());
    }

    /** Passes the method on to the `i`-th subclass, if that has a table; `g` is where the installation began. */
    method PassOn(c: Class, m: Method, oldMethod: Option<Method>, ghost g: World, i: nat)
      requires Now().Sound() && g.Sound() && c in g.tables && oldMethod == g.Entry(c, m.selector)
      requires Installs(oldMethod, m, oldMethod, true) && SameShape(g, Now()) && i < |g.subs[c]|
      requires tables == Partly(g, c, m, oldMethod, i)
      modifies this`tables, this`version
      ensures Now().Sound() && SameShape(g, Now()) && tables == Partly(g, c, m, oldMethod, i + 1)
      ensures version >= old(version) && (oldMethod.None? ==> version == old(version))
      decreases From(g, c), 1
    {
      hide Partly;
      ghost var g1 := Now();
      PartlyStep(g, g1, c, m, oldMethod, i);
      ChildIsDeeper(g, g1, c, i);
      var subclass := subs[c][i];
      SelfAffected(g, subclass, m.selector, oldMethod);
      if subclass in tables {
        var passedOn := InstallMethod(subclass, m, oldMethod, true);
        SameShapeTransitive(g, g1, Now());
      }
    }

    /** One method of a new list takes the place of what the class inherits. */
    method InstallAdded(c: Class, m: Method, ghost g: World, ghost list: seq<Method>, ghost done: set<nat>)
      requires Now().Sound() && g.Sound() && c in tables && c in g.tables && g.methods == methods
      requires SameShape(g, Now()) && m.selector !in done && Last(list, m.selector) == Some(m) && Coherent(g, Now())
      requires g.Scanned(m.selector)
      requires AddedSome(g, Now(), c, list, done)
      modifies this`tables, this`version
      ensures Now().Sound() && SameShape(g, Now()) && Coherent(g, Now())
      ensures AddedSome(g, Now(), c, list, done + {m.selector})
    {
      hide World.Sound, Coherent, AddedSome, Installed, Affected, AddedEntry, SameShape;
      ghost var g1 := Now();
      ShapeMethods(g, g1);
      AddedBefore(g, g1, c, list, done, m.selector);
      var inherited := None;
      if sup[c].Some? && sup[c].value in tables {
        inherited := Lookup(tables[sup[c].value], m.selector);
      }
      ParentKept(g, g1, c, m.selector);
      var installed := InstallMethod(c, m, inherited, true);
      SameShapeTransitive(g, g1, Now());
      InstalledCoherent(g1, Now(), c, m, installed);
      CoherentTransitive(g, g1, Now());
      AddedOneMore(g, g1, Now(), c, m, list, done, inherited, installed);
    }

    /** Adds a list of methods, from a category, say, to a class. */
    method AddMethodList(c: Class, list: seq<Method>)
      requires Now().Sound() && c in classes && Fresh(Now(), list) && (c in tables ==> Now().Listable())
      modifies this`methods, this`tables, this`version
      ensures AddStep(old(Now()), Now(), c, list) && Coherent(old(Now()), Now())
    {
      ghost var g := Now();
      methods := methods[c := [list] + methods[c]];
      AddedSound(g, Now(), c, list);
      if c !in tables {
        return;
      }
      ghost var g0 := Now();
      InstallCollected(c, list);
      forall d, s | d in g.tables
        ensures Now().Entry(d, s) == AddedEntry(g, c, list, d, s)
      {
        AddedEntryFrame(g, g0, c, list, d, s);
      }
      assert Coherent(g, Now());
    }

    /** Installs the methods of a new list, in the order of their selectors. */
    method InstallCollected(c: Class, list: seq<Method>)
      requires Now().Sound() && Now().Listable() && c in tables
      modifies this`tables, this`version
      ensures Now().Sound() && SameShape(old(Now()), Now()) && Coherent(old(Now()), Now())
      ensures forall d, s {:trigger Now().Entry(d, s)} :: d in old(tables) ==>
        Now().Entry(d, s) == AddedEntry(old(Now()), c, list, d, s)
    {
      hide SameShape, Coherent, AddedEntry;
      var collected := CollectMethods(list);
      var todo := set k | k in collected && 0 < k < Limit(depth);
      ghost var all, g := todo, Now();
      ShapeSelf(g);
      while todo != {}
        invariant todo <= all && Now().Sound() && SameShape(g, Now()) && Coherent(g, Now()) && c in tables
        invariant AddedSome(g, Now(), c, list, all - todo)
        decreases todo
      {
        ghost var least := HasLeast(todo);
        var idx :| idx in todo && forall x :: x in todo ==> idx <= x;
        ghost var done := all - todo;
        assert Lookup(collected, idx) == Last(list, idx);
        LastSound(list, idx);
        ShapeMethods(g, Now());
        InstallAdded(c, collected[idx], g, list, done);
        ShapeMethods(g, Now());
        todo := todo - {idx};
        assert all - todo == done + {idx};
      }
      forall d, s | d in g.tables
        ensures Now().Entry(d, s) == AddedEntry(g, c, list, d, s)
      {
        assert Lookup(collected, s) == Last(list, s);
        AddedNothing(g, c, list, d, s);
      }
    }

    /** The methods of a list by selector; of two for the same selector the later one stays. */
    method CollectMethods(list: seq<Method>) returns (collected: Table)
      ensures forall s :: Lookup(collected, s) == Last(list, s)
    {
      collected := map[];
      for i := 0 to |list|
        invariant forall s :: Lookup(collected, s) == Last(list[..i], s)
      {
        assert list[..i + 1][..i] == list[..i];
        collected := Put(collected, list[i]);
      }
      assert list[..|list|] == list;
    }

    /** `class_addMethod`: refuses a selector that the class defines already. */
    method AddMethod(c: Class, m: Method) returns (ok: bool)
      requires Now().Sound() && c in classes && Fresh(Now(), [m]) && (c in tables ==> Now().Listable())
      modifies this`methods, this`tables, this`version
      ensures ok <==> old(Now()).Own(c, m.selector).None?
      ensures if ok then AddStep(old(Now()), Now(), c, [m]) else Now() == old(Now())
      ensures Coherent(old(Now()), Now())
      ensures Settled(old(Now()), {}) ==>
        (Settled(Now(), {}) <==>
          (ok && c in tables ==>
             && 0 < m.selector < Limit(depth)
             && (old(Now()).Inherited(c, m.selector).Some? ==> old(Now()).Inherited(c, m.selector).value.imp != m.imp)))
    {
      ghost var g := Now();
      for i := 0 to |methods[c]|
        invariant Now() == g && forall k :: 0 <= k < i ==> Find(methods[c][k], m.selector, None).None?
      {
        for j := 0 to |methods[c][i]|
          invariant Now() == g && forall k :: 0 <= k < j ==> methods[c][i][k].selector != m.selector
        {
          if methods[c][i][j].selector == m.selector {
            DefinedInList(methods[c][i], j, m.selector);
            DefinedInLists(methods[c], i, m.selector);
            return false;
          }
        }
        UndefinedInList(methods[c][i], m.selector);
      }
      UndefinedInLists(methods[c], m.selector);
      AddMethodList(c, [m]);
      if Settled(g, {}) {
        AddedSettled(g, Now(), c, [m]);
        OneMethodOk(g, c, m);
      }
      return true;
    }

    /** Gives a class a table that begins as a copy of the superclass's. */
    method CreateDtable(c: Class)
      requires Now().Sound() && c in classes && (sup[c].Some? ==> sup[c].value in tables)
      modifies this`tables, this`version
      ensures if c in old(tables) then Now() == old(Now()) else CreateStep(old(Now()), Now(), c)
      ensures Coherent(old(Now()), Now())
    {
      if c in tables {
        return;
      }
      ghost var g := Now();
      var parent: Table := map[];
      if sup[c].Some? {
        parent := tables[sup[c].value];
      }
      tables := tables[c := parent];
      ghost var g1 := Now();
      assert g1 == Copied(g, c);
      CopiedSound(g, c);
      InstallOwnLists(c, parent);
      assert Coherent(g, g1);
      CoherentTransitive(g, g1, Now());
    }

    /** Fills a new table, which holds what the superclass's holds, with the class's own methods. */
    method InstallOwnLists(c: Class, parent: Table)
      requires Now().Sound() && c in methods && c in tables && parent == tables[c]
      modifies this`tables, this`version
      ensures Now().Sound() && SameShape(old(Now()), Now()) && Coherent(old(Now()), Now())
      ensures Created(old(Now()), Now(), c, Flat(methods[c]))
    {
      hide World.Sound, SameShape, Coherent, Created;
      ghost var g1 := Now();
      InstalledNone(g1, c);
      ghost var ms := [];
      for i := 0 to |methods[c]|
        invariant Now().Sound() && SameShape(g1, Now()) && Coherent(g1, Now()) && ms == Flat(methods[c][..i])
        invariant Created(g1, Now(), c, ms) && c in tables
      {
        InstallList(c, methods[c][i], parent, g1, ms);
        ShapeTables(g1, Now());
        FlatMore(methods[c], i);
        ms := ms + methods[c][i];
      }
      assert methods[c][..|methods[c]|] == methods[c];
    }

    /** Installs one method list of the class itself in its new table. */
    method InstallList(c: Class, list: seq<Method>, parent: Table, ghost g1: World, ghost ms: seq<Method>)
      requires Now().Sound() && g1.Sound() && c in tables && c in g1.tables && parent == g1.tables[c]
      requires SameShape(g1, Now()) && Coherent(g1, Now()) && Created(g1, Now(), c, ms)
      modifies this`tables, this`version
      ensures Now().Sound() && SameShape(g1, Now()) && Coherent(g1, Now()) && Created(g1, Now(), c, ms + list)
    {
      hide World.Sound, SameShape, Coherent, Created;
      assert ms + list[..0] == ms;
      for j := 0 to |list|
        invariant Now().Sound() && SameShape(g1, Now()) && Coherent(g1, Now()) && c in tables
        invariant Created(g1, Now(), c, ms + list[..j])
      {
        InstallOwn(c, list[j], Lookup(parent, list[j].selector), g1, ms + list[..j]);
        assert ms + list[..j + 1] == ms + list[..j] + [list[j]];
        ShapeTables(g1, Now());
      }
      assert list[..|list|] == list;
    }

    /** One method of the class itself takes the place of what is inherited in the new table. */
    method InstallOwn(c: Class, m: Method, inherited: Option<Method>, ghost g1: World, ghost ms: seq<Method>)
      requires Now().Sound() && g1.Sound() && c in tables && inherited == g1.Entry(c, m.selector)
      requires SameShape(g1, Now()) && Coherent(g1, Now()) && Created(g1, Now(), c, ms)
      modifies this`tables, this`version
      ensures Now().Sound() && SameShape(g1, Now()) && Coherent(g1, Now()) && Created(g1, Now(), c, ms + [m])
    {
      ghost var g2 := Now();
      var installed := InstallMethod(c, m, inherited, true);
      InstalledCoherent(g2, Now(), c, m, installed);
      CoherentTransitive(g1, g2, Now());
      assert Affected(g1, c, m.selector, inherited, c);
      FindAvoids(ms, m.selector, inherited);
      forall d, s | d in g1.tables
        ensures Now().Entry(d, s) == CreatedEntry(g1, c, ms + [m], d, s)
      {
        InstalledEntry(g2, Now(), c, m, installed, d, s);
        FindAppend(ms, [m], s, g1.Entry(c, s));
        if s == m.selector && Find(ms, s, inherited).None? {
          AffectedFrame(g1, g2, c, s, inherited, d);
        }
      }
    }

    /**
     What sending the first message to a class does to tables: its superclasses come
     first, then the class itself, then its metaclass.  `x` holds the classes whose
     superclass has just been changed.
     */
    method Initialize(c: Class, ghost x: set<Class>)
      requires Fit(Now(), x) && Free(Now(), x)
      requires c in classes && !c.meta && !Now().Under(x, c) && !Now().Under(x, Isa(c))
      modifies this`tables, this`version
      ensures InitializeStep(old(Now()), Now(), c)
      ensures Fit(Now(), x) && Free(Now(), x) && c in tables && Isa(c) in tables && Kept(old(Now()), Now(), x)
      decreases rank[c]
    {
      hide Settled, Mirrored, Creatable, Kept, PairStep, World.Under;
      ghost var g := Now();
      FitFacts(g, x);
      InitializeFacts(g, x, c);
      PairedAt(g, c);
      if c in tables {
        KeptSelf(g, x);
        return;
      }
      if sup[c].Some? {
        Initialize(sup[c].value, x);
        KeptFacts(g, Now(), x);
      }
      InitializePair(c, x);
      InitializeKept(g, Now(), x, c);
    }

    /** The tables of a class and its metaclass, once the superclass has its tables. */
    method InitializePair(c: Class, ghost x: set<Class>)
      requires Fit(Now(), x) && Free(Now(), x)
      requires c in classes && !c.meta && !Now().Under(x, c) && !Now().Under(x, Isa(c))
      requires sup[c].Some? ==> sup[c].value in tables
      modifies this`tables, this`version
      ensures PairStep(old(Now()), Now(), c)
    {
      hide Settled, Mirrored, Creatable, Kept, CreateStep, World.Under;
      ghost var g := Now();
      if c in tables {
        return;
      }
      FitFacts(g, x);
      InitializeFacts(g, x, c);
      ClassAbove(g, c);
      CreateDtable(c);
      ghost var g1 := Now();
      assert TableStep(g, g1, c);
      TableKept(g, g1, x, c);
      KeptFacts(g, g1, x);
      MetaAbove(g, g1, c);
      AboveSup(g1, Isa(c));
      CreateDtable(Isa(c));
      assert TableStep(g1, Now(), Isa(c));
    }

    /** The methods of a class by selector, the first one of each. */
    method OwnMethods(c: Class) returns (own: Table)
      requires Now().Sound() && c in classes
      ensures forall s :: Lookup(own, s) == Now().Own(c, s)
    {
      own := map[];
      ghost var ms := [];
      for i := 0 to |methods[c]|
        invariant ms == Flat(methods[c][..i]) && forall s :: Lookup(own, s) == Find(ms, s, None)
      {
        ghost var before := ms;
        for j := 0 to |methods[c][i]|
          invariant ms == before + methods[c][i][..j] && forall s :: Lookup(own, s) == Find(ms, s, None)
        {
          var m := methods[c][i][j];
          ghost var shorter := ms;
          ms := ms + [m];
          assert methods[c][i][..j + 1] == methods[c][i][..j] + [m];
          if m.selector !in own {
            own := Put(own, m);
          }
          forall s
            ensures Lookup(own, s) == Find(ms, s, None)
          {
            FindAppend(shorter, [m], s, None);
          }
        }
        FlatMore(methods[c], i);
        assert methods[c][i][..|methods[c][i]|] == methods[c][i];
      }
      assert methods[c][..|methods[c]|] == methods[c];
    }

    /** Takes over what the superclass has for selectors that the class does not define. */
    method Merge(parent: Table, own: Table, was: Table) returns (table: Table, known: set<nat>)
      requires Now().Listable()
      ensures forall s: nat :: s in known <==> s in own || (s in parent && 0 < s < Limit(depth))
      ensures forall s: nat ::
        Lookup(table, s) ==
          if s !in own && s in parent && 0 < s < Limit(depth) then Lookup(parent, s) else Lookup(was, s)
    {
      table, known := was, own.Keys;
      var todo := set k | k in parent && 0 < k < Limit(depth);
      ghost var all := todo;
      while todo != {}
        invariant todo <= all && known == own.Keys + (all - todo)
        invariant forall s: nat ::
          Lookup(table, s) == if s !in own && s in all && s !in todo then Lookup(parent, s) else Lookup(was, s)
        decreases todo
      {
        ghost var least := HasLeast(todo);
        var idx :| idx in todo && forall x :: x in todo ==> idx <= x;
        if idx !in known {
          table := table[idx := parent[idx]];
          known := known + {idx};
        }
        todo := todo - {idx};
      }
    }

    /** Removes what was inherited from the former superclass. */
    method Prune(full: Table, known: set<nat>) returns (table: Table)
      requires Now().Listable()
      ensures forall s: nat ::
        Lookup(table, s) == if s in known || !(0 < s < Limit(depth)) then Lookup(full, s) else None
    {
      table := full;
      var todo := set k | k in full && 0 < k < Limit(depth);
      ghost var all := todo;
      while todo != {}
        invariant todo <= all
        invariant forall s: nat ::
          Lookup(table, s) == if s in known || s !in all || s in todo then Lookup(full, s) else None
        decreases todo
      {
        ghost var least := HasLeast(todo);
        var idx :| idx in todo && forall x :: x in todo ==> idx <= x;
        if idx !in known {
          table := table - {idx};
        }
        todo := todo - {idx};
      }
    }

    /** Rebuilds the table of one class from that of its superclass. */
    method RebaseOne(c: Class, newSuper: Class)
      requires Now().Sound() && Now().Listable() && Now().IsSup(c, newSuper) && c in tables && newSuper in tables
      modifies this`tables
      ensures RebasedPart(old(Now()), Now(), c, 0)
    {
      ghost var g := Now();
      var own := OwnMethods(c);
      var merged, known := Merge(tables[newSuper], own, tables[c]);
      var rebuilt := Prune(merged, known);
      tables := tables[c := rebuilt];
      SameShapeSound(g, Now());
      forall s
        ensures Now().Entry(c, s) == RebasedEntry(g, g, c, s)
      {
        assert Lookup(rebuilt, s) == if s in known || !g.Scanned(s) then Lookup(merged, s) else None;
        assert Lookup(own, s) == g.Own(c, s);
        assert g.Entry(c, s) == Lookup(g.tables[c], s) && g.Entry(newSuper, s) == Lookup(g.tables[newSuper], s);
        assert Now().Entry(c, s) == Lookup(rebuilt, s);
      }
      RebasedStart(g, Now(), c);
    }

    /** `rebaseDtableRecursive`: rebuilds the table of a class and of everything below it. */
    method Rebase(c: Class, newSuper: Class)
      requires Now().Sound() && Now().Listable() && Now().IsSup(c, newSuper) && c in tables && newSuper in tables
      requires ClosedBelow(Now(), c)
      modifies this`tables
      ensures RebaseStep(old(Now()), Now(), c)
      decreases From(Now(), c), 1
    {
      ghost var g := Now();
      RebaseOne(c, newSuper);
      for i := 0 to |subs[c]|
        invariant RebasedPart(g, Now(), c, i)
      {
        RebaseChild(c, g, i);
      }
      RebasedEnd(g, Now(), c);
    }

    method RebaseChild(c: Class, ghost g: World, i: nat)
      requires g.Sound() && c in g.tables && ClosedBelow(g, c) && i < |g.subs[c]| && RebasedPart(g, Now(), c, i)
      requires g.Listable()
      modifies this`tables
      ensures RebasedPart(g, Now(), c, i + 1)
      decreases From(g, c), 0
    {
      hide RebaseStep, ClosedBelow;
      ghost var g1 := Now();
      ChildIsDeeper(g, g1, c, i);
      assert g.subs[c][i] in g.subs[c];
      assert g.IsSup(g.subs[c][i], c) && g1.IsSup(g.subs[c][i], c);
      var subclass := subs[c][i];
      if subclass in tables {
        ChildClosed(g, c, subclass);
        ClosedFrame(g, g1, subclass);
        Rebase(subclass, c);
      }
      RebasedNext(g, g1, Now(), c, i);
    }

    /** `objc_update_dtable_for_new_superclass`: rebuilds, and invalidates all caches. */
    method UpdateForNewSuperclass(c: Class, newSuper: Class)
      requires Now().Sound() && Now().IsSup(c, newSuper) && newSuper in tables && ClosedBelow(Now(), c)
      requires c in tables ==> Now().Listable()
      modifies this`tables, this`version
      ensures RebuildStep(old(Now()), Now(), c)
    {
      ghost var g := Now();
      if c !in tables {
        return;
      }
      Rebase(c, newSuper);
      ghost var g1 := Now();
      version := version + 1;
      RebaseVersion(g, g1, Now(), c);
    }

    /**
     Gives a class and its metaclass another superclass and, if the class has a table
     already, makes sure that the new superclass has one and rebuilds.
     */
    method SetSuperclass(c: Class, newSuper: Class) returns (oldSuper: Class)
      requires Fit(Now(), {}) && c in classes && newSuper in classes && !c.meta && !newSuper.meta && sup[c].Some?
      requires !Now().Under({c}, newSuper) && (c in tables ==> Now().Listable())
      modifies this
      ensures SuperStep(old(Now()), Now(), c, newSuper) && oldSuper == old(sup[c].value)
      ensures sup == old(sup)[c := Some(newSuper)][Isa(c) := Some(Isa(newSuper))] && methods == old(methods)
      ensures Settled(Now(), {}) <==> (oldSuper != newSuper && c in old(tables) ==>
        CarriedOver(old(Now()), c, newSuper) && MetasCarriedOver(old(Now()), c, newSuper))
      ensures Mirrored(Now()) && TablesPaired(Now()) && Coherent(old(Now()), Now())
      ensures oldSuper != newSuper && c in old(tables) ==> version > old(version)
    {
      hide Settled, Mirrored, Coherent, PairMoved, Creatable, TablesPaired, World.Under, CarriedOver, SuperStep;
      ghost var g := Now();
      FitFacts(g, {});
      MirrorAt(g, c);
      oldSuper := sup[c].value;
      if oldSuper != newSuper {
        PairMovedSound(g, c, newSuper);
        Relink(c, newSuper);
        ghost var g1 := Now();
        PairMovedBooks(g, c, newSuper);
        if c in tables {
          RebuildPair(g, c, newSuper);
        }
      }
      SuperMade(g, Now(), c, newSuper);
      SuperSettled(g, Now(), c, newSuper);
    }

    /** Changes the links only. */
    method Relink(c: Class, newSuper: Class)
      requires CanMovePair(Now(), c, newSuper)
      modifies this`sup, this`subs, this`rank
      ensures Now() == PairMoved(old(Now()), c, newSuper)
    {
      hide World.Sound, World.Under, Moved;
      ghost var g := Now();
      MoveLinks(c, newSuper);
      CanMoveMeta(g, c, newSuper);
      MoveLinks(Isa(c), Isa(newSuper));
    }

    method MoveLinks(c: Class, newSuper: Class)
      requires CanMove(Now(), c, newSuper)
      modifies this`sup, this`subs, this`rank
      ensures Now() == Moved(old(Now()), c, newSuper)
    {
      ghost var g := Now();
      var oldSuper := sup[c].value;
      assert g.IsSup(c, oldSuper);
      subs := subs[oldSuper := Minus(subs[oldSuper], c)];
      sup := sup[c := Some(newSuper)];
      subs := subs[newSuper := [c] + subs[newSuper]];
      rank := Moved(g, c, newSuper).rank;
    }

    /** The new superclass is initialized, and the tables of the class and its metaclass are rebuilt. */
    method RebuildPair(ghost g: World, c: Class, newSuper: Class)
      requires Fit(g, {}) && CanMovePair(g, c, newSuper) && Now() == PairMoved(g, c, newSuper) && c in tables
      requires Now().Listable()
      modifies this`tables, this`version
      ensures Rebuilt(g, Now(), c, newSuper)
    {
      hide Settled, Mirrored, PairMoved, Creatable, TablesPaired, World.Under, Kept, InitializeStep, RebuildStep;
      ghost var g1, x := Now(), {c, Isa(c)};
      var m := Isa(c);
      PairMovedBooks(g, c, newSuper);
      MovedFit(g, c, newSuper);
      FitFacts(g1, x);
      Initialize(newSuper, x);
      ghost var g2 := Now();
      KeptFacts(g1, g2, x);
      FitFacts(g2, x);
      MovedClosed(g1, g2, c, newSuper);
      UpdateForNewSuperclass(m, Isa(newSuper));
      ghost var g3 := Now();
      RebuiltClosed(g2, g3, m, c, newSuper);
      UpdateForNewSuperclass(c, newSuper);
      assert InitializeStep(g1, g2, newSuper) && RebuildStep(g2, g3, m) && RebuildStep(g3, Now(), c);
      PairMovedSound(g, c, newSuper);
    }

    /** `objc_resize_dtables`: makes room for selectors with indices up to `newSize`. */
    method ResizeDtables(newSize: nat)
      requires depth == 8 || depth == 16 || depth == 24
      modifies this`depth
      ensures depth == if newSize < Pow2(old(depth)) then old(depth) else old(depth) + 8
      ensures newSize < 256 * Pow2(old(depth)) ==> newSize < Pow2(depth)
    {
      hide Pow2;
      PowersOf8();
      if (if depth == 8 then 0x100 else if depth == 16 then 0x1_0000 else 0x100_0000) > newSize {
        return;
      }
      Pow2Sum(8, depth);
      depth := depth + 8;
    }

    /** Looks up a method; the version tells how long the answer may be cached. */
    method GetSlot(c: Class, s: nat) returns (slot: Option<Method>, v: nat)
      requires Settled(Now(), {}) && c in classes
      ensures v == version && slot == Now().Entry(c, s)
      ensures c in tables ==> slot == Now().Resolve(c, s)
    {
      v := version;
      slot := if c in tables then Lookup(tables[c], s) else None;
      if c in tables {
        SettledAt(Now(), c, s);
      }
    }
  }

  /** The classes no closer to the root than `c`. */
  ghost function From(w: World, c: Class): set<Class>
    requires w.Sound() && c in w.classes
  {
    set d | d in w.classes && w.rank[d] >= w.rank[c]
  }

  lemma ChildIsDeeper(w: World, w': World, c: Class, i: nat)
    requires w.Sound() && c in w.classes && i < |w.subs[c]| && SameShape(w, w') && w'.Sound()
    ensures w.subs[c][i] in w'.classes && From(w', w.subs[c][i]) < From(w, c)
    ensures w'.subs == w.subs && w'.tables.Keys == w.tables.Keys
  {
    assert w.subs[c][i] in w.subs[c] && w.IsSup(w.subs[c][i], c);
    assert c in From(w, c) && c !in From(w', w.subs[c][i]);
  }

  /** The methods of `list` for the selectors `done` have been added. */
  ghost predicate AddedSome(g: World, g': World, c: Class, list: seq<Method>, done: set<nat>)
    requires g.Sound() && c in g.classes
  {
    forall d, s {:trigger g'.Entry(d, s)} :: d in g.tables ==>
      g'.Entry(d, s) == if s in done then AddedEntry(g, c, list, d, s) else g.Entry(d, s)
  }

  /** The entries are those of a new table for `c` in which the methods `ms` have been installed. */
  ghost predicate Created(g1: World, g: World, c: Class, ms: seq<Method>)
    requires g1.Sound()
  {
    forall d, s {:trigger g.Entry(d, s)} :: d in g1.tables ==> g.Entry(d, s) == CreatedEntry(g1, c, ms, d, s)
  }

  lemma InstalledNone(g: World, c: Class)
    requires g.Sound() && c in g.methods
    ensures SameShape(g, g) && Coherent(g, g) && Created(g, g, c, []) && Flat(g.methods[c][..0]) == []
  {
  }

  lemma AddedBefore(g: World, g1: World, c: Class, list: seq<Method>, done: set<nat>, s: nat)
    requires g.Sound() && c in g.tables && SameShape(g, g1) && s !in done && AddedSome(g, g1, c, list, done)
    ensures forall d :: d in g.tables ==> g1.Entry(d, s) == g.Entry(d, s)
    ensures c in g.sup && g1.sup == g.sup && c in g1.classes
  {
  }

  /** One more method of the list has been installed. */
  lemma AddedOneMore(g: World, g1: World, g2: World, c: Class, m: Method, list: seq<Method>, done: set<nat>,
                     inherited: Option<Method>, installed: bool)
    requires g.Sound() && g1.Sound() && c in g.tables && c in g.classes && SameShape(g, g1) && SameShape(g1, g2)
    requires m.selector !in done && Last(list, m.selector) == Some(m) && g.Scanned(m.selector)
    requires AddedSome(g, g1, c, list, done) && inherited == ParentEntry(g, c, m.selector)
    requires installed == Installs(g1.Entry(c, m.selector), m, inherited, true)
    requires g2.tables == if installed then Installed(g1, c, m, g1.Entry(c, m.selector)) else g1.tables
    ensures AddedSome(g, g2, c, list, done + {m.selector})
  {
    hide World.Sound, Installed, Affected;
    forall d, s | d in g.tables
      ensures g2.Entry(d, s) == if s in done + {m.selector} then AddedEntry(g, c, list, d, s) else g.Entry(d, s)
    {
      ShapeMethods(g, g1);
      InstalledEntry(g1, g2, c, m, installed, d, s);
      if s == m.selector {
        AddedBefore(g, g1, c, list, done, s);
        AffectedFrame(g, g1, c, s, g.Entry(c, s), d);
      }
    }
  }

  lemma FlatMore(lists: seq<seq<Method>>, i: nat)
    requires i < |lists|
    ensures Flat(lists[..i + 1]) == Flat(lists[..i]) + lists[i]
  {
    FlatAppend(lists[..i], [lists[i]]);
    assert lists[..i + 1] == lists[..i] + [lists[i]];
    assert Flat([lists[i]]) == lists[i];
  }

  lemma ShapeTables(w: World, w': World)
    requires SameShape(w, w')
    ensures w'.tables.Keys == w.tables.Keys
  {
  }

  lemma AddedNothing(g: World, c: Class, list: seq<Method>, d: Class, s: nat)
    requires g.Sound() && c in g.classes
    ensures Last(list, s).None? || !g.Scanned(s) ==> AddedEntry(g, c, list, d, s) == g.Entry(d, s)
  {
  }

  lemma ShapeSelf(w: World)
    ensures SameShape(w, w) && Coherent(w, w)
  {
  }

  lemma ShapeMethods(w: World, w': World)
    requires SameShape(w, w')
    ensures w'.tables.Keys == w.tables.Keys && w'.methods == w.methods
  {
  }

  lemma SelfAffected(w: World, c: Class, s: nat, was: Option<Method>)
    requires w.Sound()
    ensures Affected(w, c, s, was, c) <==> c in w.tables && w.Entry(c, s) == was
  {
  }

  lemma SameShapeTransitive(w: World, w1: World, w2: World)
    requires SameShape(w, w1) && SameShape(w1, w2)
    ensures SameShape(w, w2)
  {
  }

  lemma ParentKept(g: World, g1: World, c: Class, s: nat)
    requires g.Sound() && c in g.tables && SameShape(g, g1)
    requires forall d :: d in g.tables ==> g1.Entry(d, s) == g.Entry(d, s)
    ensures g1.Entry(c, s) == g.Entry(c, s)
    ensures ParentEntry(g, c, s) ==
      if g.sup[c].Some? && g.sup[c].value in g1.tables then Lookup(g1.tables[g.sup[c].value], s) else None
  {
    if g.sup[c].Some? && g.sup[c].value in g.tables {
      assert g1.Entry(g.sup[c].value, s) == g.Entry(g.sup[c].value, s);
    }
  }

  lemma InstalledEntry(g: World, g': World, c: Class, m: Method, ok: bool, d: Class, s: nat)
    requires g.Sound() && SameShape(g, g') && d in g.tables
    requires g'.tables == if ok then Installed(g, c, m, g.Entry(c, m.selector)) else g.tables
    ensures g'.Entry(d, s) ==
      if ok && s == m.selector && Affected(g, c, s, g.Entry(c, s), d) then Some(m) else g.Entry(d, s)
  {
  }

  lemma InstalledCoherent(g: World, g': World, c: Class, m: Method, ok: bool)
    requires g.Sound() && SameShape(g, g') && g.version <= g'.version
    requires g'.tables == if ok then Installed(g, c, m, g.Entry(c, m.selector)) else g.tables
    requires ok && g.Entry(c, m.selector).Some? ==> g.version < g'.version
    ensures Coherent(g, g')
  {
    if g'.version == g.version {
      forall d, s | g.Entry(d, s).Some?
        ensures g'.Entry(d, s) == g.Entry(d, s)
      {
        InstalledEntry(g, g', c, m, ok, d, s);
      }
    }
  }

  lemma AddedSound(g: World, g': World, c: Class, list: seq<Method>)
    requires g.Sound() && c in g.classes && Fresh(g, list) && g' == g.(methods := g.methods[c := [list] + g.methods[c]])
    ensures g'.Sound()
  {
    assert ([list] + g.methods[c])[1..] == g.methods[c];
    assert Flat([list] + g.methods[c]) == list + Flat(g.methods[c]);
    forall d, p | g'.IsSup(d, p)
      ensures p in g'.classes && g'.rank[p] < g'.rank[d]
    {
      assert g.IsSup(d, p);
    }
    forall e, d | e in g'.classes
      ensures d in g'.subs[e] <==> g'.IsSup(d, e)
    {
      assert g.IsSup(d, e) == g'.IsSup(d, e);
    }
  }

  /** What is added does not depend on the method lists. */
  lemma AddedEntryFrame(g: World, g': World, c: Class, list: seq<Method>, d: Class, s: nat)
    requires g.Sound() && g'.Sound() && c in g.classes
    requires g'.classes == g.classes && g'.sup == g.sup && g'.tables == g.tables && g'.rank == g.rank
    requires g'.depth == g.depth
    ensures AddedEntry(g', c, list, d, s) == AddedEntry(g, c, list, d, s)
  {
    AffectedSame(g, g', c, s, g.Entry(c, s), d);
    if g.sup[c].Some? {
      assert g.IsSup(c, g.sup[c].value);
    }
  }

  lemma {:induction false} AffectedSame(g: World, g': World, c: Class, s: nat, was: Option<Method>, d: Class)
    requires g.Sound() && g'.Sound()
    requires g'.classes == g.classes && g'.sup == g.sup && g'.tables == g.tables && g'.rank == g.rank
    ensures Affected(g', c, s, was, d) == Affected(g, c, s, was, d)
    decreases if d in g.rank then g.rank[d] else 0
  {
    if d in g.tables && g.sup[d].Some? {
      assert g.IsSup(d, g.sup[d].value) && g'.IsSup(d, g.sup[d].value);
      AffectedSame(g, g', c, s, was, g.sup[d].value);
    }
  }

  lemma {:induction false} DefinedInList(ms: seq<Method>, j: nat, s: nat)
    requires j < |ms| && ms[j].selector == s
    ensures Find(ms, s, None).Some?
  {
    if j > 0 {
      DefinedInList(ms[1..], j - 1, s);
    }
  }

  lemma {:induction false} DefinedInLists(lists: seq<seq<Method>>, i: nat, s: nat)
    requires i < |lists| && Find(lists[i], s, None).Some?
    ensures Find(Flat(lists), s, None).Some?
  {
    FindAppend(lists[0], Flat(lists[1..]), s, None);
    if i > 0 {
      DefinedInLists(lists[1..], i - 1, s);
    }
  }

  lemma {:induction false} UndefinedInList(ms: seq<Method>, s: nat)
    requires forall k :: 0 <= k < |ms| ==> ms[k].selector != s
    ensures Find(ms, s, None).None?
  {
    if ms != [] {
      UndefinedInList(ms[1..], s);
    }
  }

  lemma {:induction false} UndefinedInLists(lists: seq<seq<Method>>, s: nat)
    requires forall k :: 0 <= k < |lists| ==> Find(lists[k], s, None).None?
    ensures Find(Flat(lists), s, None).None?
  {
    if lists != [] {
      FindAppend(lists[0], Flat(lists[1..]), s, None);
      UndefinedInLists(lists[1..], s);
    }
  }

  /** For a single method that the class does not define, only the inherited implementation matters. */
  lemma OneMethodOk(g: World, c: Class, m: Method)
    requires g.Sound() && c in g.classes && g.Own(c, m.selector).None?
    ensures (forall s :: OkToAdd(g, c, [m], s)) <==>
      && g.Scanned(m.selector)
      && (g.Inherited(c, m.selector).Some? ==> g.Inherited(c, m.selector).value.imp != m.imp)
  {
    assert Last([m], m.selector) == Some(m) == Find([m], m.selector, None);
    assert OkToAdd(g, c, [m], m.selector) <==>
      && g.Scanned(m.selector)
      && (g.Inherited(c, m.selector).Some? ==> g.Inherited(c, m.selector).value.imp != m.imp);
    forall s | s != m.selector
      ensures OkToAdd(g, c, [m], s)
    {
      assert [m][..0] == [] && Last([m], s).None?;
    }
  }
}
