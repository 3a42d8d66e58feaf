/**
 The sizes of dispatch tables while threads initialize classes and register selectors.

 A table tells apart as many keys as its number of bits allows.  When a selector is
 registered for which this is not enough, all tables that are known are made deeper; one
 that is still being created is not known.
 */
module TableGrowth {
  import opened Wrappers
  import opened InitializeProtocol
  import opened InitializeSteps
  import opened InitializeRuns
  import Examples = InitializeExamples

  /**
   Where a thread that creates the tables of a class itself registers a selector for which
   the tables have no room: while it installs the methods of the class or of the metaclass,
   because installing the first one registers the selectors of constructors and destructors;
   or when it looks for `+initialize`, because the first time this registers that selector.
   */
  datatype Growth = Never | InClass | InMeta | AtDecide

  /** The state of the protocol, `dtable_depth`, and the number of bits of each table made. */
  datatype Sized = Sized(s: State, depth: nat, bits: map<Object, nat>)
  {
    function Bits(o: Object): nat {
      if o in bits then bits[o] else 0
    }
  }

  // ----- what a step does to the sizes -----

  /** The tables in the look-aside list are expanded. */
  function AsideGrown(x: Sized): Sized {
    x.(bits := map o | o in x.bits :: if o.c in x.s.aside then x.bits[o] + 8 else x.bits[o])
  }

  /** So are those of each class whose installed table is of the former size. */
  function InstalledGrown(x: Sized): Sized {
    x.(bits := map o | o in x.bits ::
         if o.c in x.s.installed && x.Bits(Object(o.c, false)) + 8 == x.depth then x.bits[o] + 8 else x.bits[o])
  }

  /** All steps of growing at once, as the thread takes them that holds all locks already. */
  function AllGrown(x: Sized): Sized {
    InstalledGrown(AsideGrown(x.(depth := x.depth + 8)))
  }

  /** The table of a class is a copy of the superclass's, or a new one. */
  function ClassMade(p: Program, x: Sized, c: Class): Sized {
    x.(bits := x.bits[Object(c, false) := if c in p.sup then x.Bits(Object(p.sup[c], false)) else x.depth])
  }

  /** That of a root metaclass is a copy of the class's. */
  function MetaMade(p: Program, x: Sized, c: Class): Sized {
    x.(bits := x.bits[Object(c, true) := x.Bits(if c in p.sup then Object(p.sup[c], true) else Object(c, false))])
  }

  function Made(p: Program, x: Sized, c: Class, own: Growth): Sized {
    var x1 := ClassMade(p, x, c);
    var x2 := MetaMade(p, if own == InClass then AllGrown(x1) else x1, c);
    if own == InMeta then AllGrown(x2) else x2
  }

  /** The sizes after a step. */
  function Sizes(p: Program, x: Sized, t: Thread, a: Action, own: Growth): Sized {
    if !a.Go? || x.s.Stack(t) == [] then x
    else
      match x.s.Top(t).pc
      case Recheck => if x.s.Top(t).c in x.s.flagged then x else Made(p, x, x.s.Top(t).c, own)
      case Decide => if own == AtDecide then AllGrown(x) else x
      case Grow => x.(depth := x.depth + 8)
      case GrowAside => AsideGrown(x)
      case GrowInstalled => InstalledGrown(x)
      case _ => x
  }

  /**
   The selector of `+initialize` is new only if no class has that method.  A thread that has
   the initialize lock but not the runtime lock has to get that for growing tables.
   */
  predicate May(p: Program, s: State, t: Thread, a: Action, own: Growth) {
    match own
    case Never => true
    case AtDecide => a.Go? && s.Stack(t) != [] && s.Top(t).pc == Decide && p.hasInitialize == {} && s.runtime.None?
    case _ => a.Go? && s.Stack(t) != [] && s.Top(t).pc == Recheck
  }

  ghost predicate SizedStep(p: Program, x: Sized, x': Sized, t: Thread, a: Action, own: Growth) {
    May(p, x.s, t, a, own) && Step(p, x.s, t, a) == Some(x'.s) && x' == Sizes(p, x, t, a, own).(s := x'.s)
  }

  ghost predicate NextSized(p: Program, x: Sized, x': Sized, own: Growth) {
    exists t, a :: SizedStep(p, x, x', t, a, own)
  }

  // ----- the invariant -----

  /** How far a thread is with growing the tables, if one is. */
  function Phase(s: State): nat {
    if s.runtime.None? || s.Stack(s.runtime.value) == [] then 0
    else
      match s.Top(s.runtime.value).pc
      case Growing => 1
      case GrowAside => 2
      case GrowInstalled => 3
      case _ => 0
  }

  ghost predicate SizeOk(x: Sized, c: Class) {
    var b := x.Bits(Object(c, false));
    && x.Bits(Object(c, true)) == b && Object(c, false) in x.bits && Object(c, true) in x.bits
    && match Phase(x.s)
       case 0 => b == x.depth
       case 3 => b == x.depth || (c in x.s.installed && b + 8 == x.depth)
       case _ => b + 8 == x.depth
  }

  /** When the tables put aside have been expanded, no table is just being created. */
  ghost predicate NoneLocal(s: State) {
    forall c :: c in s.flagged ==> s.HasTable(c)
  }

  ghost predicate SizesOk(p: Program, x: Sized) {
    && Inv(p, x.s) && (forall c {:trigger SizeOk(x, c)} :: c in x.s.flagged ==> SizeOk(x, c))
    && (Phase(x.s) == 3 ==> NoneLocal(x.s))
  }

  // ----- what steps change -----

  predicate Grows(pc: Pc) {
    pc == Grow || pc == Growing || pc == GrowAside || pc == GrowInstalled
  }

  /** The step is one of growing the tables. */
  predicate GrowStep(s: State, t: Thread, a: Action) {
    a.Go? && s.Stack(t) != [] && Grows(s.Top(t).pc)
  }

  /** What a step other than those of growing does to the runtime lock. */
  ghost predicate RuntimeKept(s: State, s': State, t: Thread) {
    || (s'.runtime == s.runtime && s.runtime != Some(t))
    || (s.runtime == Some(t) && s'.runtime.None?)
    || ((s.runtime.None? || s.runtime == Some(t)) && s'.runtime == Some(t)
        && s'.Stack(t) != [] && !Grows(s'.Top(t).pc))
  }

  lemma TopRuntime(s: State, t: Thread)
    requires HoldersOk(s) && (s.Stack(t) == [] || !HoldsRuntime(s.Top(t).pc))
    ensures s.runtime != Some(t)
  {
  }

  lemma PlainRuntime(p: Program, s: State, t: Thread, s': State, pc: Pc)
    requires Inv(p, s) && PlainTo(p, s, t, s', pc) && !Grows(s.Top(t).pc)
    ensures RuntimeKept(s, s', t)
  {
    hide Inv, PlainTo, Moved, FramesOk, HoldsRuntime, Advance, Follows;
    InvFacts(p, s);
    PlainStacks(p, s, t, s', pc);
    PlainLocks(p, s, t, s', pc);
    GotoTop(s, s', t, pc, t);
    NotGrowing(p, s, t, s', pc);
    FramesCall(p, s, t);
    TopHolds(s, t);
    if !HoldsRuntime(s.Top(t).pc) {
      TopRuntime(s, t);
    }
  }

  lemma NotGrowing(p: Program, s: State, t: Thread, s': State, pc: Pc)
    requires PlainTo(p, s, t, s', pc) && !Grows(s.Top(t).pc)
    ensures !Grows(pc) && s.Stack(t) != []
  {
    hide Advance;
  }

  lemma RestRuntime(p: Program, s: State, t: Thread, s': State)
    requires Inv(p, s) && s.Stack(t) != [] && Advance(p, s, t, s.Top(t).c, s.Top(t).pc) == Some(s')
    requires !Grows(s.Top(t).pc) && (s.Top(t).pc == Begin || s.Top(t).pc == Recheck || Ends(s, s.Top(t).c, s.Top(t).pc))
    ensures RuntimeKept(s, s', t)
  {
    hide Inv, FramesOk, Moved, Popped, Pushed, Advance;
    InvFacts(p, s);
    if s.Top(t).pc == Begin {
      TopRuntime(s, t);
      BeginRuntime(p, s, t, s');
    } else if s.Top(t).pc == Recheck {
      RecheckFinds(p, s, t);
      RecheckRuntime(p, s, t, s');
      FramesCall(p, s, t);
      TopHolds(s, t);
    } else {
      TopRuntime(s, t);
      FramesCall(p, s, t);
      ReturnShape(p, s, t, s');
      ReturnedSets(s, t, s');
    }
  }

  lemma BeginRuntime(p: Program, s: State, t: Thread, s': State)
    requires s.Stack(t) != [] && s.Top(t).pc == Begin && Advance(p, s, t, s.Top(t).c, Begin) == Some(s')
    ensures s'.runtime == s.runtime
  {
  }

  lemma RecheckRuntime(p: Program, s: State, t: Thread, s': State)
    requires s.Stack(t) != [] && s.Top(t).pc == Recheck && Advance(p, s, t, s.Top(t).c, Recheck) == Some(s')
    requires s.Top(t).c !in s.flagged
    ensures s'.runtime == s.runtime && s'.Stack(t) != [] && s'.Top(t).pc == Created
    ensures s'.flagged == s.flagged + {s.Top(t).c} && s'.installed == s.installed && s'.aside == s.aside
  {
    GotoStacks(s, t, Created);
  }

  lemma CallRuntime(p: Program, s: State, t: Thread, a: Action, s': State)
    requires Inv(p, s) && Step(p, s, t, a) == Some(s') && !a.Go?
    ensures RuntimeKept(s, s', t) && s' == s.(stacks := s'.stacks)
  {
    hide Inv, FramesOk, Moved, Popped, Pushed, Advance;
    InvFacts(p, s);
    TopRuntime(s, t);
  }

  /** Steps other than those of growing do not change how far growing is. */
  lemma PhaseKept(p: Program, s: State, t: Thread, a: Action, s': State)
    requires Inv(p, s) && Step(p, s, t, a) == Some(s') && !GrowStep(s, t, a)
    ensures Phase(s') == Phase(s)
  {
    hide Inv, Advance, PlainTo, Follows;
    InvFacts(p, s);
    OthersStay(p, s, t, a, s');
    if !a.Go? {
      CallRuntime(p, s, t, a, s');
    } else if s.Top(t).pc == Begin || s.Top(t).pc == Recheck || Ends(s, s.Top(t).c, s.Top(t).pc) {
      RestRuntime(p, s, t, s');
    } else {
      PlainMade(p, s, t, s');
      PlainRuntime(p, s, t, s', Follows(s, s.Top(t).c, s.Top(t).pc, p));
    }
    PhaseOf(s, s', t);
  }

  lemma PhaseOf(s: State, s': State, t: Thread)
    requires RuntimeKept(s, s', t) && (s.runtime == Some(t) ==> Phase(s) == 0)
    requires forall u {:trigger s'.Stack(u)} :: u != t ==> s'.Stack(u) == s.Stack(u)
    ensures Phase(s') == Phase(s)
  {
  }

  /** No step but that which marks a class changes which classes are marked, and no table is lost. */
  lemma TablesKept(p: Program, s: State, t: Thread, a: Action, s': State)
    requires Inv(p, s) && Step(p, s, t, a) == Some(s')
    requires a.Go? ==> s.Top(t).pc != Recheck
    ensures s'.flagged == s.flagged && s.installed <= s'.installed
    ensures forall c {:trigger s'.HasTable(c)} :: s.HasTable(c) ==> s'.HasTable(c)
  {
    hide Inv, Advance, PlainTo, Follows, FramesOk;
    InvFacts(p, s);
    if !a.Go? {
      CallRuntime(p, s, t, a, s');
    } else if s.Top(t).pc == Begin {
      BeginTables(p, s, t, s');
    } else if Ends(s, s.Top(t).c, s.Top(t).pc) {
      FramesCall(p, s, t);
      ReturnShape(p, s, t, s');
      ReturnedSets(s, t, s');
    } else {
      PlainMade(p, s, t, s');
      PlainMoves(p, s, t, s', Follows(s, s.Top(t).c, s.Top(t).pc, p));
      UnlinkedMembers(s.aside, s.Top(t).c);
    }
  }

  lemma BeginTables(p: Program, s: State, t: Thread, s': State)
    requires s.Stack(t) != [] && s.Top(t).pc == Begin && Advance(p, s, t, s.Top(t).c, Begin) == Some(s')
    ensures s' == s.(stacks := s'.stacks)
  {
  }

  lemma SizesFacts(p: Program, x: Sized)
    requires SizesOk(p, x)
    ensures Inv(p, x.s) && forall c {:trigger SizeOk(x, c)} :: c in x.s.flagged ==> SizeOk(x, c)
    ensures Phase(x.s) == 3 ==> NoneLocal(x.s)
  {
  }

  /** A class whose table is there at all has been marked. */
  lemma TableMarked(p: Program, s: State, c: Class)
    requires Inv(p, s) && s.HasTable(c)
    ensures c in s.flagged
  {
  }

  // ----- the steps of growing -----

  /** While a thread is growing the tables put aside, no other is just creating tables. */
  lemma NoneCreating(p: Program, s: State, t: Thread)
    requires Inv(p, s) && s.Stack(t) != [] && s.Top(t).pc == GrowAside
    ensures NoneLocal(s)
  {
    hide SuperOk, LocksOk, Count;
    forall c | c in s.flagged
      ensures s.HasTable(c)
    {
      if c !in s.installed {
        assert Taken(c, s);
        var u, i: nat :| IsInitializer(s, u, i, c);
        FramesFact(p, s, u, i);
        FramesFact(p, s, t, |s.Stack(t)| - 1);
      }
    }
  }

  lemma GrowTop(p: Program, s: State, t: Thread, s': State)
    requires Inv(p, s) && s.Stack(t) != [] && Grows(s.Top(t).pc) && Step(p, s, t, Go) == Some(s')
    ensures s'.flagged == s.flagged && s'.installed == s.installed && s'.aside == s.aside
    ensures Phase(s) == match s.Top(t).pc case Grow => 0 case Growing => 1 case GrowAside => 2 case _ => 3
    ensures Phase(s') == match s.Top(t).pc case Grow => 1 case Growing => 2 case GrowAside => 3 case _ => 0
  {
    hide Inv, FramesOk, Moved, Popped, AdvanceSend;
    InvFacts(p, s);
    FramesCall(p, s, t);
    GotoFrame(s, t, FollowsCall(s.Top(t).pc), t, |s.Stack(t)| - 1);
  }

  lemma GrowSizes(p: Program, x: Sized, x': Sized, t: Thread)
    requires SizesOk(p, x) && SizedStep(p, x, x', t, Go, Never) && GrowStep(x.s, t, Go)
    ensures SizesOk(p, x')
  {
    hide Inv, Step, SizesOk, May, SizeOk, Phase;
    SizesFacts(p, x);
    StepInv(p, x.s, t, Go, x'.s);
    GrowTop(p, x.s, t, x'.s);
    if x.s.Top(t).pc == GrowAside {
      NoneCreating(p, x.s, t);
    }
    forall c | c in x'.s.flagged
      ensures SizeOk(x', c)
    {
      assert SizeOk(x, c);
      AsideOnly(p, x.s, c);
      GrownSize(x, x', t, c);
    }
    SizesMade(p, x');
  }

  lemma AsideOnly(p: Program, s: State, c: Class)
    requires Inv(p, s)
    ensures c in s.aside ==> c !in s.installed
  {
  }

  lemma SizesMade(p: Program, x: Sized)
    requires Inv(p, x.s) && (forall c :: c in x.s.flagged ==> SizeOk(x, c)) && (Phase(x.s) == 3 ==> NoneLocal(x.s))
    ensures SizesOk(p, x)
  {
  }

  lemma GrownSize(x: Sized, x': Sized, t: Thread, c: Class)
    requires SizeOk(x, c) && c in x.s.flagged && GrowStep(x.s, t, Go)
    requires x'.s.flagged == x.s.flagged && x'.s.installed == x.s.installed && x'.s.aside == x.s.aside
    requires Phase(x.s) == match x.s.Top(t).pc case Grow => 0 case Growing => 1 case GrowAside => 2 case _ => 3
    requires Phase(x'.s) == match x.s.Top(t).pc case Grow => 1 case Growing => 2 case GrowAside => 3 case _ => 0
    requires match x.s.Top(t).pc
      case Grow => x'.bits == x.bits && x'.depth == x.depth + 8
      case Growing => x'.bits == x.bits && x'.depth == x.depth
      case GrowAside => x'.bits == AsideGrown(x).bits && x'.depth == x.depth && NoneLocal(x.s)
      case _ => x'.bits == InstalledGrown(x).bits && x'.depth == x.depth
    requires c in x.s.aside ==> c !in x.s.installed
    ensures SizeOk(x', c)
  {
    hide Phase;
  }

  /** Creating tables from those of the superclass gives tables of the current size. */
  lemma MadeSizes(p: Program, x: Sized, x': Sized, t: Thread)
    requires SizesOk(p, x) && SizedStep(p, x, x', t, Go, Never) && x.s.Stack(t) != [] && x.s.Top(t).pc == Recheck
    ensures SizesOk(p, x')
  {
    hide Inv, SizesOk, SizeOk, Advance, Phase, Made;
    var c := x.s.Top(t).c;
    SizesFacts(p, x);
    StepInv(p, x.s, t, Go, x'.s);
    RecheckFinds(p, x.s, t);
    RecheckRuntime(p, x.s, t, x'.s);
    PhaseKept(p, x.s, t, Go, x'.s);
    HolderPhase(p, x.s, t);
    if c in p.sup {
      TableMarked(p, x.s, p.sup[c]);
      assert SizeOk(x, p.sup[c]);
    }
    forall d | d in x'.s.flagged
      ensures SizeOk(x', d)
    {
      assert d != c ==> SizeOk(x, d);
      MadeSize(p, x, x', c, d);
    }
    SizesMade(p, x');
  }

  lemma MadeSize(p: Program, x: Sized, x': Sized, c: Class, d: Class)
    requires x' == Made(p, x, c, Never).(s := x'.s) && Phase(x.s) == Phase(x'.s) == 0
    requires c in p.sup ==> SizeOk(x, p.sup[c])
    requires d != c ==> SizeOk(x, d)
    ensures SizeOk(x', d)
  {
    hide Phase;
  }

  lemma HolderPhase(p: Program, s: State, t: Thread)
    requires Inv(p, s) && s.Stack(t) != [] && s.Top(t).pc == Recheck
    ensures Phase(s) == 0 && s.runtime == Some(t) && s.init == Some(t)
  {
    FramesCall(p, s, t);
  }

  lemma OtherSizes(p: Program, x: Sized, x': Sized, t: Thread, a: Action)
    requires SizesOk(p, x) && SizedStep(p, x, x', t, a, Never) && !GrowStep(x.s, t, a)
    requires a.Go? ==> x.s.Top(t).pc != Recheck
    ensures SizesOk(p, x')
  {
    hide Inv, Step, SizesOk, Phase;
    SizesFacts(p, x);
    StepInv(p, x.s, t, a, x'.s);
    TablesKept(p, x.s, t, a, x'.s);
    PhaseKept(p, x.s, t, a, x'.s);
    forall c | c in x'.s.flagged
      ensures SizeOk(x', c)
    {
      assert SizeOk(x, c);
    }
    SizesMade(p, x');
  }

  // ----- a thread grows the tables while it creates one -----

  /** The table that is being created is left behind. */
  lemma LeftBehind(x: Sized, c: Class)
    requires c !in x.s.aside && c !in x.s.installed
    ensures AllGrown(x).Bits(Object(c, false)) == x.Bits(Object(c, false)) && AllGrown(x).depth == x.depth + 8
    ensures AllGrown(x).s == x.s
  {
  }

  lemma MadeBehind(p: Program, x: Sized, c: Class, own: Growth)
    requires c !in x.s.aside && c !in x.s.installed && (own == InClass || own == InMeta)
    requires c in p.sup ==> p.sup[c] != c && x.Bits(Object(p.sup[c], false)) == x.depth
    ensures Made(p, x, c, own).Bits(Object(c, false)) == x.depth && Made(p, x, c, own).depth == x.depth + 8
  {
    hide AllGrown;
    var x1 := ClassMade(p, x, c);
    LeftBehind(x1, c);
    LeftBehind(MetaMade(p, x1, c), c);
  }

  ghost predicate Quiet(s: State) {
    Phase(s) == 0
  }

  /** Every table that has been made is of the current size. */
  ghost predicate Current(x: Sized) {
    forall c {:trigger c in x.s.flagged} :: c in x.s.flagged ==>
      x.Bits(Object(c, false)) == x.depth && x.Bits(Object(c, true)) == x.depth
  }

  lemma QuietCurrent(p: Program, x: Sized)
    requires SizesOk(p, x) && Quiet(x.s)
    ensures Current(x)
  {
    hide Inv, Phase;
    forall c | c in x.s.flagged
      ensures x.Bits(Object(c, false)) == x.depth && x.Bits(Object(c, true)) == x.depth
    {
      assert SizeOk(x, c);
    }
  }

  lemma OwnGrowth(p: Program, x: Sized, x': Sized, t: Thread, a: Action, own: Growth)
    requires SizesOk(p, x) && SizedStep(p, x, x', t, a, own) && own != Never
    ensures Quiet(x'.s) && !Current(x')
  {
    hide Inv, SizesOk, Advance, Made, AllGrown, Phase;
    SizesFacts(p, x);
    PhaseKept(p, x.s, t, a, x'.s);
    QuietBefore(p, x.s, t, a, own);
    QuietCurrent(p, x);
    var c := x.s.Top(t).c;
    if own == AtDecide {
      DecideFinds(p, x.s, t);
      TablesKept(p, x.s, t, a, x'.s);
      LeftBehind(x, c);
    } else {
      RecheckFinds(p, x.s, t);
      RecheckRuntime(p, x.s, t, x'.s);
      if c in p.sup {
        TableMarked(p, x.s, p.sup[c]);
      }
      MadeBehind(p, x, c, own);
    }
    assert c in x'.s.flagged && x'.Bits(Object(c, false)) != x'.depth;
  }

  lemma QuietBefore(p: Program, s: State, t: Thread, a: Action, own: Growth)
    requires Inv(p, s) && May(p, s, t, a, own) && own != Never
    ensures Quiet(s) && a.Go? && s.Stack(t) != []
  {
    if own != AtDecide {
      HolderPhase(p, s, t);
    }
  }

  lemma DecideFinds(p: Program, s: State, t: Thread)
    requires Inv(p, s) && s.Stack(t) != [] && s.Top(t).pc == Decide
    ensures s.Top(t).c in s.flagged && s.Top(t).c !in s.installed && s.Top(t).c !in s.aside
  {
    FramesCall(p, s, t);
  }

  // ----- runs -----

  ghost predicate SizedRun(p: Program, run: seq<Sized>, own: seq<Growth>) {
    && |run| == |own| + 1 && Start(run[0].s) && run[0].depth == 8 && run[0].bits == map[]
    && forall i :: 0 <= i < |own| ==> NextSized(p, run[i], run[i + 1], own[i])
  }

  lemma NeverStep(p: Program, x: Sized, x': Sized, t: Thread, a: Action)
    requires SizesOk(p, x) && SizedStep(p, x, x', t, a, Never)
    ensures SizesOk(p, x')
  {
    hide SizesOk, SizedStep;
    if GrowStep(x.s, t, a) {
      GrowSizes(p, x, x', t);
    } else if a.Go? && x.s.Stack(t) != [] && x.s.Top(t).pc == Recheck {
      MadeSizes(p, x, x', t);
    } else {
      GoHasTop(p, x, x', t, a, Never);
      OtherSizes(p, x, x', t, a);
    }
  }

  lemma GoHasTop(p: Program, x: Sized, x': Sized, t: Thread, a: Action, own: Growth)
    requires SizedStep(p, x, x', t, a, own)
    ensures a.Go? ==> x.s.Stack(t) != []
  {
  }

  lemma {:induction false} FitUpTo(p: Program, run: seq<Sized>, own: seq<Growth>, i: nat)
    requires SizedRun(p, run, own) && i < |run| && forall j :: 0 <= j < i ==> own[j] == Never
    ensures SizesOk(p, run[i])
  {
    hide SizedStep;
    if i == 0 {
      StartInv(p, run[0].s);
    } else {
      FitUpTo(p, run, own, i - 1);
      assert NextSized(p, run[i - 1], run[i - 1 + 1], own[i - 1]);
      var t, a :| SizedStep(p, run[i - 1], run[i], t, a, own[i - 1]);
      NeverStep(p, run[i - 1], run[i], t, a);
    }
  }

  /**
   In a run all tables are of the current size, whenever no thread is growing them, if and
   only if no thread ever has to grow them while it creates a table.
   */
  lemma TablesCurrent(p: Program, run: seq<Sized>, own: seq<Growth>)
    requires SizedRun(p, run, own)
    ensures (forall i :: 0 <= i < |run| && Quiet(run[i].s) ==> Current(run[i])) <==>
      (forall i :: 0 <= i < |own| ==> own[i] == Never)
  {
    hide Quiet, Current, SizesOk, SizedStep;
    if forall i :: 0 <= i < |own| ==> own[i] == Never {
      forall i | 0 <= i < |run| && Quiet(run[i].s)
        ensures Current(run[i])
      {
        FitUpTo(p, run, own, i);
        QuietCurrent(p, run[i]);
      }
    } else {
      var k :| 0 <= k < |own| && own[k] != Never;
      var i := FirstOwn(own, k);
      FitUpTo(p, run, own, i);
      assert NextSized(p, run[i], run[i + 1], own[i]);
      var t, a :| SizedStep(p, run[i], run[i + 1], t, a, own[i]);
      OwnGrowth(p, run[i], run[i + 1], t, a, own[i]);
    }
  }

  lemma {:induction false} FirstOwn(own: seq<Growth>, k: nat) returns (i: nat)
    requires k < |own| && own[k] != Never
    ensures i <= k && own[i] != Never && forall j :: 0 <= j < i ==> own[j] == Never
  {
    if j: nat :| j < k && own[j] != Never {
      i := FirstOwn(own, j);
    } else {
      i := k;
    }
  }

  /** Every run of the protocol is one with sizes. */
  lemma {:induction false} Lifted(p: Program, run: seq<State>) returns (sized: seq<Sized>, own: seq<Growth>)
    requires Run(p, run)
    ensures SizedRun(p, sized, own) && |sized| == |run| && forall i :: 0 <= i < |own| ==> own[i] == Never
    ensures forall i :: 0 <= i < |run| ==> sized[i].s == run[i]
  {
    hide Step, Start, Sizes;
    if |run| == 1 {
      sized, own := [Sized(run[0], 8, map[])], [];
    } else {
      var n := |run| - 1;
      ShorterRun(p, run);
      sized, own := Lifted(p, run[..n]);
      assert NextState(p, run[n - 1], run[n - 1 + 1]);
      var t, a :| Step(p, run[n - 1], t, a) == Some(run[n]);
      var x' := Sizes(p, sized[n - 1], t, a, Never).(s := run[n]);
      sized, own := Longer(p, sized, own, x', t, a, Never);
    }
  }

  lemma ShorterRun(p: Program, run: seq<State>)
    requires Run(p, run) && |run| > 1
    ensures Run(p, run[..|run| - 1])
  {
    hide NextState, Start;
    var front := run[..|run| - 1];
    forall i | 0 <= i < |front| - 1
      ensures NextState(p, front[i], front[i + 1])
    {
      assert NextState(p, run[i], run[i + 1]);
    }
  }

  lemma Longer(p: Program, run: seq<Sized>, own: seq<Growth>, x: Sized, t: Thread, a: Action, o: Growth)
      returns (run': seq<Sized>, own': seq<Growth>)
    requires SizedRun(p, run, own) && SizedStep(p, run[|run| - 1], x, t, a, o)
    ensures SizedRun(p, run', own') && run' == run + [x] && own' == own + [o]
  {
    hide SizedStep, Start;
    run', own' := run + [x], own + [o];
    forall i | 0 <= i < |own'|
      ensures NextSized(p, run'[i], run'[i + 1], own'[i])
    {
      if i < |own| {
        assert NextSized(p, run[i], run[i + 1], own[i]);
      }
    }
  }

  /** It does happen: the thread that first looks for `+initialize` leaves a table behind. */
  lemma GrowsWhileDeciding() returns (p: Program, run: seq<Sized>, own: seq<Growth>)
    ensures SizedRun(p, run, own) && own != [] && own[|own| - 1] == AtDecide
    ensures Quiet(run[|run| - 1].s) && !Current(run[|run| - 1])
  {
    hide Step, Sizes, SizesOk, NextSized, Start, SizedStep, Quiet, Current;
    p := Program(map[1 := 0], {});
    var states := Examples.AboutToDecide(p);
    run, own := Lifted(p, states);
    var n := |run| - 1;
    assert run[n].s == states[n];
    var x' := DecideGoes(p, run[n]);
    FitUpTo(p, run, own, n);
    OwnGrowth(p, run[n], x', 0, Go, AtDecide);
    run, own := Longer(p, run, own, x', 0, Go, AtDecide);
  }

  lemma DecideGoes(p: Program, x: Sized) returns (x': Sized)
    requires x.s.Stack(0) == [Frame(0, true, Decide)] && x.s.runtime.None? && p.hasInitialize == {}
    ensures SizedStep(p, x, x', 0, Go, AtDecide)
  {
    x' := Sizes(p, x, 0, Go, AtDecide).(s := Step(p, x.s, 0, Go).value);
  }

  /**
   Growing the tables while deciding can also come to a standstill: this thread has the
   initialize lock and needs the runtime lock, and another that registers a selector has
   the runtime lock and needs the initialize lock.
   */
  lemma GrowthDeadlock() returns (p: Program, run: seq<State>)
    ensures Run(p, run) && run != []
    ensures var s := run[|run| - 1];
      && s.Stack(0) == [Frame(0, true, Decide)] && s.runtime == Some(1)
      && !May(p, s, 0, Go, AtDecide) && May(p, s.(runtime := None), 0, Go, AtDecide)
      && s.Stack(1) == [Frame(0, false, Growing)] && Step(p, s, 1, Go).None? && s.init == Some(0)
  {
    hide Run;
    p := Program(map[1 := 0], {});
    run := Examples.DecidesAndGrows(p);
  }
}
