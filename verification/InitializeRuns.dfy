/**
 What the `+initialize` protocol guarantees in every run of any number of threads.
 */
module InitializeRuns {
  import opened Wrappers
  import opened InitializeProtocol
  import opened InitializeSteps

  ghost predicate Start(s: State) {
    && (forall t :: s.Stack(t) == []) && s.runtime.None? && s.init.None? && (forall o :: s.LockOf(o) == Free)
    && s.flagged == {} && s.installed == {} && s.aside == [] && s.started == {} && !s.fault
  }

  lemma StartInv(p: Program, s: State)
    requires Start(s)
    ensures Inv(p, s)
  {
    forall o
      ensures LockOk(s, o)
    {
    }
  }

  lemma StepInv(p: Program, s: State, t: Thread, a: Action, s': State)
    requires Inv(p, s) && Step(p, s, t, a) == Some(s')
    ensures Inv(p, s')
  {
    hide Inv;
    match a {
      case Send(c) => PushInv(p, s, t, Frame(c, true, Begin));
      case LookUp(c, meta) => PushInv(p, s, t, Frame(c, meta, Look));
      case Synchronize(c, meta) => PushInv(p, s, t, Frame(c, meta, Sync));
      case Register => PushInv(p, s, t, Frame(0, false, Grow));
      case Enough => EnoughStep(p, s, t, s');
      case Go => GoInv(p, s, t, s');
    }
  }

  lemma GoInv(p: Program, s: State, t: Thread, s': State)
    requires Inv(p, s) && s.Stack(t) != [] && Advance(p, s, t, s.Top(t).c, s.Top(t).pc) == Some(s')
    ensures Inv(p, s')
  {
    hide Inv, PlainTo;
    var c, pc := s.Top(t).c, s.Top(t).pc;
    if pc == Begin {
      BeginStep(p, s, t, s');
    } else if pc == Recheck {
      RecheckStep(p, s, t, s');
    } else if Ends(s, c, pc) {
      ReturnStep(p, s, t, s');
    } else {
      PlainMade(p, s, t, s');
      PlainStep(p, s, t, s', Follows(s, c, pc, p));
    }
  }

  lemma PlainMade(p: Program, s: State, t: Thread, s': State)
    requires s.Stack(t) != [] && Advance(p, s, t, s.Top(t).c, s.Top(t).pc) == Some(s')
    requires s.Top(t).pc != Begin && s.Top(t).pc != Recheck && !Ends(s, s.Top(t).c, s.Top(t).pc)
    ensures PlainTo(p, s, t, s', Follows(s, s.Top(t).c, s.Top(t).pc, p))
  {
    hide Unlinked;
  }

  ghost predicate NextState(p: Program, s: State, s': State) {
    exists t, a :: Step(p, s, t, a) == Some(s')
  }

  ghost predicate Run(p: Program, run: seq<State>) {
    && run != [] && Start(run[0])
    && forall i :: 0 <= i < |run| - 1 ==> NextState(p, run[i], run[i + 1])
  }

  lemma {:induction false} RunInv(p: Program, run: seq<State>, i: nat)
    requires Run(p, run) && i < |run|
    ensures Inv(p, run[i])
  {
    if i == 0 {
      StartInv(p, run[0]);
    } else {
      RunInv(p, run, i - 1);
      assert NextState(p, run[i - 1], run[i - 1 + 1]);
      var t, a :| Step(p, run[i - 1], t, a) == Some(run[i]);
      StepInv(p, run[i - 1], t, a, run[i]);
    }
  }

  /** No assertion fails and `abort` is never called, whatever the threads do. */
  lemma NoFault(p: Program, run: seq<State>, i: nat)
    requires Run(p, run) && i < |run|
    ensures !run[i].fault
  {
    RunInv(p, run, i);
  }

  /** Thread `t` starts `+initialize` of `c`. */
  ghost predicate Starts(p: Program, s: State, t: Thread, c: Class, s': State) {
    && s.Stack(t) != [] && s.Top(t) == Frame(c, true, Decide) && c in p.hasInitialize
    && Step(p, s, t, Go) == Some(s')
  }

  lemma StartedGrows(p: Program, s: State, t: Thread, a: Action, s': State)
    requires Step(p, s, t, a) == Some(s')
    ensures s.started <= s'.started
  {
    hide Moved, Popped, Pushed, Acquired, Released, Unlinked, State.CanEnter, State.HasTable;
  }

  lemma {:induction false} StartedStays(p: Program, run: seq<State>, i: nat, j: nat)
    requires Run(p, run) && i <= j < |run|
    ensures run[i].started <= run[j].started
    decreases j - i
  {
    hide Step, Start;
    if i < j {
      StartedStays(p, run, i, j - 1);
      assert NextState(p, run[j - 1], run[j - 1 + 1]);
      var t, a :| Step(p, run[j - 1], t, a) == Some(run[j]);
      StartedGrows(p, run[j - 1], t, a, run[j]);
    }
  }

  lemma StartIsFirst(p: Program, run: seq<State>, j: nat, u: Thread, c: Class)
    requires Run(p, run) && j + 1 < |run| && Starts(p, run[j], u, c, run[j + 1])
    ensures c !in run[j].started && c in run[j + 1].started
  {
    RunInv(p, run, j);
    assert FrameOk(p, run[j], u, |run[j].Stack(u)| - 1);
  }

  /** In no run is `+initialize` started twice for the same class. */
  lemma StartsOnce(p: Program, run: seq<State>, i: nat, j: nat, t: Thread, u: Thread, c: Class)
    requires Run(p, run) && i < j && j + 1 < |run| && Starts(p, run[i], t, c, run[i + 1])
    ensures !Starts(p, run[j], u, c, run[j + 1])
  {
    hide *;
    StartIsFirst(p, run, i, t, c);
    StartedStays(p, run, i + 1, j);
    if Starts(p, run[j], u, c, run[j + 1]) {
      StartIsFirst(p, run, j, u, c);
    }
  }

  /**
   When `+initialize` of a class starts, that of its superclass is over, or is running
   further down on the stack of the same thread.
   */
  lemma SuperclassFirst(p: Program, run: seq<State>, i: nat, t: Thread, c: Class)
    requires Run(p, run) && i + 1 < |run| && Starts(p, run[i], t, c, run[i + 1]) && c in p.sup
    ensures p.sup[c] in run[i].installed || OwnStack(run[i], t, |run[i].Stack(t)| - 1, p.sup[c])
  {
    RunInv(p, run, i);
    assert FrameOk(p, run[i], t, |run[i].Stack(t)| - 1);
  }

  /** The second test of the flag, under all three locks, never finds it set. */
  lemma SecondTestFails(p: Program, run: seq<State>, i: nat, t: Thread)
    requires Run(p, run) && i < |run| && run[i].Stack(t) != [] && run[i].Top(t).pc == Recheck
    ensures run[i].Top(t).c !in run[i].flagged
  {
    RunInv(p, run, i);
    RecheckFinds(p, run[i], t);
  }

  // ----- which methods are started, and when calls return -----

  /** No step but two moves tables: deciding what to do with new ones, and installing those put aside. */
  ghost predicate TablesMoved(p: Program, s: State, t: Thread, s': State) {
    || (s'.installed == s.installed && s'.aside == s.aside && s'.started == s.started)
    || (s.Stack(t) != [] && s.Top(t).pc == Decide && Decided(p, s, s', s.Top(t).c)
        && s'.Stack(t) != [] && (s.Top(t).c in p.hasInitialize ==> s'.Top(t) == s.Top(t).(pc := Running)))
    || (s.Stack(t) != [] && s.Top(t).pc == Unlinking && s'.installed == s.installed + {s.Top(t).c}
        && s'.started == s.started && s'.aside == Unlinked(s.aside, s.Top(t).c))
  }

  lemma TablesMove(p: Program, s: State, t: Thread, a: Action, s': State)
    requires Inv(p, s) && Step(p, s, t, a) == Some(s')
    ensures TablesMoved(p, s, t, s')
  {
    hide Inv, Advance, PlainTo, FramesOk, Decided;
    InvFacts(p, s);
    if !a.Go? {
      CallMovesNothing(p, s, t, a, s');
    } else if s.Top(t).pc == Begin || s.Top(t).pc == Recheck {
      BeginMovesNothing(p, s, t, s');
    } else if Ends(s, s.Top(t).c, s.Top(t).pc) {
      FramesCall(p, s, t);
      ReturnShape(p, s, t, s');
      ReturnedSets(s, t, s');
    } else {
      var pc := Follows(s, s.Top(t).c, s.Top(t).pc, p);
      PlainMade(p, s, t, s');
      PlainMoves(p, s, t, s', pc);
      PlainStacks(p, s, t, s', pc);
      GotoTop(s, s', t, pc, t);
    }
  }

  lemma CallMovesNothing(p: Program, s: State, t: Thread, a: Action, s': State)
    requires Step(p, s, t, a) == Some(s') && !a.Go?
    ensures s' == s.(stacks := s'.stacks)
  {
    hide Pushed, Popped, Advance;
  }

  lemma BeginMovesNothing(p: Program, s: State, t: Thread, s': State)
    requires s.Stack(t) != [] && (s.Top(t).pc == Begin || s.Top(t).pc == Recheck)
    requires Step(p, s, t, Go) == Some(s')
    ensures s'.installed == s.installed && s'.aside == s.aside && s'.started == s.started
  {
    hide Moved, Pushed, Popped, Released, AdvanceCall;
  }

  /** What is started or put aside has the method, and what has it is started before it is installed. */
  ghost predicate MethodsOk(p: Program, s: State) {
    && (forall c :: c in s.aside ==> c in p.hasInitialize)
    && (forall c :: c in s.started <==> c in p.hasInitialize && (c in s.installed || c in s.aside))
  }

  lemma MethodsStep(p: Program, s: State, t: Thread, a: Action, s': State)
    requires Inv(p, s) && Step(p, s, t, a) == Some(s') && MethodsOk(p, s)
    ensures MethodsOk(p, s')
  {
    hide Step, FramesOk, HoldersOk, LocksOk, InitializersOk;
    TablesMove(p, s, t, a, s');
    if s.Stack(t) != [] {
      FramesCall(p, s, t);
      UnlinkedMembers(s.aside, s.Top(t).c);
    }
  }

  /**
   In every state of every run: only classes that have the method are started and put aside;
   and a class that has it is started just if its tables are put aside or installed.
   */
  lemma {:induction false} MethodsOnly(p: Program, run: seq<State>, i: nat)
    requires Run(p, run) && i < |run|
    ensures run[i].started <= p.hasInitialize && forall c :: c in run[i].aside ==> c in p.hasInitialize
    ensures forall c :: c in p.hasInitialize ==>
      (c in run[i].started <==> c in run[i].installed || c in run[i].aside)
    ensures MethodsOk(p, run[i])
  {
    hide Step, Inv;
    if i > 0 {
      MethodsOnly(p, run, i - 1);
      assert NextState(p, run[i - 1], run[i - 1 + 1]);
      var t, a :| Step(p, run[i - 1], t, a) == Some(run[i]);
      RunInv(p, run, i - 1);
      MethodsStep(p, run[i - 1], t, a, run[i]);
    }
  }

  /**
   A marked class without the method that no call is initializing any more has its tables
   installed, and they have never been put aside, nor has any thread come to execute a method.
   */
  lemma WithoutMethod(p: Program, run: seq<State>, i: nat, c: Class)
    requires Run(p, run) && i < |run| && c in run[i].flagged && c !in p.hasInitialize
    requires forall t, j :: !IsInitializer(run[i], t, j, c)
    ensures c in run[i].installed
    ensures forall k :: 0 <= k < |run| ==> c !in run[k].aside && c !in run[k].started
    ensures forall k, t, j: nat :: 0 <= k < |run| && j < |run[k].Stack(t)| && run[k].Stack(t)[j].c == c ==>
      !PutAside(run[k].Stack(t)[j].pc)
  {
    hide Inv;
    RunInv(p, run, i);
    InvFacts(p, run[i]);
    assert c !in run[i].installed ==> Taken(c, run[i]);
    forall k | 0 <= k < |run|
      ensures c !in run[k].aside && c !in run[k].started
      ensures forall t, j: nat :: j < |run[k].Stack(t)| && run[k].Stack(t)[j].c == c ==>
        !PutAside(run[k].Stack(t)[j].pc)
    {
      MethodsOnly(p, run, k);
      RunInv(p, run, k);
      InvFacts(p, run[k]);
      forall t, j: nat | j < |run[k].Stack(t)| && run[k].Stack(t)[j].c == c
        ensures !PutAside(run[k].Stack(t)[j].pc)
      {
        FramesFact(p, run[k], t, j);
      }
    }
  }

  /** A class with the method whose tables are put aside or installed has had it executed: here is when, and by whom. */
  lemma {:induction false} MethodExecuted(p: Program, run: seq<State>, i: nat, c: Class) returns (k: nat, t: Thread)
    requires Run(p, run) && i < |run| && c in p.hasInitialize && (c in run[i].aside || c in run[i].installed)
    ensures k <= i && run[k].Stack(t) != [] && run[k].Top(t) == Frame(c, true, Running)
  {
    hide Step, Inv;
    if i > 0 {
      if c in run[i - 1].aside || c in run[i - 1].installed {
        k, t := MethodExecuted(p, run, i - 1, c);
      } else {
        assert NextState(p, run[i - 1], run[i - 1 + 1]);
        var u, a :| Step(p, run[i - 1], u, a) == Some(run[i]);
        RunInv(p, run, i - 1);
        k, t := i, u;
        EntersRunning(p, run[i - 1], u, a, run[i], c);
      }
    }
  }

  lemma EntersRunning(p: Program, s: State, t: Thread, a: Action, s': State, c: Class)
    requires Inv(p, s) && Step(p, s, t, a) == Some(s') && c in p.hasInitialize
    requires c !in s.aside && c !in s.installed && (c in s'.aside || c in s'.installed)
    ensures s'.Stack(t) != [] && s'.Top(t) == Frame(c, true, Running)
  {
    hide Step, FramesOk, HoldersOk, LocksOk, InitializersOk;
    TablesMove(p, s, t, a, s');
    if s.Stack(t) != [] {
      FramesCall(p, s, t);
      UnlinkedMembers(s.aside, s.Top(t).c);
    }
  }

  // ----- who keeps whom waiting -----

  /** The call keeps the lock it has while code of the program runs, or until the class is set up. */
  predicate Lasting(pc: Pc) {
    HoldsMeta(pc) && pc != Waited && pc != LookWaited
  }

  ghost predicate Keeps(s: State, u: Thread, o: Object) {
    exists j: nat :: KeepsAt(s, u, j, o)
  }

  predicate KeepsAt(s: State, u: Thread, j: nat, o: Object) {
    j < |s.Stack(u)| && s.Stack(u)[j].Locked() == o && Lasting(s.Stack(u)[j].pc)
  }

  /** The thread is within `@synchronized` on the object. */
  ghost predicate InSync(s: State, u: Thread, o: Object) {
    exists j: nat :: j < |s.Stack(u)| && s.Stack(u)[j] == Frame(o.c, o.meta, Synced)
  }

  /** The thread can lock the object, at once or after one step of a thread that gives it back at once. */
  ghost predicate Passes(p: Program, s: State, t: Thread, o: Object) {
    s.CanEnter(t, o) || PassesAfter(p, s, s.LockOf(o).owner, t, o)
  }

  ghost predicate PassesAfter(p: Program, s: State, u: Thread, t: Thread, o: Object) {
    && s.Stack(u) != [] && !Lasting(s.Top(u).pc)
    && Step(p, s, u, Go).Some? && Step(p, s, u, Go).value.CanEnter(t, o)
  }

  lemma {:induction false} TwoHolders(stack: seq<Frame>, i: nat, k: nat, o: Object)
    requires i < k < |stack| && stack[i].Locked() == o && HoldsMeta(stack[i].pc)
    requires stack[k].Locked() == o && HoldsMeta(stack[k].pc)
    ensures Count(stack, o) > 1
    decreases |stack|
  {
    if k == |stack| - 1 {
      HolderCounts(stack[..k], i, o);
    } else {
      TwoHolders(stack[..|stack| - 1], i, k, o);
    }
  }

  lemma KeptIsHeld(p: Program, s: State, u: Thread, j: nat, o: Object)
    requires Inv(p, s) && KeepsAt(s, u, j, o)
    ensures s.LockOf(o).Held? && s.LockOf(o).owner == u
  {
    HolderCounts(s.Stack(u), j, o);
    assert LockOk(s, o);
  }

  /** A thread that keeps a lock does not give it back with a call that only passes through. */
  lemma KeptStays(p: Program, s: State, t: Thread, u: Thread, j: nat, o: Object)
    requires Inv(p, s) && KeepsAt(s, u, j, o) && u != t
    ensures !Passes(p, s, t, o)
  {
    hide Inv, Advance, Count;
    InvFacts(p, s);
    KeptIsHeld(p, s, u, j, o);
    if PassesAfter(p, s, u, t, o) {
      var top := |s.Stack(u)| - 1;
      PassingStep(p, s, u, o);
      assert LockOk(s, o);
      if s.Top(u).Locked() == o && HoldsMeta(s.Top(u).pc) {
        TwoHolders(s.Stack(u), j, top, o);
      }
      assert false;
    }
  }

  /** What a step does to a lock that its thread has, if the last call does not keep one. */
  lemma PassingStep(p: Program, s: State, u: Thread, o: Object)
    requires s.Stack(u) != [] && !Lasting(s.Top(u).pc) && Step(p, s, u, Go).Some? && Inv(p, s)
    requires s.LockOf(o).Held? && s.LockOf(o).owner == u
    ensures var l := Step(p, s, u, Go).value.LockOf(o); var d := s.LockOf(o).depth;
      if s.Top(u).Locked() == o && HoldsMeta(s.Top(u).pc) then l == if d > 1 then Held(u, d - 1) else Free
      else l.Held? && l.owner == u
  {
    hide Inv, FramesOk, Moved, Popped, Pushed, State.CanCreate, State.HasTable, Unlinked;
    if Sends(s.Top(u).pc) {
      hide AdvanceCall;
    } else {
      hide AdvanceSend;
    }
  }

  /** A lock that no thread keeps is held by the last call of a stack, and only once. */
  lemma PassingHolder(p: Program, s: State, u: Thread, o: Object)
    requires Inv(p, s) && s.LockOf(o).Held? && s.LockOf(o).owner == u && !Keeps(s, u, o)
    ensures s.Stack(u) != [] && s.Top(u).Locked() == o && (s.Top(u).pc == Waited || s.Top(u).pc == LookWaited)
    ensures s.LockOf(o) == Held(u, 1)
  {
    assert LockOk(s, o);
    NoneBelow(p, s, u, o, |s.Stack(u)| - 1);
    var top := |s.Stack(u)| - 1;
    assert !KeepsAt(s, u, top, o);
  }

  lemma {:induction false} NoneBelow(p: Program, s: State, u: Thread, o: Object, n: nat)
    requires FramesOk(p, s) && !Keeps(s, u, o) && n < |s.Stack(u)|
    ensures Count(s.Stack(u)[..n], o) == 0
  {
    if n > 0 {
      NoneBelow(p, s, u, o, n - 1);
      assert FrameOk(p, s, u, n - 1) && !KeepsAt(s, u, n - 1, o);
      assert s.Stack(u)[..n][..n - 1] == s.Stack(u)[..n - 1];
    }
  }

  lemma PassingGives(p: Program, s: State, u: Thread, o: Object)
    requires s.Stack(u) != [] && s.Top(u).Locked() == o && (s.Top(u).pc == Waited || s.Top(u).pc == LookWaited)
    requires s.LockOf(o) == Held(u, 1)
    ensures Step(p, s, u, Go).Some? && Step(p, s, u, Go).value.LockOf(o) == Free
  {
    hide Moved, Popped;
  }

  /** A thread gets a lock at once, or after a step of the thread that has it, if and only if no other keeps it. */
  lemma WhoKeepsWaiting(p: Program, run: seq<State>, i: nat, t: Thread, o: Object)
    requires Run(p, run) && i < |run|
    ensures Passes(p, run[i], t, o) <==> forall u :: u != t ==> !Keeps(run[i], u, o)
  {
    hide Run;
    RunInv(p, run, i);
    PassesIff(p, run[i], t, o);
  }

  lemma PassesIff(p: Program, s: State, t: Thread, o: Object)
    requires Inv(p, s)
    ensures Passes(p, s, t, o) <==> forall u :: u != t ==> !Keeps(s, u, o)
  {
    hide Inv, Advance, KeepsAt;
    forall u | u != t && Keeps(s, u, o)
      ensures !Passes(p, s, t, o)
    {
      var j: nat :| KeepsAt(s, u, j, o);
      KeptStays(p, s, t, u, j, o);
    }
    var u := if s.LockOf(o).Held? then s.LockOf(o).owner else t;
    if !s.CanEnter(t, o) && !Keeps(s, u, o) {
      PassingHolder(p, s, u, o);
      PassingGives(p, s, u, o);
    }
  }

  /** What keeps the lock of a class object is `@synchronized` and nothing else. */
  lemma ClassKeepers(p: Program, s: State, u: Thread, c: Class)
    requires Inv(p, s)
    ensures Keeps(s, u, Object(c, false)) <==> InSync(s, u, Object(c, false))
  {
    var o := Object(c, false);
    if Keeps(s, u, o) {
      var j: nat :| KeepsAt(s, u, j, o);
      assert FrameOk(p, s, u, j);
    }
    if InSync(s, u, o) {
      var j: nat :| j < |s.Stack(u)| && s.Stack(u)[j] == Frame(c, false, Synced);
      assert KeepsAt(s, u, j, o);
    }
  }

  /**
   Creating the tables of a class does not block, as long as no other thread is within
   `@synchronized` on the superclass: the tables of the superclass are installed, or this
   thread has the lock of its metaclass, and gets that of the superclass itself if and only
   if no other thread is.
   */
  lemma CreationDoesNotBlock(p: Program, run: seq<State>, i: nat, t: Thread)
    requires Run(p, run) && i < |run| && run[i].Stack(t) != [] && run[i].Top(t).pc == Recheck
    ensures var c := run[i].Top(t).c;
      if c in p.sup && p.sup[c] !in run[i].installed then
        var o := Object(p.sup[c], false);
        && run[i].CanEnter(t, Object(p.sup[c], true))
        && (Step(p, run[i], t, Go).Some? <==> run[i].CanEnter(t, o))
        && (Passes(p, run[i], t, o) <==> forall u :: u != t ==> !InSync(run[i], u, o))
      else Step(p, run[i], t, Go).Some?
  {
    hide Passes, Keeps, InSync;
    var s, c := run[i], run[i].Top(t).c;
    RunInv(p, run, i);
    RecheckFinds(p, s, t);
    if c in p.sup && p.sup[c] !in s.installed {
      var j :| 0 <= j < |s.Stack(t)| - 1 && s.Stack(t)[j] == Frame(p.sup[c], true, Running);
      assert FrameOk(p, s, t, j);
      HolderCounts(s.Stack(t), j, Object(p.sup[c], true));
      assert LockOk(s, Object(p.sup[c], true));
      PassesClass(p, s, t, p.sup[c]);
    }
  }

  lemma PassesClass(p: Program, s: State, t: Thread, c: Class)
    requires Inv(p, s)
    ensures var o := Object(c, false); Passes(p, s, t, o) <==> forall u :: u != t ==> !InSync(s, u, o)
  {
    hide Passes, Keeps, InSync, Inv;
    var o := Object(c, false);
    PassesIff(p, s, t, o);
    forall u
      ensures Keeps(s, u, o) == InSync(s, u, o)
    {
      ClassKeepers(p, s, u, c);
    }
  }

  /** The step that ends an initialization takes its own entry, and no other, out of the list. */
  lemma OwnEntryRemoved(p: Program, run: seq<State>, i: nat, t: Thread) returns (n: nat)
    requires Run(p, run) && i + 1 < |run| && run[i].Stack(t) != [] && run[i].Top(t).pc == Unlinking
    requires Step(p, run[i], t, Go) == Some(run[i + 1])
    ensures var c, k := run[i].Top(t).c, |run[i + 1].aside|;
      && c in run[i].aside && c !in run[i + 1].aside && n <= k == |run[i].aside| - 1
      && run[i].aside == run[i + 1].aside[..n] + [c] + run[i + 1].aside[n..]
  {
    var c := run[i].Top(t).c;
    RunInv(p, run, i);
    assert FrameOk(p, run[i], t, |run[i].Stack(t)| - 1);
    UnlinkedMembers(run[i].aside, c);
    n := UnlinkedPlace(run[i].aside, c);
  }

  lemma {:induction false} UnlinkedPlace(list: seq<Class>, c: Class) returns (n: nat)
    requires c in list
    ensures n <= |Unlinked(list, c)| == |list| - 1
    ensures list == Unlinked(list, c)[..n] + [c] + Unlinked(list, c)[n..]
  {
    if list[0] == c {
      n := 0;
    } else {
      var m := UnlinkedPlace(list[1..], c);
      n := m + 1;
    }
  }

  /**
   Searching the tables put aside comes back without a table just if the class is not yet
   marked, so that nothing has begun for which one would have to wait.
   */
  lemma SearchAnswers(p: Program, run: seq<State>, i: nat, t: Thread)
    requires Run(p, run) && i < |run| && run[i].Stack(t) != [] && run[i].Top(t).pc == Search
    ensures run[i].HasTable(run[i].Top(t).c) <==> run[i].Top(t).c in run[i].flagged
  {
    var s, c := run[i], run[i].Top(t).c;
    RunInv(p, run, i);
    assert FrameOk(p, s, t, |s.Stack(t)| - 1);
    if c in s.flagged && c !in s.installed {
      assert Taken(c, s);
      var u, j: nat :| IsInitializer(s, u, j, c);
      assert FrameOk(p, s, u, j);
    }
  }

  /**
   A lookup of tables that another thread has put aside waits for that thread if and only
   if it asks for the metaclass, or that thread is within `@synchronized` on the class.
   */
  lemma LookupBlocks(p: Program, run: seq<State>, i: nat, t: Thread, u: Thread, j: nat)
    requires Run(p, run) && i < |run| && run[i].Stack(t) != [] && run[i].Top(t).pc == LookWait
    requires u != t && IsInitializer(run[i], u, j, run[i].Top(t).c)
    ensures var s, o := run[i], run[i].Top(t).Locked();
      && (Keeps(s, u, o) <==> o.meta || InSync(s, u, o))
      && (Keeps(s, u, o) ==> Step(p, s, t, Go).None?)
      && (!o.meta ==> (Passes(p, s, t, o) <==> forall v :: v != t ==> !InSync(s, v, o)))
  {
    hide Passes, Keeps, InSync, Inv;
    var s, o := run[i], run[i].Top(t).Locked();
    RunInv(p, run, i);
    PassesIff(p, s, t, o);
    if o.meta {
      InitializerKeeps(p, s, u, j, o.c);
    } else {
      ClassKeepers(p, s, u, o.c);
      PassesClass(p, s, t, o.c);
    }
    if Keeps(s, u, o) {
      NotPassed(p, s, t, o);
    }
  }

  lemma NotPassed(p: Program, s: State, t: Thread, o: Object)
    requires s.Stack(t) != [] && s.Top(t) == Frame(o.c, o.meta, LookWait) && !Passes(p, s, t, o)
    ensures Step(p, s, t, Go).None?
  {
  }

  lemma InitializerKeeps(p: Program, s: State, u: Thread, j: nat, c: Class)
    requires Inv(p, s) && IsInitializer(s, u, j, c)
    ensures Keeps(s, u, Object(c, true))
  {
    assert FrameOk(p, s, u, j);
    assert KeepsAt(s, u, j, Object(c, true));
  }

  /**
   A lookup that found the tables of a metaclass put aside, and has waited for its lock,
   returns only when the class is initialized, unless the thread itself initializes it.
   */
  lemma LookupWaits(p: Program, run: seq<State>, i: nat, t: Thread)
    requires Run(p, run) && i < |run| && run[i].Stack(t) != [] && run[i].Top(t).pc == LookWaited
    requires run[i].Top(t).meta
    ensures var c := run[i].Top(t).c;
      c in run[i].installed || OwnStack(run[i], t, |run[i].Stack(t)| - 1, c)
  {
    RunInv(p, run, i);
    WaitedOver(p, run[i], t);
  }

  /** So does sending `+initialize` again. */
  lemma ResendWaits(p: Program, run: seq<State>, i: nat, t: Thread)
    requires Run(p, run) && i < |run| && run[i].Stack(t) != [] && run[i].Top(t).pc == Waited
    ensures var c := run[i].Top(t).c;
      run[i].HasTable(c) && (c in run[i].installed || OwnStack(run[i], t, |run[i].Stack(t)| - 1, c))
  {
    RunInv(p, run, i);
    assert FrameOk(p, run[i], t, |run[i].Stack(t)| - 1);
    WaitedOver(p, run[i], t);
  }

  /** Only the stack of `t` is different. */
  ghost predicate OnlyOwn(stacks: Stacks, stacks': Stacks, t: Thread) {
    forall u {:trigger StackIn(stacks', u)} :: u != t ==> StackIn(stacks', u) == StackIn(stacks, u)
  }

  lemma MovedOwn(stacks: Stacks, t: Thread)
    requires StackIn(stacks, t) != []
    ensures forall pc {:trigger Moved(stacks, t, pc)} :: OnlyOwn(stacks, Moved(stacks, t, pc), t)
  {
  }

  lemma PushedOwn(stacks: Stacks, t: Thread)
    ensures forall f {:trigger Pushed(stacks, t, f)} :: OnlyOwn(stacks, Pushed(stacks, t, f), t)
  {
  }

  lemma PoppedOwn(stacks: Stacks, t: Thread)
    requires StackIn(stacks, t) != []
    ensures OnlyOwn(stacks, Popped(stacks, t), t)
  {
  }

  lemma AdvanceOwn(p: Program, s: State, t: Thread, s': State)
    requires s.Stack(t) != [] && Advance(p, s, t, s.Top(t).c, s.Top(t).pc) == Some(s')
    ensures OnlyOwn(s.stacks, s'.stacks, t)
  {
    hide Moved, Popped, Pushed, OnlyOwn, Acquired, Released, Unlinked, State.CanEnter, State.CanCreate, State.HasTable;
    MovedOwn(s.stacks, t);
    PoppedOwn(s.stacks, t);
    if s.Top(t).pc == Begin {
      if s.Top(t).c in p.sup {
        BeginOwn(p, s, t, s');
      }
    } else if Sends(s.Top(t).pc) {
      hide AdvanceCall;
    } else {
      hide AdvanceSend;
    }
  }

  lemma BeginOwn(p: Program, s: State, t: Thread, s': State)
    requires s.Stack(t) != [] && s.Top(t).pc == Begin && s.Top(t).c in p.sup
    requires Advance(p, s, t, s.Top(t).c, s.Top(t).pc) == Some(s')
    ensures OnlyOwn(s.stacks, s'.stacks, t)
  {
    hide Moved, Pushed;
    MovedOwn(s.stacks, t);
    PushedOwn(Moved(s.stacks, t, WaitSuper), t);
  }

  lemma OthersStay(p: Program, s: State, t: Thread, a: Action, s': State)
    requires Step(p, s, t, a) == Some(s')
    ensures forall u {:trigger s'.Stack(u)} :: u != t ==> s'.Stack(u) == s.Stack(u)
  {
    hide Moved, Popped, Pushed, Advance;
    PushedOwn(s.stacks, t);
    if a.Go? {
      AdvanceOwn(p, s, t, s');
    } else if a.Enough? {
      PoppedOwn(s.stacks, t);
    }
  }

  /** The last call of the thread ends between this state of the run and the next. */
  ghost predicate Ended(run: seq<State>, i: nat, t: Thread) {
    i + 1 < |run| && run[i].Stack(t) != [] && |run[i + 1].Stack(t)| < |run[i].Stack(t)|
  }

  lemma EndedBy(p: Program, run: seq<State>, i: nat, t: Thread) returns (a: Action)
    requires Run(p, run) && Ended(run, i, t)
    ensures Step(p, run[i], t, a) == Some(run[i + 1])
  {
    hide Step, Start;
    assert NextState(p, run[i], run[i + 1]);
    var u, b :| Step(p, run[i], u, b) == Some(run[i + 1]);
    OthersStay(p, run[i], u, b, run[i + 1]);
    a := b;
  }

  lemma EndsSomehow(p: Program, s: State, t: Thread, a: Action, s': State)
    requires Inv(p, s) && Step(p, s, t, a) == Some(s') && s.Stack(t) != [] && |s'.Stack(t)| < |s.Stack(t)|
    ensures s.Top(t).pc != Grow ==> a.Go? && Ends(s, s.Top(t).c, s.Top(t).pc)
  {
    hide Inv, PlainTo, Advance;
    if a.Go? {
      if s.Top(t).pc == Begin || s.Top(t).pc == Recheck {
        RecheckStays(p, s, t, s');
      } else if !Ends(s, s.Top(t).c, s.Top(t).pc) {
        var pc := Follows(s, s.Top(t).c, s.Top(t).pc, p);
        PlainMade(p, s, t, s');
        PlainStacks(p, s, t, s', pc);
        GotoTop(s, s', t, pc, t);
      }
    } else if !a.Enough? {
      Opened(p, s, t, a, s');
    }
  }

  lemma RecheckStays(p: Program, s: State, t: Thread, s': State)
    requires Inv(p, s) && s.Stack(t) != [] && (s.Top(t).pc == Begin || s.Top(t).pc == Recheck)
    requires Step(p, s, t, Go) == Some(s')
    ensures |s'.Stack(t)| >= |s.Stack(t)|
  {
    hide Inv;
    if s.Top(t).pc == Recheck {
      RecheckFinds(p, s, t);
      GotoStacks(s, t, Created);
    } else {
      GotoStacks(s, t, WaitSuper);
      GotoStacks(s, t, Runtime);
    }
  }

  lemma Opened(p: Program, s: State, t: Thread, a: Action, s': State)
    requires Step(p, s, t, a) == Some(s') && !a.Go? && !a.Enough?
    ensures |s'.Stack(t)| == |s.Stack(t)| + 1
  {
  }

  /**
   Sending `+initialize` to a class returns only when the class is done, or to the method
   of this class that runs further down on the same stack.
   */
  lemma SendReturns(p: Program, run: seq<State>, i: nat, t: Thread)
    requires Run(p, run) && Ended(run, i, t) && Sends(run[i].Top(t).pc)
    ensures var c := run[i].Top(t).c; c in run[i].installed || OwnStack(run[i], t, |run[i].Stack(t)| - 1, c)
  {
    hide Inv, Step, Run;
    RunInv(p, run, i);
    var a := EndedBy(p, run, i, t);
    EndsSomehow(p, run[i], t, a, run[i + 1]);
    GoAdvances(p, run[i], t, run[i + 1]);
    ReturnEffect(p, run[i], t, run[i + 1]);
  }

  lemma GoAdvances(p: Program, s: State, t: Thread, s': State)
    requires s.Stack(t) != [] && Step(p, s, t, Go) == Some(s')
    ensures Advance(p, s, t, s.Top(t).c, s.Top(t).pc) == Some(s')
  {
  }

  predicate LooksUp(pc: Pc) {
    pc == Look || pc == Search || pc == LookWait || pc == LookWaited
  }

  /**
   A lookup returns only if the class is done, or not even marked, or if it has waited for
   the lock; and one of a metaclass then finds the class done, or its method further down on
   the same stack.
   */
  lemma LookupReturns(p: Program, run: seq<State>, i: nat, t: Thread)
    requires Run(p, run) && Ended(run, i, t) && LooksUp(run[i].Top(t).pc)
    ensures var f, s := run[i].Top(t), run[i];
      || f.c in s.installed || f.c !in s.flagged
      || (f.pc == LookWaited && (f.meta ==> OwnStack(s, t, |s.Stack(t)| - 1, f.c)))
  {
    hide Inv, Step, Run;
    RunInv(p, run, i);
    var a := EndedBy(p, run, i, t);
    EndsSomehow(p, run[i], t, a, run[i + 1]);
    if run[i].Top(t).pc == Search {
      SearchAnswers(p, run, i, t);
    } else if run[i].Top(t).pc == LookWaited && run[i].Top(t).meta {
      LookupWaits(p, run, i, t);
    }
  }

  // ----- nothing waits but for another thread -----

  /** The thread needs a lock that another thread has. */
  ghost predicate WaitsForOther(p: Program, s: State, t: Thread)
    requires s.Stack(t) != []
  {
    var f := s.Top(t);
    match f.pc
    case Runtime => s.runtime.Some? && s.runtime != Some(t)
    case Grow => s.runtime.Some? && s.runtime != Some(t)
    case Init => s.init.Some? && s.init != Some(t)
    case Remove => s.init.Some? && s.init != Some(t)
    case Look => s.init.Some? && s.init != Some(t)
    case Growing => s.init.Some? && s.init != Some(t)
    case Wait => HeldByOther(s, t, f.Locked())
    case Meta => HeldByOther(s, t, f.Locked())
    case LookWait => HeldByOther(s, t, f.Locked())
    case Sync => HeldByOther(s, t, f.Locked())
    case Recheck => f.c in p.sup && HeldByOther(s, t, Object(p.sup[f.c], false))
    case _ => false
  }

  predicate HeldByOther(s: State, t: Thread, o: Object) {
    s.LockOf(o).Held? && s.LockOf(o).owner != t
  }

  /** In every state of every run, a thread with a call that is not over can go on, or needs a lock that another has. */
  lemma GoesOnOrWaits(p: Program, run: seq<State>, i: nat, t: Thread)
    requires Run(p, run) && i < |run| && run[i].Stack(t) != []
    ensures Step(p, run[i], t, Go).Some? || WaitsForOther(p, run[i], t)
  {
    hide Run, Inv;
    var s := run[i];
    RunInv(p, run, i);
    InvFacts(p, s);
    FramesFact(p, s, t, |s.Stack(t)| - 1);
    if s.Top(t).pc == Recheck {
      CreationDoesNotBlock(p, run, i, t);
    } else {
      Enabled(p, s, t);
    }
  }

  lemma Enabled(p: Program, s: State, t: Thread)
    requires s.Stack(t) != [] && HoldersOk(s) && FrameOk(p, s, t, |s.Stack(t)| - 1) && s.Top(t).pc != Recheck
    ensures Step(p, s, t, Go).Some? || WaitsForOther(p, s, t)
  {
    hide Moved, Pushed, Popped, Acquired, Released, Unlinked, CallOk, SuperOk, LockIn;
    if !Sends(s.Top(t).pc) {
      hide AdvanceSend;
    } else {
      hide AdvanceCall;
    }
  }
}
