/**
 Every kind of step keeps the invariant of the `+initialize` protocol: steps that take the
 last call of a stack on, calls that begin and calls that end.
 */
module InitializeSteps {
  import opened Wrappers
  import opened InitializeProtocol

  // ----- what a step does to the stacks -----

  lemma GotoStacks(s: State, t: Thread, pc: Pc)
    requires s.Stack(t) != []
    ensures var s' := s.Goto(t, pc); var top := |s.Stack(t)| - 1;
      && (forall u {:trigger s'.Stack(u)} :: u != t ==> s'.Stack(u) == s.Stack(u))
      && |s'.Stack(t)| == top + 1 && s'.Stack(t)[..top] == s.Stack(t)[..top] && s'.Stack(t)[top] == s.Top(t).(pc := pc)
      && (forall o {:trigger Count(s'.Stack(t), o)} ::
            Count(s'.Stack(t), o) + (if HoldsMeta(s.Top(t).pc) && s.Top(t).Locked() == o then 1 else 0) ==
            Count(s.Stack(t), o) + if HoldsMeta(pc) && s.Top(t).Locked() == o then 1 else 0)
  {
  }

  /** The top call has moved on from `s.Top(t).pc` to `pc`; all other calls rely on what they relied on. */
  ghost predicate Goes(p: Program, s: State, s': State, t: Thread, pc: Pc) {
    && s.Stack(t) != [] && s'.stacks == s.Goto(t, pc).stacks
    && Sends(s.Top(t).pc) == Sends(pc) && pc != WaitSuper && s.Top(t).pc != WaitSuper
    && CallOk(s', t, s.Top(t).(pc := pc)) && (PastSuper(pc) ==> SuperOk(p, s, t, |s.Stack(t)| - 1, s.Top(t).c))
    && s.installed <= s'.installed
    && (forall u, i: nat {:trigger FrameOk(p, s, u, i)} ::
          i < |s.Stack(u)| && !(u == t && i == |s.Stack(t)| - 1) ==> CallOk(s', u, s.Stack(u)[i]))
  }

  lemma GoesFrames(p: Program, s: State, s': State, t: Thread, pc: Pc)
    requires FramesOk(p, s) && Goes(p, s, s', t, pc)
    ensures FramesOk(p, s')
  {
    GotoStacks(s, t, pc);
    var top := |s.Stack(t)| - 1;
    forall u, i: nat | i < |s'.Stack(u)|
      ensures FrameOk(p, s', u, i)
    {
      assert FrameOk(p, s, u, i);
      assert i < top ==> s'.Stack(t)[i] == s'.Stack(t)[..top][i] == s.Stack(t)[i];
      if SuperOk(p, s, u, i, s.Stack(u)[i].c) {
        SuperKept(p, s, s', u, i, s.Stack(u)[i].c);
      }
    }
  }

  /** Being able to rely on the superclass depends on what is below on the stack. */
  lemma SuperKept(p: Program, s: State, s': State, u: Thread, i: nat, c: Class)
    requires SuperOk(p, s, u, i, c) && s.installed <= s'.installed
    requires i <= |s.Stack(u)| && i <= |s'.Stack(u)| && s'.Stack(u)[..i] == s.Stack(u)[..i]
    ensures SuperOk(p, s', u, i, c)
  {
    if c in p.sup && p.sup[c] !in s'.installed {
      var j :| 0 <= j < i && j < |s.Stack(u)| && s.Stack(u)[j] == Frame(p.sup[c], true, Running);
      assert s'.Stack(u)[j] == s'.Stack(u)[..i][j];
    }
  }

  lemma GoesLocks(s: State, s': State, t: Thread, pc: Pc)
    requires s.Stack(t) != [] && s'.stacks == s.Goto(t, pc).stacks && LocksOk(s)
    requires if HoldsMeta(s.Top(t).pc) == HoldsMeta(pc) then s'.locks == s.locks
      else HoldsMeta(pc) && s.CanEnter(t, s.Top(t).Locked()) && s'.locks == Acquired(s.locks, t, s.Top(t).Locked())
    ensures LocksOk(s')
  {
    hide Count;
    forall o
      ensures LockOk(s', o)
    {
      assert LockOk(s, o);
      forall u {:trigger s'.Stack(u)}
        ensures Count(s'.Stack(u), o) == Count(s.Stack(u), o) +
          if u == t && o == s.Top(t).Locked() && HoldsMeta(pc) && !HoldsMeta(s.Top(t).pc) then 1 else 0
      {
        GotoCount(s, s', t, pc, u, o);
      }
    }
  }

  lemma GotoCount(s: State, s': State, t: Thread, pc: Pc, u: Thread, o: Object)
    requires s.Stack(t) != [] && s'.stacks == s.Goto(t, pc).stacks && (HoldsMeta(s.Top(t).pc) ==> HoldsMeta(pc))
    ensures Count(s'.Stack(u), o) == Count(s.Stack(u), o) +
      if u == t && o == s.Top(t).Locked() && HoldsMeta(pc) && !HoldsMeta(s.Top(t).pc) then 1 else 0
  {
    GotoStacks(s, t, pc);
    if u == t {
      var top := |s.Stack(t)| - 1;
      assert s'.Stack(t)[..top] == s.Stack(t)[..top];
    }
  }

  lemma GoesInitializers(s: State, s': State, t: Thread, pc: Pc)
    requires s.Stack(t) != [] && s'.stacks == s.Goto(t, pc).stacks && InitializersOk(s)
    requires Initializes(s.Top(t).pc) == Initializes(pc)
    requires s'.flagged == s.flagged && s.installed <= s'.installed
    ensures InitializersOk(s')
  {
    GotoStacks(s, t, pc);
    forall u, i: nat, c
      ensures IsInitializer(s', u, i, c) == IsInitializer(s, u, i, c)
    {
      GotoFrame(s, t, pc, u, i);
    }
    forall c | c in s'.flagged && c !in s'.installed
      ensures Taken(c, s')
    {
      assert Taken(c, s);
      var u, i: nat :| IsInitializer(s, u, i, c);
      assert IsInitializer(s', u, i, c);
    }
  }

  lemma GotoFrame(s: State, t: Thread, pc: Pc, u: Thread, i: nat)
    requires s.Stack(t) != []
    ensures var s' := s.Goto(t, pc);
      && |s'.Stack(u)| == |s.Stack(u)|
      && (i < |s.Stack(u)| ==>
            s'.Stack(u)[i] == if u == t && i == |s.Stack(t)| - 1 then s.Top(t).(pc := pc) else s.Stack(u)[i])
  {
  }

  /** A call that has moved on, while nothing changed that other calls rely on. */
  lemma GoesInv(p: Program, s: State, s': State, t: Thread, pc: Pc)
    requires Inv(p, s) && Goes(p, s, s', t, pc) && HoldersOk(s') && SetsOk(s') && !s'.fault
    requires if HoldsMeta(s.Top(t).pc) == HoldsMeta(pc) then s'.locks == s.locks
      else HoldsMeta(pc) && s.CanEnter(t, s.Top(t).Locked()) && s'.locks == Acquired(s.locks, t, s.Top(t).Locked())
    requires Initializes(s.Top(t).pc) == Initializes(pc) && s'.flagged == s.flagged
    ensures Inv(p, s')
  {
    hide FramesOk, LocksOk, InitializersOk, SetsOk, HoldersOk;
    GoesFrames(p, s, s', t, pc);
    GoesLocks(s, s', t, pc);
    GoesInitializers(s, s', t, pc);
  }

  /** Only one call can hold the runtime lock, and it is the last one on its stack. */
  lemma OneHolder(p: Program, s: State, u: Thread, i: nat)
    requires FramesOk(p, s) && i < |s.Stack(u)|
    ensures HoldsRuntime(s.Stack(u)[i].pc) ==> s.runtime == Some(u) && i == |s.Stack(u)| - 1
    ensures HoldsInit(s.Stack(u)[i].pc) ==> s.init == Some(u) && i == |s.Stack(u)| - 1
    ensures CallOk(s, u, s.Stack(u)[i])
  {
    assert FrameOk(p, s, u, i);
  }

  /** Only one call can be initializing a class. */
  lemma OneInitializer(s: State, u: Thread, i: nat, t: Thread, j: nat)
    requires InitializersOk(s) && i < |s.Stack(u)| && j < |s.Stack(t)| && s.Stack(u)[i].c == s.Stack(t)[j].c
    requires Initializes(s.Stack(u)[i].pc) && Initializes(s.Stack(t)[j].pc)
    ensures u == t && i == j
  {
    assert IsInitializer(s, u, i, s.Stack(u)[i].c) && IsInitializer(s, t, j, s.Stack(u)[i].c);
  }

  predicate Plain(pc: Pc) {
    && pc != Begin && pc != WaitSuper && pc != Waited && pc != Recheck && pc != Release
    && pc != LookWaited && pc != Synced && pc != GrowInstalled
  }

  /** The steps that take the last call on without ending it, and that start no initialization. */
  lemma PlainStep(p: Program, s: State, t: Thread, s': State, pc: Pc)
    requires Inv(p, s) && PlainTo(p, s, t, s', pc)
    ensures Inv(p, s')
  {
    hide *;
    InvFacts(p, s);
    PlainGoes(p, s, t, s', pc);
    PlainRest(p, s, t, s', pc);
    PlainSets(p, s, t, s', pc);
    GoesInv(p, s, s', t, pc);
  }

  ghost predicate PlainTo(p: Program, s: State, t: Thread, s': State, pc: Pc) {
    && s.Stack(t) != [] && Plain(s.Top(t).pc) && Advance(p, s, t, s.Top(t).c, s.Top(t).pc) == Some(s')
    && pc == Follows(s, s.Top(t).c, s.Top(t).pc, p)
    && (s.Top(t).pc == Look ==> s.Top(t).c !in s.installed)
    && (s.Top(t).pc == Search ==> s.Top(t).c !in s.installed && s.Top(t).c in s.aside)
  }

  lemma PlainStacks(p: Program, s: State, t: Thread, s': State, pc: Pc)
    requires PlainTo(p, s, t, s', pc)
    ensures s'.stacks == s.Goto(t, pc).stacks && Plain(s.Top(t).pc) && s.Stack(t) != []
  {
    hide Moved, Popped, Pushed, Unlinked, Acquired, Released, State.CanEnter, State.HasTable;
    if Sends(s.Top(t).pc) {
      hide AdvanceCall, FollowsCall;
    } else {
      PlainCall(p, s, t, s', pc);
    }
  }

  /** Calls other than those that send `+initialize` only take and give back locks. */
  lemma PlainCall(p: Program, s: State, t: Thread, s': State, pc: Pc)
    requires PlainTo(p, s, t, s', pc) && !Sends(s.Top(t).pc)
    ensures s' == s.(stacks := s.Goto(t, pc).stacks, locks := s'.locks, runtime := s'.runtime, init := s'.init)
    ensures !Sends(pc) && !Initializes(pc) && !Initializes(s.Top(t).pc)
    ensures pc == LookWait ==> s.Top(t).c in s.aside
    ensures pc == LookWaited ==> s.Top(t).pc == LookWait
  {
    hide Moved, Popped, Acquired, Released, State.CanEnter, AdvanceSend, FollowsSend, StackIn, LockIn;
  }

  lemma PlainCallLocks(p: Program, s: State, t: Thread, s': State, pc: Pc)
    requires PlainTo(p, s, t, s', pc) && !Sends(s.Top(t).pc)
    ensures if HoldsMeta(s.Top(t).pc) == HoldsMeta(pc) then s'.locks == s.locks
      else HoldsMeta(pc) && s.CanEnter(t, s.Top(t).Locked()) && s'.locks == Acquired(s.locks, t, s.Top(t).Locked())
  {
    hide AdvanceCall, AdvanceSend, FollowsCall, FollowsSend, HoldsMeta, Acquired, Moved, State.CanEnter;
    CallHolds(s.Top(t).pc);
    CallLocks(s, t, s');
  }

  /** Which calls have locked their object after they have moved on. */
  lemma CallHolds(pc: Pc)
    requires !Sends(pc) && Plain(pc)
    ensures !HoldsMeta(pc) && (HoldsMeta(FollowsCall(pc)) <==> pc == LookWait || pc == Sync)
  {
  }

  lemma CallLocks(s: State, t: Thread, s': State)
    requires s.Stack(t) != [] && !Sends(s.Top(t).pc) && Plain(s.Top(t).pc)
    requires AdvanceCall(s, t, s.Top(t).c, s.Top(t).pc) == Some(s')
    ensures if s.Top(t).pc == LookWait || s.Top(t).pc == Sync then
        s.CanEnter(t, s.Top(t).Locked()) && s'.locks == Acquired(s.locks, t, s.Top(t).Locked())
      else s'.locks == s.locks
  {
    hide Moved, Popped, Acquired, Released, State.CanEnter, StackIn, LockIn;
  }

  lemma PlainCallGlobals(p: Program, s: State, t: Thread, s': State, pc: Pc)
    requires PlainTo(p, s, t, s', pc) && !Sends(s.Top(t).pc)
    ensures if HoldsRuntime(s.Top(t).pc) == HoldsRuntime(pc) then s'.runtime == s.runtime
      else HoldsRuntime(pc) && s.runtime.None? && s'.runtime == Some(t)
    ensures if HoldsInit(s.Top(t).pc) == HoldsInit(pc) then s'.init == s.init
      else if HoldsInit(pc) then s.init.None? && s'.init == Some(t) else s'.init.None?
  {
    hide Moved, Popped, Acquired, Released, State.CanEnter, AdvanceSend, FollowsSend, HoldsMeta, State.HasTable;
  }

  lemma InvFacts(p: Program, s: State)
    requires Inv(p, s)
    ensures !s.fault && FramesOk(p, s) && HoldersOk(s) && LocksOk(s) && InitializersOk(s) && SetsOk(s)
  {
  }

  lemma PlainSets(p: Program, s: State, t: Thread, s': State, pc: Pc)
    requires PlainTo(p, s, t, s', pc) && SetsOk(s) && FramesOk(p, s)
    ensures SetsOk(s') && !s'.fault == !s.fault
  {
    hide *;
    PlainStacks(p, s, t, s', pc);
    FramesCall(p, s, t);
    CallSets(s, t);
    PlainMoves(p, s, t, s', pc);
    if s.Top(t).pc == Decide {
      DecidedSets(p, s, s', s.Top(t).c);
    } else if s.Top(t).pc == Unlinking {
      UnlinkedSets(s, s', s.Top(t).c);
    } else {
      SameSets(s, s');
    }
  }

  lemma FramesCall(p: Program, s: State, t: Thread)
    requires FramesOk(p, s) && s.Stack(t) != []
    ensures CallOk(s, t, s.Top(t))
  {
    assert FrameOk(p, s, t, |s.Stack(t)| - 1);
  }

  lemma CallSets(s: State, t: Thread)
    requires s.Stack(t) != [] && CallOk(s, t, s.Top(t))
    ensures s.Top(t).pc == Decide || s.Top(t).pc == Unlinking ==> s.Top(t).c in s.flagged
    ensures s.Top(t).pc == Decide ==> s.Top(t).c !in s.installed && s.Top(t).c !in s.aside
  {
  }

  /** Where the tables of a class are changes twice: when they are put aside, and when they are installed. */
  lemma PlainMoves(p: Program, s: State, t: Thread, s': State, pc: Pc)
    requires PlainTo(p, s, t, s', pc)
    ensures s'.flagged == s.flagged && s'.fault == s.fault
    ensures s.Top(t).pc == Decide ==> Decided(p, s, s', s.Top(t).c)
    ensures s.Top(t).pc == Unlinking ==> s'.installed == s.installed + {s.Top(t).c}
    ensures s.Top(t).pc == Unlinking ==> s'.started == s.started && s'.aside == Unlinked(s.aside, s.Top(t).c)
    ensures s.Top(t).pc != Decide && s.Top(t).pc != Unlinking ==>
      s'.installed == s.installed && s'.aside == s.aside && s'.started == s.started
  {
    hide Moved, Popped, Acquired, Released, Unlinked, State.CanEnter, State.HasTable;
    if Sends(s.Top(t).pc) {
      hide AdvanceCall, FollowsCall, Follows;
    } else {
      PlainCall(p, s, t, s', pc);
    }
  }

  /** A class with the method is put aside and its method started; another is installed at once. */
  ghost predicate Decided(p: Program, s: State, s': State, c: Class) {
    if c in p.hasInitialize then
      s'.installed == s.installed && s'.aside == [c] + s.aside && s'.started == s.started + {c}
    else s'.installed == s.installed + {c} && s'.aside == s.aside && s'.started == s.started
  }

  lemma DecidedSets(p: Program, s: State, s': State, c: Class)
    requires SetsOk(s) && Decided(p, s, s', c) && c in s.flagged && c !in s.installed && c !in s.aside
    requires s'.flagged == s.flagged
    ensures SetsOk(s')
  {
  }

  lemma UnlinkedSets(s: State, s': State, c: Class)
    requires SetsOk(s) && c in s.flagged && s'.flagged == s.flagged
    requires s'.installed == s.installed + {c} && s'.started == s.started && s'.aside == Unlinked(s.aside, c)
    ensures SetsOk(s')
  {
    UnlinkedMembers(s.aside, c);
    UnlinkedDistinct(s.aside, c);
  }

  lemma PlainRest(p: Program, s: State, t: Thread, s': State, pc: Pc)
    requires PlainTo(p, s, t, s', pc) && HoldersOk(s) && FramesOk(p, s)
    ensures HoldersOk(s')
    ensures if HoldsMeta(s.Top(t).pc) == HoldsMeta(pc) then s'.locks == s.locks
      else HoldsMeta(pc) && s.CanEnter(t, s.Top(t).Locked()) && s'.locks == Acquired(s.locks, t, s.Top(t).Locked())
    ensures Initializes(s.Top(t).pc) == Initializes(pc) && s'.flagged == s.flagged
  {
    hide Advance, Follows, PlainTo, Moved, FramesOk, HoldsRuntime, HoldsInit, CallOk;
    PlainLocks(p, s, t, s', pc);
    PlainStacks(p, s, t, s', pc);
    OneHolder(p, s, t, |s.Stack(t)| - 1);
    if s.runtime.Some? {
      GotoTop(s, s', t, pc, s.runtime.value);
    }
    if s.init.Some? {
      GotoTop(s, s', t, pc, s.init.value);
    }
    GotoTop(s, s', t, pc, t);
    TopHolds(s, t);
  }

  lemma TopHolds(s: State, t: Thread)
    requires s.Stack(t) != [] && CallOk(s, t, s.Top(t))
    ensures HoldsRuntime(s.Top(t).pc) ==> s.runtime == Some(t)
    ensures HoldsInit(s.Top(t).pc) ==> s.init == Some(t)
    ensures s.Top(t).pc == Release ==> s.Top(t).c in s.installed
  {
  }

  lemma GotoTop(s: State, s': State, t: Thread, pc: Pc, u: Thread)
    requires s.Stack(t) != [] && s'.stacks == s.Goto(t, pc).stacks
    ensures |s'.Stack(u)| == |s.Stack(u)|
    ensures s.Stack(u) != [] ==> s'.Top(u) == if u == t then s.Top(t).(pc := pc) else s.Top(u)
  {
  }

  /** The locks that a step takes or gives back, and those that it leaves alone. */
  lemma PlainLocks(p: Program, s: State, t: Thread, s': State, pc: Pc)
    requires PlainTo(p, s, t, s', pc)
    ensures if HoldsMeta(s.Top(t).pc) == HoldsMeta(pc) then s'.locks == s.locks
      else HoldsMeta(pc) && s.CanEnter(t, s.Top(t).Locked()) && s'.locks == Acquired(s.locks, t, s.Top(t).Locked())
    ensures Initializes(s.Top(t).pc) == Initializes(pc) && s'.flagged == s.flagged
    ensures if HoldsRuntime(s.Top(t).pc) == HoldsRuntime(pc) then s'.runtime == s.runtime
      else if HoldsRuntime(pc) then s.runtime.None? && s'.runtime == Some(t) else s'.runtime.None?
    ensures if HoldsInit(s.Top(t).pc) == HoldsInit(pc) then s'.init == s.init
      else if HoldsInit(pc) then s.init.None? && s'.init == Some(t) else s'.init.None?
  {
    hide *;
    PlainMetaLocks(p, s, t, s', pc);
    PlainGlobalLocks(p, s, t, s', pc);
  }

  lemma PlainMetaLocks(p: Program, s: State, t: Thread, s': State, pc: Pc)
    requires PlainTo(p, s, t, s', pc)
    ensures if HoldsMeta(s.Top(t).pc) == HoldsMeta(pc) then s'.locks == s.locks
      else HoldsMeta(pc) && s.CanEnter(t, s.Top(t).Locked()) && s'.locks == Acquired(s.locks, t, s.Top(t).Locked())
    ensures Initializes(s.Top(t).pc) == Initializes(pc) && s'.flagged == s.flagged
  {
    hide Advance, Follows, HoldsMeta, Acquired, Moved;
    if Sends(s.Top(t).pc) {
      SendLocks(p, s, t, s', pc);
    } else {
      PlainCall(p, s, t, s', pc);
      PlainCallLocks(p, s, t, s', pc);
    }
  }

  lemma SendLocks(p: Program, s: State, t: Thread, s': State, pc: Pc)
    requires PlainTo(p, s, t, s', pc) && Sends(s.Top(t).pc)
    ensures if HoldsMeta(s.Top(t).pc) == HoldsMeta(pc) then s'.locks == s.locks
      else HoldsMeta(pc) && s.CanEnter(t, s.Top(t).Locked()) && s'.locks == Acquired(s.locks, t, s.Top(t).Locked())
    ensures Initializes(s.Top(t).pc) == Initializes(pc) && s'.flagged == s.flagged
  {
    hide AdvanceCall, AdvanceSend, FollowsCall, FollowsSend, HoldsMeta, Initializes, Acquired, Moved, State.CanEnter;
    SendHolds(s, s.Top(t).c, s.Top(t).pc, p);
    SendsLock(p, s, t, s');
  }

  lemma SendHolds(s: State, c: Class, pc: Pc, p: Program)
    requires Sends(pc) && Plain(pc)
    ensures var next := FollowsSend(s, c, pc, p);
      && Initializes(pc) == Initializes(next)
      && (HoldsMeta(pc) == HoldsMeta(next) <==> pc != Wait && pc != Meta)
      && (pc == Wait || pc == Meta ==> HoldsMeta(next))
  {
  }

  lemma SendsLock(p: Program, s: State, t: Thread, s': State)
    requires s.Stack(t) != [] && Sends(s.Top(t).pc) && Plain(s.Top(t).pc)
    requires AdvanceSend(p, s, t, s.Top(t).c, s.Top(t).pc) == Some(s')
    ensures s'.flagged == s.flagged
    ensures if s.Top(t).pc == Wait || s.Top(t).pc == Meta then
        s.CanEnter(t, s.Top(t).Locked()) && s'.locks == Acquired(s.locks, t, s.Top(t).Locked())
      else s'.locks == s.locks
  {
    hide Unlinked, Moved, Popped, Acquired, Released, State.CanEnter, State.HasTable, State.CanCreate, StackIn, LockIn;
  }

  lemma PlainGlobalLocks(p: Program, s: State, t: Thread, s': State, pc: Pc)
    requires PlainTo(p, s, t, s', pc)
    ensures if HoldsRuntime(s.Top(t).pc) == HoldsRuntime(pc) then s'.runtime == s.runtime
      else if HoldsRuntime(pc) then s.runtime.None? && s'.runtime == Some(t) else s'.runtime.None?
    ensures if HoldsInit(s.Top(t).pc) == HoldsInit(pc) then s'.init == s.init
      else if HoldsInit(pc) then s.init.None? && s'.init == Some(t) else s'.init.None?
  {
    hide Unlinked, Count, Moved, Popped, Acquired, Released, State.CanEnter, HoldsMeta, Initializes, State.HasTable;
    if Sends(s.Top(t).pc) {
      hide AdvanceCall, FollowsCall;
    } else {
      PlainCall(p, s, t, s', pc);
      PlainCallGlobals(p, s, t, s', pc);
    }
  }

  lemma PlainGoes(p: Program, s: State, t: Thread, s': State, pc: Pc)
    requires PlainTo(p, s, t, s', pc) && FramesOk(p, s) && InitializersOk(s) && SetsOk(s)
    ensures Goes(p, s, s', t, pc)
  {
    hide Unlinked, Count, SuperOk, InitializersOk, FramesOk, PlainTo, Advance, Follows, CallOk;
    PlainStacks(p, s, t, s', pc);
    var top := |s.Stack(t)| - 1;
    forall u, i: nat | i < |s.Stack(u)| && !(u == t && i == top)
      ensures CallOk(s', u, s.Stack(u)[i])
    {
      PlainOther(p, s, t, s', pc, u, i);
    }
    PlainTop(p, s, t, s', pc);
  }

  lemma PlainTop(p: Program, s: State, t: Thread, s': State, pc: Pc)
    requires PlainTo(p, s, t, s', pc) && FramesOk(p, s) && SetsOk(s)
    ensures CallOk(s', t, s.Top(t).(pc := pc)) && (PastSuper(pc) ==> SuperOk(p, s, t, |s.Stack(t)| - 1, s.Top(t).c))
    ensures Sends(s.Top(t).pc) == Sends(pc) && s.installed <= s'.installed && pc != WaitSuper
  {
    hide Count, SuperOk, ShapeOk, Unlinked, PlainTo, Advance, Follows, SetsOk, FramesOk, Moved;
    var top := |s.Stack(t)| - 1;
    PlainStacks(p, s, t, s', pc);
    FramesFact(p, s, t, top);
    PlainLocks(p, s, t, s', pc);
    PlainSorts(p, s, t, s', pc);
  }

  /** What the call relies on, apart from the locks. */
  lemma PlainSorts(p: Program, s: State, t: Thread, s': State, pc: Pc)
    requires PlainTo(p, s, t, s', pc) && SetsOk(s) && CallOk(s, t, s.Top(t))
    ensures Sends(s.Top(t).pc) == Sends(pc) && PastSuper(s.Top(t).pc) == PastSuper(pc) && pc != WaitSuper
    ensures s.installed <= s'.installed
    ensures var c := s.Top(t).c;
      && (pc == Meta || pc == Init || pc == Recheck ==> c !in s'.flagged)
      && (Initializes(pc) ==> c in s'.flagged) && (pc == Release ==> c in s'.installed)
      && (PutAside(pc) ==> c in s'.aside)
      && (pc == Created || pc == Decide ==> c !in s'.installed && c !in s'.aside && c !in s'.started)
      && (pc == Wait || pc == Waited || pc == LookWait || pc == LookWaited ==> c in s'.flagged)
  {
    hide Advance, Follows, CallOk, PastSuper, Initializes, PutAside, SetsOk;
    FollowsKinds(s, s.Top(t).c, s.Top(t).pc, p);
    PlainChange(p, s, t, s', pc);
    if Sends(s.Top(t).pc) {
      SendSorts(p, s, t, s', pc);
    } else {
      CallSorts(p, s, t, s', pc);
    }
  }

  lemma FollowsKinds(s: State, c: Class, pc: Pc, p: Program)
    requires Plain(pc)
    ensures var next := Follows(s, c, pc, p);
      Sends(pc) == Sends(next) && PastSuper(pc) == PastSuper(next) && next != WaitSuper
  {
  }

  lemma CallSorts(p: Program, s: State, t: Thread, s': State, pc: Pc)
    requires PlainTo(p, s, t, s', pc) && SetsOk(s) && CallOk(s, t, s.Top(t)) && !Sends(s.Top(t).pc)
    ensures !Sends(pc) && !Initializes(pc) && !PutAside(pc)
    ensures pc == LookWait || pc == LookWaited ==> s.Top(t).c in s'.flagged
  {
    hide Advance, Follows, HoldsRuntime, HoldsInit;
    PlainCall(p, s, t, s', pc);
  }

  lemma SendSorts(p: Program, s: State, t: Thread, s': State, pc: Pc)
    requires PlainTo(p, s, t, s', pc) && SetsOk(s) && CallOk(s, t, s.Top(t)) && Sends(s.Top(t).pc)
    ensures var c := s.Top(t).c;
      && (pc == Meta || pc == Init || pc == Recheck ==> c !in s'.flagged)
      && (Initializes(pc) ==> c in s'.flagged) && (pc == Release ==> c in s'.installed)
      && (PutAside(pc) ==> c in s'.aside)
      && (pc == Created || pc == Decide ==> c !in s'.installed && c !in s'.aside && c !in s'.started)
      && (pc == Wait || pc == Waited ==> c in s'.flagged)
  {
    hide Unlinked, HoldsRuntime, HoldsInit, Moved, State.CanEnter, Popped, Acquired, Released, HoldsMeta, AdvanceCall,
      FollowsCall, PastSuper;
  }

  lemma PlainOther(p: Program, s: State, t: Thread, s': State, pc: Pc, u: Thread, i: nat)
    requires PlainTo(p, s, t, s', pc) && FramesOk(p, s) && InitializersOk(s) && SetsOk(s)
    requires i < |s.Stack(u)| && !(u == t && i == |s.Stack(t)| - 1)
    ensures CallOk(s', u, s.Stack(u)[i])
  {
    hide Count, SuperOk, FramesOk, InitializersOk, PlainTo, Advance, Follows, Unlinked, ShapeOk, CallOk, HoldsRuntime,
      HoldsInit, Initializes, SetsOk, Moved;
    var top := |s.Stack(t)| - 1;
    PlainStacks(p, s, t, s', pc);
    PlainLocks(p, s, t, s', pc);
    PlainChange(p, s, t, s', pc);
    OneHolder(p, s, u, i);
    OneHolder(p, s, t, top);
    if Initializes(s.Stack(u)[i].pc) && Initializes(s.Top(t).pc) && s.Stack(u)[i].c == s.Top(t).c {
      OneInitializer(s, u, i, t, top);
    }
    CallStays(s, s', u, s.Stack(u)[i]);
  }

  /** A call can go on relying on what has not changed. */
  lemma CallStays(s: State, s': State, u: Thread, f: Frame)
    requires CallOk(s, u, f) && s'.flagged == s.flagged
    requires (HoldsRuntime(f.pc) ==> s'.runtime == s.runtime) && (HoldsInit(f.pc) ==> s'.init == s.init)
    requires Initializes(f.pc) ==>
      && (f.c in s'.aside <==> f.c in s.aside) && (f.c in s'.installed <==> f.c in s.installed)
      && (f.c in s'.started <==> f.c in s.started)
    ensures CallOk(s', u, f)
  {
    hide HoldsRuntime, HoldsInit;
  }

  /** Only the call that initializes a class changes where its tables are. */
  lemma PlainChange(p: Program, s: State, t: Thread, s': State, pc: Pc)
    requires PlainTo(p, s, t, s', pc) && SetsOk(s)
    ensures s.installed <= s'.installed && s.started <= s'.started
    ensures var c := s.Top(t).c;
      forall d {:trigger d in s'.aside} {:trigger d in s'.installed} {:trigger d in s'.started} ::
      d != c || !Initializes(s.Top(t).pc) ==>
        && (d in s'.aside <==> d in s.aside)
        && (d in s'.installed <==> d in s.installed)
        && (d in s'.started <==> d in s.started)
  {
    hide Moved, Popped, Acquired, Released, Unlinked, State.CanEnter;
    if Sends(s.Top(t).pc) {
      hide AdvanceCall, FollowsCall, Follows;
      UnlinkedMembers(s.aside, s.Top(t).c);
    } else {
      PlainCall(p, s, t, s', pc);
    }
  }

  function Follows(s: State, c: Class, pc: Pc, p: Program): Pc {
    if Sends(pc) then FollowsSend(s, c, pc, p) else FollowsCall(pc)
  }

  function FollowsSend(s: State, c: Class, pc: Pc, p: Program): Pc {
    match pc
    case Runtime => Test
    case Test => if c in s.flagged then Wait else Meta
    case Wait => Waited
    case Meta => Init
    case Init => Recheck
    case Created => Decide
    case Decide => if c in p.hasInitialize then Running else Release
    case Running => Remove
    case Remove => Unlinking
    case Unlinking => Release
    case _ => pc
  }

  function FollowsCall(pc: Pc): Pc {
    match pc
    case Look => Search
    case Search => LookWait
    case LookWait => LookWaited
    case Sync => Synced
    case Grow => Growing
    case Growing => GrowAside
    case GrowAside => GrowInstalled
    case _ => pc
  }

  lemma {:induction false} UnlinkedMembers(list: seq<Class>, c: Class)
    requires forall i, j :: 0 <= i < j < |list| ==> list[i] != list[j]
    ensures forall d :: d in Unlinked(list, c) <==> d in list && d != c
  {
    if list != [] {
      assert list == [list[0]] + list[1..];
      if list[0] != c {
        UnlinkedMembers(list[1..], c);
      } else {
        assert forall i :: 0 <= i < |list[1..]| ==> list[1..][i] == list[i + 1];
      }
    }
  }

  lemma {:induction false} UnlinkedDistinct(list: seq<Class>, c: Class)
    requires forall i, j :: 0 <= i < j < |list| ==> list[i] != list[j]
    ensures forall i, j :: 0 <= i < j < |Unlinked(list, c)| ==> Unlinked(list, c)[i] != Unlinked(list, c)[j]
  {
    if list != [] && list[0] != c {
      UnlinkedDistinct(list[1..], c);
      UnlinkedMembers(list[1..], c);
      assert list[0] !in list[1..];
      assert list[0] !in Unlinked(list[1..], c);
    }
  }

  // ----- the class is marked and its tables are created -----

  lemma RecheckStep(p: Program, s: State, t: Thread, s': State)
    requires Inv(p, s) && s.Stack(t) != [] && s.Top(t).pc == Recheck
    requires Advance(p, s, t, s.Top(t).c, Recheck) == Some(s')
    ensures Inv(p, s')
  {
    hide FramesOk, LocksOk, InitializersOk, Count;
    var top, c := |s.Stack(t)| - 1, s.Top(t).c;
    RecheckFinds(p, s, t);
    RecheckGoes(p, s, t, s');
    GoesFrames(p, s, s', t, Created);
    GoesLocks(s, s', t, Created);
    RecheckInitializers(p, s, t, s');
    GotoStacks(s, t, Created);
  }

  /** The second test never finds the class marked, and the superclass has its tables by then. */
  lemma RecheckFinds(p: Program, s: State, t: Thread)
    requires Inv(p, s) && s.Stack(t) != [] && s.Top(t).pc == Recheck
    ensures s.Top(t).c !in s.flagged && s.Top(t).c !in s.installed && s.Top(t).c !in s.aside && s.Top(t).c !in s.started
    ensures s.Top(t).c in p.sup ==> s.HasTable(p.sup[s.Top(t).c])
    ensures SuperOk(p, s, t, |s.Stack(t)| - 1, s.Top(t).c)
  {
    var top, c := |s.Stack(t)| - 1, s.Top(t).c;
    assert FrameOk(p, s, t, top);
    if c in p.sup && p.sup[c] !in s.installed {
      var j :| 0 <= j < top && s.Stack(t)[j] == Frame(p.sup[c], true, Running);
      assert FrameOk(p, s, t, j);
    }
  }

  lemma RecheckGoes(p: Program, s: State, t: Thread, s': State)
    requires Inv(p, s) && s.Stack(t) != [] && s.Top(t).pc == Recheck
    requires s' == s.Goto(t, Created).(flagged := s.flagged + {s.Top(t).c})
    ensures Goes(p, s, s', t, Created)
  {
    hide SuperOk;
    var top := |s.Stack(t)| - 1;
    RecheckFinds(p, s, t);
    OneHolder(p, s, t, top);
    forall u, i: nat | i < |s.Stack(u)| && !(u == t && i == top)
      ensures CallOk(s', u, s.Stack(u)[i])
    {
      OneHolder(p, s, u, i);
    }
  }

  lemma RecheckInitializers(p: Program, s: State, t: Thread, s': State)
    requires Inv(p, s) && s.Stack(t) != [] && s.Top(t).pc == Recheck
    requires s' == s.Goto(t, Created).(flagged := s.flagged + {s.Top(t).c})
    ensures InitializersOk(s')
  {
    var top, c := |s.Stack(t)| - 1, s.Top(t).c;
    RecheckFinds(p, s, t);
    forall u, i: nat, d
      ensures IsInitializer(s', u, i, d) <==> IsInitializer(s, u, i, d) || (u == t && i == top && d == c)
      ensures IsInitializer(s, u, i, d) ==> d in s.flagged
    {
      GotoFrame(s, t, Created, u, i);
      if IsInitializer(s, u, i, d) {
        assert FrameOk(p, s, u, i);
      }
    }
    forall d | d in s'.flagged && d !in s'.installed
      ensures Taken(d, s')
    {
      if d == c {
        assert IsInitializer(s', t, top, c);
      } else {
        assert Taken(d, s);
        var u, i: nat :| IsInitializer(s, u, i, d);
        assert IsInitializer(s', u, i, d);
      }
    }
  }

  // ----- calls that begin -----

  lemma CountTop(stack: seq<Frame>, o: Object)
    requires stack != []
    ensures var top := |stack| - 1;
      Count(stack, o) == Count(stack[..top], o) + if stack[top].Locked() == o && HoldsMeta(stack[top].pc) then 1 else 0
  {
  }

  lemma PushFrame(s: State, t: Thread, f: Frame, u: Thread, i: nat)
    ensures var s' := s.Push(t, f);
      && |s'.Stack(u)| == |s.Stack(u)| + (if u == t then 1 else 0)
      && (i < |s'.Stack(u)| ==> s'.Stack(u)[i] == if u == t && i == |s.Stack(t)| then f else s.Stack(u)[i])
      && forall o ::
           Count(s'.Stack(u), o) == Count(s.Stack(u), o) + if u == t && f.Locked() == o && HoldsMeta(f.pc) then 1 else 0
  {
    hide Count, HoldsMeta;
    if u == t {
      assert (s.Stack(t) + [f])[..|s.Stack(t)|] == s.Stack(t);
      forall o
        ensures Count(s.Stack(t) + [f], o) == Count(s.Stack(t), o) + if f.Locked() == o && HoldsMeta(f.pc) then 1 else 0
      {
        CountTop(s.Stack(t) + [f], o);
      }
    }
  }

  predicate First(pc: Pc) {
    pc == Begin || pc == Look || pc == Sync || pc == Grow
  }

  /** A call begins on top of one that waits for it. */
  lemma PushInv(p: Program, s: State, t: Thread, f: Frame)
    requires Inv(p, s) && First(f.pc) && (f.pc == Begin ==> f.meta) && CanCall(s, t)
    ensures Inv(p, s.Push(t, f))
  {
    hide Inv, FramesOk, LocksOk, InitializersOk, Count;
    var s' := s.Push(t, f);
    InvFacts(p, s);
    PushFrames(p, s, t, f);
    PushLocks(s, t, f);
    PushInitializers(s, t, f);
    PushHolders(p, s, t, f);
    InvMade(p, s');
  }

  lemma InvMade(p: Program, s: State)
    requires !s.fault && FramesOk(p, s) && HoldersOk(s) && LocksOk(s) && InitializersOk(s) && SetsOk(s)
    ensures Inv(p, s)
  {
  }

  lemma PushFrames(p: Program, s: State, t: Thread, f: Frame)
    requires FramesOk(p, s) && First(f.pc) && (f.pc == Begin ==> f.meta) && CanCall(s, t)
    ensures FramesOk(p, s.Push(t, f))
  {
    hide FrameOk, Pushed;
    var s' := s.Push(t, f);
    forall u, i: nat | i < |s'.Stack(u)|
      ensures FrameOk(p, s', u, i)
    {
      PushFrame(s, t, f, u, i);
      if u == t && i == |s.Stack(t)| {
        NewFrame(p, s', u, i);
      } else {
        OldFrame(p, s, t, f, u, i);
      }
    }
  }

  /** A call that has just begun relies on nothing. */
  lemma NewFrame(p: Program, s: State, u: Thread, i: nat)
    requires i == |s.Stack(u)| - 1 && First(s.Stack(u)[i].pc) && (s.Stack(u)[i].pc == Begin ==> s.Stack(u)[i].meta)
    ensures FrameOk(p, s, u, i)
  {
  }

  lemma OldFrame(p: Program, s: State, t: Thread, f: Frame, u: Thread, i: nat)
    requires FramesOk(p, s) && CanCall(s, t) && i < |s.Stack(u)|
    ensures i < |s.Push(t, f).Stack(u)| && FrameOk(p, s.Push(t, f), u, i)
  {
    hide Count, CallOk, SuperOk, FramesOk, Pushed;
    var s' := s.Push(t, f);
    PushFrame(s, t, f, u, i);
    PushFrame(s, t, f, u, i + 1);
    FramesFact(p, s, u, i);
    CallKept(p, s, s', u, i);
    if SuperOk(p, s, u, i, s.Stack(u)[i].c) {
      forall j: nat | j < i
        ensures s'.Stack(u)[j] == s.Stack(u)[j]
      {
        PushFrame(s, t, f, u, j);
      }
      assert s'.Stack(u)[..i] == s.Stack(u)[..i];
      SuperKept(p, s, s', u, i, s.Stack(u)[i].c);
    }
    FrameMade(p, s', u, i);
  }

  lemma PushLocks(s: State, t: Thread, f: Frame)
    requires LocksOk(s) && !HoldsMeta(f.pc)
    ensures LocksOk(s.Push(t, f))
  {
    hide Count;
    var s' := s.Push(t, f);
    forall o
      ensures LockOk(s', o)
    {
      assert LockOk(s, o);
      forall u {:trigger s'.Stack(u)}
        ensures Count(s'.Stack(u), o) == Count(s.Stack(u), o)
      {
        PushFrame(s, t, f, u, 0);
      }
    }
  }

  lemma PushInitializers(s: State, t: Thread, f: Frame)
    requires InitializersOk(s) && !Initializes(f.pc)
    ensures InitializersOk(s.Push(t, f))
  {
    var s' := s.Push(t, f);
    forall u, i: nat, c
      ensures IsInitializer(s', u, i, c) == IsInitializer(s, u, i, c)
    {
      PushFrame(s, t, f, u, i);
    }
    SameInitializers(s, s');
  }

  lemma SameInitializers(s: State, s': State)
    requires InitializersOk(s) && s'.flagged == s.flagged && s.installed <= s'.installed
    requires forall u, i: nat, c {:trigger IsInitializer(s', u, i, c)} ::
      IsInitializer(s', u, i, c) ==> IsInitializer(s, u, i, c)
    requires forall u, i: nat, c {:trigger IsInitializer(s, u, i, c)} ::
      IsInitializer(s, u, i, c) ==> IsInitializer(s', u, i, c) || c in s'.installed
    ensures InitializersOk(s')
  {
    forall c | c in s'.flagged && c !in s'.installed
      ensures Taken(c, s')
    {
      assert Taken(c, s);
      var u, i: nat :| IsInitializer(s, u, i, c);
      assert IsInitializer(s', u, i, c);
    }
  }

  lemma PushHolders(p: Program, s: State, t: Thread, f: Frame)
    requires HoldersOk(s) && SetsOk(s) && CanCall(s, t)
    ensures HoldersOk(s.Push(t, f)) && SetsOk(s.Push(t, f))
  {
    var s' := s.Push(t, f);
    if s.runtime.Some? {
      PushFrame(s, t, f, s.runtime.value, |s.Stack(s.runtime.value)| - 1);
    }
    if s.init.Some? {
      PushFrame(s, t, f, s.init.value, |s.Stack(s.init.value)| - 1);
    }
  }

  lemma BeginStep(p: Program, s: State, t: Thread, s': State)
    requires Inv(p, s) && s.Stack(t) != [] && s.Top(t).pc == Begin
    requires Advance(p, s, t, s.Top(t).c, Begin) == Some(s')
    ensures Inv(p, s')
  {
    hide Inv, FramesOk, HoldersOk, LocksOk, InitializersOk, SetsOk, Count;
    InvFacts(p, s);
    if s.Top(t).c in p.sup {
      BeginFrames(p, s, t, s');
      BeginRest(p, s, t, s');
      InvMade(p, s');
    } else {
      BeginRoot(p, s, t, s');
      GoesInv(p, s, s', t, Runtime);
    }
  }

  /** What a call relies on is in the state beside the stacks. */
  lemma CallKept(p: Program, s: State, s': State, u: Thread, i: nat)
    requires FramesOk(p, s) && i < |s.Stack(u)| && s' == s.(stacks := s'.stacks)
    ensures CallOk(s', u, s.Stack(u)[i])
  {
    hide Count, ShapeOk, SuperOk, HoldsRuntime, HoldsInit, Initializes, PutAside;
    assert FrameOk(p, s, u, i);
  }

  lemma BeginRoot(p: Program, s: State, t: Thread, s': State)
    requires FramesOk(p, s) && HoldersOk(s) && SetsOk(s)
    requires s.Stack(t) != [] && s.Top(t).pc == Begin && s.Top(t).c !in p.sup && s' == s.Goto(t, Runtime)
    ensures Goes(p, s, s', t, Runtime) && HoldersOk(s') && SetsOk(s')
  {
    hide Count, CallOk, SetsOk, FramesOk, HoldersOk, SuperOk, Moved;
    CallKept(p, s, s', t, |s.Stack(t)| - 1);
    BeginRootRest(p, s, t, s');
    BeginRootHolders(s, t);
    SameSets(s, s');
    forall u, i: nat | i < |s.Stack(u)|
      ensures CallOk(s', u, s.Stack(u)[i])
    {
      CallKept(p, s, s', u, i);
    }
  }

  lemma BeginRootRest(p: Program, s: State, t: Thread, s': State)
    requires s.Stack(t) != [] && s.Top(t).pc == Begin && s.Top(t).c !in p.sup && CallOk(s', t, s.Top(t))
    ensures CallOk(s', t, s.Top(t).(pc := Runtime)) && SuperOk(p, s, t, |s.Stack(t)| - 1, s.Top(t).c)
  {
  }

  lemma BeginRootHolders(s: State, t: Thread)
    requires HoldersOk(s) && s.Stack(t) != [] && s.Top(t).pc == Begin
    ensures HoldersOk(s.Goto(t, Runtime))
  {
    hide Moved;
    if s.runtime.Some? {
      GotoTop(s, s.Goto(t, Runtime), t, Runtime, s.runtime.value);
    }
    if s.init.Some? {
      GotoTop(s, s.Goto(t, Runtime), t, Runtime, s.init.value);
    }
  }

  lemma BeginStack(p: Program, s: State, t: Thread, u: Thread, i: nat)
    requires s.Stack(t) != [] && s.Top(t).pc == Begin && s.Top(t).c in p.sup
    ensures var s' := s.Goto(t, WaitSuper).Push(t, Frame(p.sup[s.Top(t).c], true, Begin));
      && |s'.Stack(u)| == |s.Stack(u)| + (if u == t then 1 else 0)
      && (i < |s'.Stack(u)| ==>
            s'.Stack(u)[i] ==
              if u == t && i == |s.Stack(t)| then Frame(p.sup[s.Top(t).c], true, Begin)
              else if u == t && i == |s.Stack(t)| - 1 then s.Top(t).(pc := WaitSuper)
              else s.Stack(u)[i])
      && forall o :: Count(s'.Stack(u), o) == Count(s.Stack(u), o)
  {
    var s1 := s.Goto(t, WaitSuper);
    GotoFrame(s, t, WaitSuper, u, i);
    PushFrame(s1, t, Frame(p.sup[s.Top(t).c], true, Begin), u, i);
    if u == t {
      GotoStacks(s, t, WaitSuper);
    }
  }

  lemma BeginFrames(p: Program, s: State, t: Thread, s': State)
    requires FramesOk(p, s) && s.Stack(t) != [] && s.Top(t).pc == Begin && s.Top(t).c in p.sup
    requires s' == s.Goto(t, WaitSuper).Push(t, Frame(p.sup[s.Top(t).c], true, Begin))
    ensures FramesOk(p, s')
  {
    hide Count, Moved, Pushed, FrameOk;
    forall u, i: nat | i < |s'.Stack(u)|
      ensures FrameOk(p, s', u, i)
    {
      BeginFrame(p, s, t, s', u, i);
    }
  }

  lemma BeginFrame(p: Program, s: State, t: Thread, s': State, u: Thread, i: nat)
    requires FramesOk(p, s) && s.Stack(t) != [] && s.Top(t).pc == Begin && s.Top(t).c in p.sup
    requires s' == s.Goto(t, WaitSuper).Push(t, Frame(p.sup[s.Top(t).c], true, Begin)) && i < |s'.Stack(u)|
    ensures FrameOk(p, s', u, i)
  {
    hide Count, Moved, Pushed, FramesOk, SuperOk, FrameOk;
    BeginShape(p, s, t, s', u, i);
    BeginCall(p, s, t, s', u, i);
    BeginSuper(p, s, t, s', u, i);
    FrameMade(p, s', u, i);
  }

  lemma BeginShape(p: Program, s: State, t: Thread, s': State, u: Thread, i: nat)
    requires FramesOk(p, s) && s.Stack(t) != [] && s.Top(t).pc == Begin && s.Top(t).c in p.sup
    requires s' == s.Goto(t, WaitSuper).Push(t, Frame(p.sup[s.Top(t).c], true, Begin)) && i < |s'.Stack(u)|
    ensures ShapeOk(p, s', u, i)
  {
    hide Count, Moved, Pushed, FramesOk, SuperOk, CallOk;
    BeginStack(p, s, t, u, i);
    BeginStack(p, s, t, u, i + 1);
    FramesFact(p, s, u, i);
  }

  lemma BeginCall(p: Program, s: State, t: Thread, s': State, u: Thread, i: nat)
    requires FramesOk(p, s) && s.Stack(t) != [] && s.Top(t).pc == Begin && s.Top(t).c in p.sup
    requires s' == s.Goto(t, WaitSuper).Push(t, Frame(p.sup[s.Top(t).c], true, Begin)) && i < |s'.Stack(u)|
    ensures CallOk(s', u, s'.Stack(u)[i])
  {
    hide Count, Moved, Pushed, FramesOk, SuperOk, ShapeOk;
    BeginStack(p, s, t, u, i);
    BeginSets(p, s, t, s');
    FramesFact(p, s, u, i);
  }

  lemma BeginSuper(p: Program, s: State, t: Thread, s': State, u: Thread, i: nat)
    requires FramesOk(p, s) && s.Stack(t) != [] && s.Top(t).pc == Begin && s.Top(t).c in p.sup
    requires s' == s.Goto(t, WaitSuper).Push(t, Frame(p.sup[s.Top(t).c], true, Begin)) && i < |s'.Stack(u)|
    ensures PastSuper(s'.Stack(u)[i].pc) ==> SuperOk(p, s', u, i, s'.Stack(u)[i].c)
  {
    hide Count, Moved, Pushed, FramesOk, SuperOk, ShapeOk, CallOk;
    BeginStack(p, s, t, u, i);
    BeginSets(p, s, t, s');
    FramesFact(p, s, u, i);
    if i < |s.Stack(u)| && PastSuper(s.Stack(u)[i].pc) {
      forall j: nat | j < i
        ensures s'.Stack(u)[j] == s.Stack(u)[j]
      {
        BeginStack(p, s, t, u, j);
      }
      assert s'.Stack(u)[..i] == s.Stack(u)[..i];
      SuperKept(p, s, s', u, i, s.Stack(u)[i].c);
    }
  }

  lemma BeginSets(p: Program, s: State, t: Thread, s': State)
    requires s.Stack(t) != [] && s.Top(t).c in p.sup
    requires s' == s.Goto(t, WaitSuper).Push(t, Frame(p.sup[s.Top(t).c], true, Begin))
    ensures s' == s.(stacks := s'.stacks)
  {
  }

  lemma BeginRest(p: Program, s: State, t: Thread, s': State)
    requires HoldersOk(s) && LocksOk(s) && InitializersOk(s) && SetsOk(s)
    requires s.Stack(t) != [] && s.Top(t).pc == Begin && s.Top(t).c in p.sup
    requires s' == s.Goto(t, WaitSuper).Push(t, Frame(p.sup[s.Top(t).c], true, Begin))
    ensures HoldersOk(s') && LocksOk(s') && InitializersOk(s') && SetsOk(s')
  {
    hide Count, LocksOk, InitializersOk, Moved, Pushed;
    BeginInitializers(p, s, t, s');
    BeginLocks(p, s, t, s');
    BeginSets(p, s, t, s');
    if s.runtime.Some? {
      BeginOther(p, s, t, s.runtime.value);
    }
    if s.init.Some? {
      BeginOther(p, s, t, s.init.value);
    }
  }

  lemma BeginOther(p: Program, s: State, t: Thread, u: Thread)
    requires s.Stack(t) != [] && s.Top(t).c in p.sup
    ensures u != t ==> s.Goto(t, WaitSuper).Push(t, Frame(p.sup[s.Top(t).c], true, Begin)).Stack(u) == s.Stack(u)
  {
  }

  lemma BeginInitializers(p: Program, s: State, t: Thread, s': State)
    requires InitializersOk(s) && s.Stack(t) != [] && s.Top(t).pc == Begin && s.Top(t).c in p.sup
    requires s' == s.Goto(t, WaitSuper).Push(t, Frame(p.sup[s.Top(t).c], true, Begin))
    ensures InitializersOk(s')
  {
    hide Count, InitializersOk;
    forall u, i: nat, c
      ensures IsInitializer(s', u, i, c) == IsInitializer(s, u, i, c)
    {
      BeginStack(p, s, t, u, i);
    }
    SameInitializers(s, s');
  }

  lemma BeginLocks(p: Program, s: State, t: Thread, s': State)
    requires LocksOk(s) && s.Stack(t) != [] && s.Top(t).pc == Begin && s.Top(t).c in p.sup
    requires s' == s.Goto(t, WaitSuper).Push(t, Frame(p.sup[s.Top(t).c], true, Begin))
    ensures LocksOk(s')
  {
    hide Count;
    forall o
      ensures LockOk(s', o)
    {
      assert LockOk(s, o);
      forall u {:trigger s'.Stack(u)}
        ensures Count(s'.Stack(u), o) == Count(s.Stack(u), o)
      {
        BeginStack(p, s, t, u, 0);
      }
    }
  }

  // ----- calls that end -----

  lemma ReturnStack(s: State, t: Thread, u: Thread, i: nat)
    requires s.Stack(t) != []
    ensures var s', n := s.Return(t), |s.Stack(t)| - 1;
      && |s'.Stack(u)| == |s.Stack(u)| - (if u == t then 1 else 0)
      && (i < |s'.Stack(u)| ==>
            s'.Stack(u)[i] ==
              if u == t && i == n - 1 && s.Stack(t)[i].pc == WaitSuper then s.Stack(t)[i].(pc := Runtime)
              else s.Stack(u)[i])
  {
    hide Moved;
    var rest := s.Stack(t)[..|s.Stack(t)| - 1];
    var s1 := s.(stacks := s.stacks[t := rest]);
    if rest != [] && rest[|rest| - 1].pc == WaitSuper {
      GotoFrame(s1, t, Runtime, u, i);
    }
  }

  /** How often the lock of an object is given back on a stack when the last call of `t` ends. */
  function Releases(s: State, t: Thread, u: Thread, o: Object): nat
    requires s.Stack(t) != []
  {
    if u == t && s.Top(t).Locked() == o && HoldsMeta(s.Top(t).pc) then 1 else 0
  }

  lemma ReturnCount(s: State, t: Thread, u: Thread, o: Object)
    requires s.Stack(t) != []
    ensures Count(s.Return(t).Stack(u), o) == Count(s.Stack(u), o) - Releases(s, t, u, o)
  {
    hide Moved, Count, HoldsMeta;
    var rest := s.Stack(t)[..|s.Stack(t)| - 1];
    var s1 := s.(stacks := s.stacks[t := rest]);
    CountTop(s.Stack(t), o);
    if rest != [] && rest[|rest| - 1].pc == WaitSuper {
      WaitHoldsNot();
      GotoCount(s1, s1.Goto(t, Runtime), t, Runtime, u, o);
    }
  }

  lemma WaitHoldsNot()
    ensures !HoldsMeta(WaitSuper) && !HoldsMeta(Runtime)
  {
  }

  /**
   A call that has waited for the metaclass finds the class done, unless it is this very
   thread that is initializing it.
   */
  lemma WaitedOver(p: Program, s: State, t: Thread)
    requires Inv(p, s) && s.Stack(t) != [] && (s.Top(t).pc == Waited || s.Top(t).pc == LookWaited) && s.Top(t).meta
    ensures var c := s.Top(t).c;
      s.HasTable(c) && (c in s.installed || OwnStack(s, t, |s.Stack(t)| - 1, c))
  {
    hide Count, SuperOk, SetsOk, HoldersOk;
    var top, c := |s.Stack(t)| - 1, s.Top(t).c;
    assert FrameOk(p, s, t, top);
    if c !in s.installed {
      assert Taken(c, s);
      var u, i: nat :| IsInitializer(s, u, i, c);
      assert LockOk(s, Object(c, true)) && FrameOk(p, s, u, i);
      HolderCounts(s.Stack(u), i, Object(c, true));
      HolderCounts(s.Stack(t), top, Object(c, true));
      assert u == t;
      assert s.Stack(t)[i] == Frame(c, true, Running);
    }
  }

  lemma {:induction false} HolderCounts(stack: seq<Frame>, i: nat, o: Object)
    requires i < |stack| && stack[i].Locked() == o && HoldsMeta(stack[i].pc)
    ensures Count(stack, o) > 0
  {
    if i < |stack| - 1 {
      HolderCounts(stack[..|stack| - 1], i, o);
    }
  }

  predicate Ends(s: State, c: Class, pc: Pc) {
    || pc == Waited || pc == Release || pc == LookWaited || pc == Synced || pc == GrowInstalled
    || (pc == Look && c in s.installed) || (pc == Search && !(c !in s.installed && c in s.aside))
  }

  lemma ReturnStep(p: Program, s: State, t: Thread, s': State)
    requires Inv(p, s) && s.Stack(t) != [] && Ends(s, s.Top(t).c, s.Top(t).pc)
    requires Advance(p, s, t, s.Top(t).c, s.Top(t).pc) == Some(s')
    ensures Inv(p, s')
  {
    hide Inv, FramesOk, HoldersOk, LocksOk, InitializersOk, SetsOk, Count;
    InvFacts(p, s);
    ReturnEffect(p, s, t, s');
    ReturnFrames(p, s, t, s');
    ReturnLocks(p, s, t, s');
    ReturnInitializers(p, s, t, s');
    ReturnHolders(p, s, t, s');
    InvMade(p, s');
  }

  /** There is room for the selector by now. */
  lemma EnoughStep(p: Program, s: State, t: Thread, s': State)
    requires Inv(p, s) && Step(p, s, t, Enough) == Some(s')
    ensures Inv(p, s')
  {
    hide Inv, FramesOk, HoldersOk, LocksOk, InitializersOk, SetsOk, Count;
    InvFacts(p, s);
    ReturnFrames(p, s, t, s');
    ReturnLocks(p, s, t, s');
    ReturnInitializers(p, s, t, s');
    ReturnHolders(p, s, t, s');
    InvMade(p, s');
  }

  ghost predicate Returned(s: State, t: Thread, s': State) {
    && s.Stack(t) != [] && s'.stacks == s.Return(t).stacks
    && s'.flagged == s.flagged && s'.installed == s.installed && s'.aside == s.aside && s'.started == s.started
    && (if HoldsRuntime(s.Top(t).pc) then s'.runtime.None? else s'.runtime == s.runtime)
    && (if HoldsInit(s.Top(t).pc) then s'.init.None? else s'.init == s.init)
    && s'.locks == (if HoldsMeta(s.Top(t).pc) then Released(s.locks, s.Top(t).Locked()) else s.locks)
    && (Initializes(s.Top(t).pc) ==> s.Top(t).c in s.installed)
  }

  lemma ReturnedStack(s: State, t: Thread, s': State, u: Thread, i: nat)
    requires Returned(s, t, s')
    ensures |s'.Stack(u)| == |s.Stack(u)| - (if u == t then 1 else 0)
    ensures i < |s'.Stack(u)| ==>
      var waits := u == t && i == |s.Stack(t)| - 2 && s.Stack(t)[i].pc == WaitSuper;
      s'.Stack(u)[i] == if waits then s.Stack(t)[i].(pc := Runtime) else s.Stack(u)[i]
    ensures forall o :: Count(s'.Stack(u), o) == Count(s.Stack(u), o) - Releases(s, t, u, o)
  {
    hide Popped, Count, HoldsMeta;
    ReturnStack(s, t, u, i);
    assert s'.Stack(u) == s.Return(t).Stack(u);
    forall o
      ensures Count(s'.Stack(u), o) == Count(s.Stack(u), o) - Releases(s, t, u, o)
    {
      ReturnCount(s, t, u, o);
    }
  }

  lemma ReturnEffect(p: Program, s: State, t: Thread, s': State)
    requires Inv(p, s) && s.Stack(t) != [] && Ends(s, s.Top(t).c, s.Top(t).pc)
    requires Advance(p, s, t, s.Top(t).c, s.Top(t).pc) == Some(s')
    ensures Returned(s, t, s') && !s'.fault
    ensures Sends(s.Top(t).pc) ==> s.Top(t).c in s.installed || OwnStack(s, t, |s.Stack(t)| - 1, s.Top(t).c)
  {
    hide Inv, FramesOk, Popped, Advance, OwnStack, Returned;
    var top := |s.Stack(t)| - 1;
    InvFacts(p, s);
    OneHolder(p, s, t, top);
    ReturnShape(p, s, t, s');
    if s.Top(t).pc == Waited {
      WaitedOver(p, s, t);
    }
  }

  lemma ReturnShape(p: Program, s: State, t: Thread, s': State)
    requires s.Stack(t) != [] && Ends(s, s.Top(t).c, s.Top(t).pc) && CallOk(s, t, s.Top(t))
    requires Advance(p, s, t, s.Top(t).c, s.Top(t).pc) == Some(s')
    ensures Returned(s, t, s')
    ensures s'.fault ==> s.fault || (s.Top(t).pc == Waited && !s.HasTable(s.Top(t).c))
  {
    hide Popped, Moved, Unlinked, Acquired, Released, State.CanEnter, CallOk, State.HasTable;
    if s.Top(t).pc == Look || s.Top(t).pc == Search || s.Top(t).pc == GrowInstalled {
      FoundShape(p, s, t, s');
    } else {
      TopHolds(s, t);
      ExitShape(p, s, t, s');
    }
  }

  lemma FoundShape(p: Program, s: State, t: Thread, s': State)
    requires s.Stack(t) != [] && Ends(s, s.Top(t).c, s.Top(t).pc)
    requires s.Top(t).pc == Look || s.Top(t).pc == Search || s.Top(t).pc == GrowInstalled
    requires Advance(p, s, t, s.Top(t).c, s.Top(t).pc) == Some(s')
    ensures Returned(s, t, s') && s'.fault == s.fault
  {
    hide Popped, Moved, Unlinked, Acquired, Released, State.CanEnter, State.HasTable;
  }

  lemma ExitShape(p: Program, s: State, t: Thread, s': State)
    requires s.Stack(t) != [] && Ends(s, s.Top(t).c, s.Top(t).pc)
    requires s.Top(t).pc != Look && s.Top(t).pc != Search && s.Top(t).pc != GrowInstalled
    requires Initializes(s.Top(t).pc) ==> s.Top(t).c in s.installed
    requires Advance(p, s, t, s.Top(t).c, s.Top(t).pc) == Some(s')
    ensures Returned(s, t, s')
    ensures s'.fault ==> s.fault || (s.Top(t).pc == Waited && !s.HasTable(s.Top(t).c))
  {
    hide Popped, Moved, Unlinked, Acquired, Released, State.CanEnter, State.HasTable;
  }

  lemma ReturnFrames(p: Program, s: State, t: Thread, s': State)
    requires FramesOk(p, s) && Returned(s, t, s')
    requires Sends(s.Top(t).pc) ==> s.Top(t).c in s.installed || OwnStack(s, t, |s.Stack(t)| - 1, s.Top(t).c)
    ensures FramesOk(p, s')
  {
    hide Count, Popped;
    forall u, i: nat | i < |s'.Stack(u)|
      ensures FrameOk(p, s', u, i)
    {
      ReturnFrame(p, s, t, s', u, i);
    }
  }

  lemma ReturnFrame(p: Program, s: State, t: Thread, s': State, u: Thread, i: nat)
    requires FramesOk(p, s) && Returned(s, t, s') && i < |s'.Stack(u)|
    requires Sends(s.Top(t).pc) ==> s.Top(t).c in s.installed || OwnStack(s, t, |s.Stack(t)| - 1, s.Top(t).c)
    ensures FrameOk(p, s', u, i)
  {
    hide *;
    ReturnShapeOk(p, s, t, s', u, i);
    ReturnCallOk(p, s, t, s', u, i);
    ReturnSuper(p, s, t, s', u, i);
    FrameMade(p, s', u, i);
  }

  lemma FrameMade(p: Program, s: State, u: Thread, i: nat)
    requires i < |s.Stack(u)| && ShapeOk(p, s, u, i) && CallOk(s, u, s.Stack(u)[i])
    requires PastSuper(s.Stack(u)[i].pc) ==> SuperOk(p, s, u, i, s.Stack(u)[i].c)
    ensures FrameOk(p, s, u, i)
  {
  }

  lemma ReturnShapeOk(p: Program, s: State, t: Thread, s': State, u: Thread, i: nat)
    requires FramesOk(p, s) && Returned(s, t, s') && i < |s'.Stack(u)|
    ensures ShapeOk(p, s', u, i)
  {
    hide Count, FramesOk, Popped, Released, SuperOk, CallOk, Returned;
    ReturnedStack(s, t, s', u, i);
    ReturnedStack(s, t, s', u, i + 1);
    FramesFact(p, s, u, i);
    FramesFact(p, s, u, i + 1);
  }

  lemma ReturnCallOk(p: Program, s: State, t: Thread, s': State, u: Thread, i: nat)
    requires FramesOk(p, s) && Returned(s, t, s') && i < |s'.Stack(u)|
    ensures CallOk(s', u, s'.Stack(u)[i])
  {
    hide Count, FramesOk, Popped, Released, SuperOk, ShapeOk;
    ReturnedStack(s, t, s', u, i);
    OneHolder(p, s, u, i);
    OneHolder(p, s, t, |s.Stack(t)| - 1);
  }

  lemma FramesFact(p: Program, s: State, u: Thread, i: nat)
    requires FramesOk(p, s)
    ensures i < |s.Stack(u)| ==> FrameOk(p, s, u, i)
  {
  }

  lemma ReturnSuper(p: Program, s: State, t: Thread, s': State, u: Thread, i: nat)
    requires FramesOk(p, s) && Returned(s, t, s') && i < |s'.Stack(u)|
    requires Sends(s.Top(t).pc) ==> s.Top(t).c in s.installed || OwnStack(s, t, |s.Stack(t)| - 1, s.Top(t).c)
    ensures PastSuper(s'.Stack(u)[i].pc) ==> SuperOk(p, s', u, i, s'.Stack(u)[i].c)
  {
    hide Count, Popped, OwnStack, Returned, FramesOk, CallOk;
    ReturnedStack(s, t, s', u, i);
    FrameIn(p, s, u, i);
    ReturnedInstalled(s, t, s');
    var c := s.Stack(u)[i].c;
    if u == t && i == |s.Stack(t)| - 2 && s.Stack(t)[i].pc == WaitSuper {
      if s.Top(t).c !in s.installed {
        NotWaiting(s, t, i, s.Top(t).c);
        StillOwn(s, t, s', t, i, s.Top(t).c);
      }
    } else if PastSuper(s.Stack(u)[i].pc) && c in p.sup && p.sup[c] !in s.installed {
      StillOwn(s, t, s', u, i, p.sup[c]);
    }
  }

  lemma FrameIn(p: Program, s: State, u: Thread, i: nat)
    requires FramesOk(p, s) && i < |s.Stack(u)|
    ensures FrameOk(p, s, u, i)
  {
  }

  lemma ReturnedInstalled(s: State, t: Thread, s': State)
    requires Returned(s, t, s')
    ensures s.Stack(t) != [] && s'.installed == s.installed
  {
  }

  lemma NotWaiting(s: State, t: Thread, i: nat, c: Class)
    requires i < |s.Stack(t)| && s.Stack(t)[i].pc == WaitSuper && OwnStack(s, t, i + 1, c)
    ensures OwnStack(s, t, i, c)
  {
  }

  lemma StillOwn(s: State, t: Thread, s': State, u: Thread, i: nat, c: Class)
    requires Returned(s, t, s') && i < |s'.Stack(u)| && OwnStack(s, u, i, c)
    ensures OwnStack(s', u, i, c)
  {
    hide Returned;
    var j: nat :| j < i && j < |s.Stack(u)| && s.Stack(u)[j] == Frame(c, true, Running);
    ReturnedStack(s, t, s', u, j);
    assert s'.Stack(u)[j] == Frame(c, true, Running);
  }

  lemma ReturnLocks(p: Program, s: State, t: Thread, s': State)
    requires LocksOk(s) && Returned(s, t, s')
    ensures LocksOk(s')
  {
    hide Returned, LockOk;
    forall o
      ensures LockOk(s', o)
    {
      ReturnLock(s, t, s', o);
    }
  }

  lemma ReturnLock(s: State, t: Thread, s': State, o: Object)
    requires LockOk(s, o) && Returned(s, t, s')
    ensures LockOk(s', o)
  {
    hide Count, Popped, Returned, State.Stack;
    ReturnedLocks(s, t, s', o);
    forall u {:trigger s'.Stack(u)}
      ensures Count(s'.Stack(u), o) == Count(s.Stack(u), o) - Releases(s, t, u, o)
    {
      ReturnedStack(s, t, s', u, 0);
    }
    if HoldsMeta(s.Top(t).pc) && s.Top(t).Locked() == o {
      HolderCounts(s.Stack(t), |s.Stack(t)| - 1, o);
    }
  }

  lemma ReturnedLocks(s: State, t: Thread, s': State, o: Object)
    requires Returned(s, t, s')
    ensures s.Stack(t) != []
    ensures s'.LockOf(o) ==
      if HoldsMeta(s.Top(t).pc) && s.Top(t).Locked() == o then
        if s.LockOf(o).Held? && s.LockOf(o).depth > 1 then Held(s.LockOf(o).owner, s.LockOf(o).depth - 1) else Free
      else s.LockOf(o)
  {
    hide Popped;
  }

  lemma ReturnInitializers(p: Program, s: State, t: Thread, s': State)
    requires InitializersOk(s) && Returned(s, t, s')
    ensures InitializersOk(s')
  {
    hide InitializersOk, Popped, Count;
    forall u, i: nat, c
      ensures IsInitializer(s', u, i, c) ==> IsInitializer(s, u, i, c)
      ensures IsInitializer(s, u, i, c) ==> IsInitializer(s', u, i, c) || c in s'.installed
    {
      ReturnedStack(s, t, s', u, i);
    }
    SameInitializers(s, s');
  }

  lemma ReturnHolders(p: Program, s: State, t: Thread, s': State)
    requires FramesOk(p, s) && HoldersOk(s) && SetsOk(s) && Returned(s, t, s')
    ensures HoldersOk(s') && SetsOk(s')
  {
    hide Count, FramesOk, SetsOk, HoldsRuntime, HoldsInit, Returned;
    ReturnedSets(s, t, s');
    SameSets(s, s');
    if s'.runtime.Some? {
      ReturnedOther(s, t, s', s.runtime.value);
    }
    if s'.init.Some? {
      ReturnedOther(s, t, s', s.init.value);
    }
  }

  lemma ReturnedSets(s: State, t: Thread, s': State)
    requires Returned(s, t, s')
    ensures s.Stack(t) != []
    ensures s'.flagged == s.flagged && s'.installed == s.installed && s'.aside == s.aside && s'.started == s.started
    ensures s'.runtime == if HoldsRuntime(s.Top(t).pc) then None else s.runtime
    ensures s'.init == if HoldsInit(s.Top(t).pc) then None else s.init
  {
  }

  lemma ReturnedOther(s: State, t: Thread, s': State, u: Thread)
    requires Returned(s, t, s')
    ensures u != t ==> s'.Stack(u) == s.Stack(u)
  {
    hide Count;
  }

  lemma SameSets(s: State, s': State)
    requires s'.flagged == s.flagged && s'.installed == s.installed && s'.aside == s.aside && s'.started == s.started
    ensures SetsOk(s') == SetsOk(s)
  {
  }
}
