/**
 Runs of two threads that show when one waits for the other.
 */
module InitializeExamples {
  import opened Wrappers
  import opened InitializeProtocol
  import opened InitializeSteps
  import opened InitializeRuns

  /** A root class with `+initialize`, and a subclass that inherits it. */
  const PROGRAM := Program(map[1 := 0], {0, 1})
  const ROOT := Object(0, false)
  const META := Object(0, true)
  const SUBMETA := Object(1, true)

  // ----- single steps -----

  /** The run, and the state that its next step leads to. */
  ghost predicate Extends(p: Program, next: seq<State>, run: seq<State>, s: State) {
    Run(p, next) && next == run + [s]
  }

  function Last(run: seq<State>): State
    requires run != []
  {
    run[|run| - 1]
  }

  lemma Extended(p: Program, run: seq<State>, t: Thread, a: Action, s: State) returns (next: seq<State>)
    requires Run(p, run) && Step(p, Last(run), t, a) == Some(s)
    ensures Extends(p, next, run, s)
  {
    hide Step, Start;
    next := run + [s];
    assert NextState(p, Last(run), next[|run|]);
    assert next[0] == run[0];
  }

  /** The last call of a stack has been replaced. */
  function With(s: State, t: Thread, front: seq<Frame>, f: Frame): State {
    s.(stacks := s.stacks[t := front + [f]])
  }

  predicate At(run: seq<State>, t: Thread, front: seq<Frame>, f: Frame) {
    run != [] && Last(run).Stack(t) == front + [f]
  }

  lemma MovedWith(s: State, t: Thread, front: seq<Frame>, f: Frame, pc: Pc)
    requires s.Stack(t) == front + [f]
    ensures s.Top(t) == f && s.Goto(t, pc) == With(s, t, front, f.(pc := pc))
  {
    assert s.Stack(t)[..|s.Stack(t)| - 1] == front;
  }

  lemma RootBegins(p: Program, run: seq<State>, t: Thread, front: seq<Frame>, c: Class) returns (next: seq<State>)
    requires Run(p, run) && At(run, t, front, Frame(c, true, Begin)) && c !in p.sup
    ensures Extends(p, next, run, With(Last(run), t, front, Frame(c, true, Runtime)))
  {
    hide Run, Moved;
    var s := Last(run);
    MovedWith(s, t, front, Frame(c, true, Begin), Runtime);
    next := Extended(p, run, t, Go, With(s, t, front, Frame(c, true, Runtime)));
  }

  lemma LocksRuntime(p: Program, run: seq<State>, t: Thread, front: seq<Frame>, c: Class) returns (next: seq<State>)
    requires Run(p, run) && At(run, t, front, Frame(c, true, Runtime)) && Last(run).runtime.None?
    ensures Extends(p, next, run, With(Last(run), t, front, Frame(c, true, Test)).(runtime := Some(t)))
  {
    hide Run, Moved;
    var s := Last(run);
    MovedWith(s, t, front, Frame(c, true, Runtime), Test);
    next := Extended(p, run, t, Go, With(s, t, front, Frame(c, true, Test)).(runtime := Some(t)));
  }

  lemma FindsUnmarked(p: Program, run: seq<State>, t: Thread, front: seq<Frame>, c: Class) returns (next: seq<State>)
    requires Run(p, run) && At(run, t, front, Frame(c, true, Test)) && c !in Last(run).flagged
    ensures Extends(p, next, run, With(Last(run), t, front, Frame(c, true, Meta)))
  {
    hide Run, Moved;
    var s := Last(run);
    MovedWith(s, t, front, Frame(c, true, Test), Meta);
    next := Extended(p, run, t, Go, With(s, t, front, Frame(c, true, Meta)));
  }

  lemma FindsMarked(p: Program, run: seq<State>, t: Thread, front: seq<Frame>, c: Class) returns (next: seq<State>)
    requires Run(p, run) && At(run, t, front, Frame(c, true, Test)) && c in Last(run).flagged
    ensures Extends(p, next, run, With(Last(run), t, front, Frame(c, true, Wait)).(runtime := None))
  {
    hide Run, Moved;
    var s := Last(run);
    MovedWith(s, t, front, Frame(c, true, Test), Wait);
    next := Extended(p, run, t, Go, With(s, t, front, Frame(c, true, Wait)).(runtime := None));
  }

  lemma WaitsForMeta(p: Program, run: seq<State>, t: Thread, front: seq<Frame>, c: Class) returns (next: seq<State>)
    requires Run(p, run) && At(run, t, front, Frame(c, true, Wait)) && Last(run).CanEnter(t, Object(c, true))
    ensures Extends(p, next, run, With(Last(run), t, front, Frame(c, true, Waited))
                                 .(locks := Acquired(Last(run).locks, t, Object(c, true))))
  {
    hide Run, Moved;
    var s := Last(run);
    MovedWith(s, t, front, Frame(c, true, Wait), Waited);
    var s' := With(s, t, front, Frame(c, true, Waited)).(locks := Acquired(s.locks, t, Object(c, true)));
    next := Extended(p, run, t, Go, s');
  }

  lemma LocksMeta(p: Program, run: seq<State>, t: Thread, front: seq<Frame>, c: Class) returns (next: seq<State>)
    requires Run(p, run) && At(run, t, front, Frame(c, true, Meta)) && Last(run).CanEnter(t, Object(c, true))
    ensures Extends(p, next, run, With(Last(run), t, front, Frame(c, true, Init))
                                 .(locks := Acquired(Last(run).locks, t, Object(c, true))))
  {
    hide Run, Moved;
    var s := Last(run);
    MovedWith(s, t, front, Frame(c, true, Meta), Init);
    var s' := With(s, t, front, Frame(c, true, Init)).(locks := Acquired(s.locks, t, Object(c, true)));
    next := Extended(p, run, t, Go, s');
  }

  lemma LocksInit(p: Program, run: seq<State>, t: Thread, front: seq<Frame>, c: Class) returns (next: seq<State>)
    requires Run(p, run) && At(run, t, front, Frame(c, true, Init)) && Last(run).init.None?
    ensures Extends(p, next, run, With(Last(run), t, front, Frame(c, true, Recheck)).(init := Some(t)))
  {
    hide Run, Moved;
    var s := Last(run);
    MovedWith(s, t, front, Frame(c, true, Init), Recheck);
    next := Extended(p, run, t, Go, With(s, t, front, Frame(c, true, Recheck)).(init := Some(t)));
  }

  lemma RootMarked(p: Program, run: seq<State>, t: Thread, front: seq<Frame>, c: Class) returns (next: seq<State>)
    requires Run(p, run) && At(run, t, front, Frame(c, true, Recheck))
    requires c !in Last(run).flagged && c !in p.sup
    ensures Extends(p, next, run, With(Last(run), t, front, Frame(c, true, Created))
                                  .(flagged := Last(run).flagged + {c}))
  {
    hide Run, Moved;
    var s := Last(run);
    MovedWith(s, t, front, Frame(c, true, Recheck), Created);
    next := Extended(p, run, t, Go, With(s, t, front, Frame(c, true, Created)).(flagged := s.flagged + {c}));
  }

  lemma UnlocksRuntime(p: Program, run: seq<State>, t: Thread, front: seq<Frame>, c: Class) returns (next: seq<State>)
    requires Run(p, run) && At(run, t, front, Frame(c, true, Created))
    ensures Extends(p, next, run, With(Last(run), t, front, Frame(c, true, Decide)).(runtime := None))
  {
    hide Run, Moved;
    var s := Last(run);
    MovedWith(s, t, front, Frame(c, true, Created), Decide);
    next := Extended(p, run, t, Go, With(s, t, front, Frame(c, true, Decide)).(runtime := None));
  }

  lemma StartsMethod(p: Program, run: seq<State>, t: Thread, front: seq<Frame>, c: Class) returns (next: seq<State>)
    requires Run(p, run) && At(run, t, front, Frame(c, true, Decide)) && c in p.hasInitialize
    ensures Extends(p, next, run, With(Last(run), t, front, Frame(c, true, Running))
                                 .(aside := [c] + Last(run).aside, started := Last(run).started + {c}, init := None))
  {
    hide Run, Moved;
    var s := Last(run);
    MovedWith(s, t, front, Frame(c, true, Decide), Running);
    var s' := With(s, t, front, Frame(c, true, Running));
    next := Extended(p, run, t, Go, s'.(aside := [c] + s.aside, started := s.started + {c}, init := None));
  }

  lemma SearchesTables(p: Program, run: seq<State>, t: Thread, front: seq<Frame>, c: Class, meta: bool)
      returns (next: seq<State>)
    requires Run(p, run) && At(run, t, front, Frame(c, meta, Look))
    requires c !in Last(run).installed && Last(run).init.None?
    ensures Extends(p, next, run, With(Last(run), t, front, Frame(c, meta, Search)).(init := Some(t)))
  {
    hide Run, Moved;
    var s := Last(run);
    MovedWith(s, t, front, Frame(c, meta, Look), Search);
    next := Extended(p, run, t, Go, With(s, t, front, Frame(c, meta, Search)).(init := Some(t)));
  }

  lemma FindsAside(p: Program, run: seq<State>, t: Thread, front: seq<Frame>, c: Class, meta: bool)
      returns (next: seq<State>)
    requires Run(p, run) && At(run, t, front, Frame(c, meta, Search))
    requires c !in Last(run).installed && c in Last(run).aside
    ensures Extends(p, next, run, With(Last(run), t, front, Frame(c, meta, LookWait)).(init := None))
  {
    hide Run, Moved;
    var s := Last(run);
    MovedWith(s, t, front, Frame(c, meta, Search), LookWait);
    next := Extended(p, run, t, Go, With(s, t, front, Frame(c, meta, LookWait)).(init := None));
  }

  lemma LooksUp(p: Program, run: seq<State>, t: Thread, front: seq<Frame>, c: Class, meta: bool)
      returns (next: seq<State>)
    requires Run(p, run) && At(run, t, front, Frame(c, meta, LookWait)) && Last(run).CanEnter(t, Object(c, meta))
    ensures Extends(p, next, run, With(Last(run), t, front, Frame(c, meta, LookWaited))
                                 .(locks := Acquired(Last(run).locks, t, Object(c, meta))))
  {
    hide Run, Moved;
    var s := Last(run);
    MovedWith(s, t, front, Frame(c, meta, LookWait), LookWaited);
    var s' := With(s, t, front, Frame(c, meta, LookWaited)).(locks := Acquired(s.locks, t, Object(c, meta)));
    next := Extended(p, run, t, Go, s');
  }

  lemma Synchronizes(p: Program, run: seq<State>, t: Thread, front: seq<Frame>, c: Class, meta: bool)
      returns (next: seq<State>)
    requires Run(p, run) && At(run, t, front, Frame(c, meta, Sync)) && Last(run).CanEnter(t, Object(c, meta))
    ensures Extends(p, next, run, With(Last(run), t, front, Frame(c, meta, Synced))
                                 .(locks := Acquired(Last(run).locks, t, Object(c, meta))))
  {
    hide Run, Moved;
    var s := Last(run);
    MovedWith(s, t, front, Frame(c, meta, Sync), Synced);
    var s' := With(s, t, front, Frame(c, meta, Synced)).(locks := Acquired(s.locks, t, Object(c, meta)));
    next := Extended(p, run, t, Go, s');
  }

  predicate Opens(a: Action, f: Frame) {
    match a
    case Send(c) => f == Frame(c, true, Begin)
    case LookUp(c, meta) => f == Frame(c, meta, Look)
    case Synchronize(c, meta) => f == Frame(c, meta, Sync)
    case _ => false
  }

  lemma Calls(p: Program, run: seq<State>, t: Thread, a: Action, f: Frame) returns (next: seq<State>)
    requires Run(p, run) && run != [] && CanCall(Last(run), t) && Opens(a, f)
    ensures Extends(p, next, run, With(Last(run), t, Last(run).Stack(t), f))
  {
    hide Run;
    next := Extended(p, run, t, a, With(Last(run), t, Last(run).Stack(t), f));
  }

  // ----- scenes -----

  /** No tables are installed yet; the two threads are at these calls and hold these locks. */
  ghost predicate Scene(p: Program, run: seq<State>, mine: seq<Frame>, other: seq<Frame>, locks: map<Object, Lock>) {
    && Run(p, run) && run != []
    && var s := Last(run);
      && s.Stack(0) == mine && s.Stack(1) == other && s.locks == locks && s.init.None?
      && s.installed == {} && s.flagged == {0} && s.aside == [0] && s.started == {0}
  }

  lemma Begun(p: Program) returns (run: seq<State>)
    ensures Run(p, run) && run != []
    ensures Last(run) == State(map[], None, None, map[], {}, {}, [], {}, false)
  {
    run := [State(map[], None, None, map[], {}, {}, [], {}, false)];
  }

  lemma TakesLocks(p: Program) returns (run: seq<State>)
    requires p.sup == map[1 := 0]
    ensures At(run, 0, [], Frame(0, true, Recheck)) && Run(p, run) && Last(run).Stack(1) == []
    ensures Last(run).runtime == Last(run).init == Some(0) && Last(run).locks == map[META := Held(0, 1)]
    ensures Last(run).flagged == Last(run).installed == Last(run).started == {} && Last(run).aside == []
  {
    hide Run, Step;
    run := Begun(p);
    run := Calls(p, run, 0, Send(0), Frame(0, true, Begin));
    run := RootBegins(p, run, 0, [], 0);
    run := LocksRuntime(p, run, 0, [], 0);
    run := FindsUnmarked(p, run, 0, [], 0);
    run := LocksMeta(p, run, 0, [], 0);
    run := LocksInit(p, run, 0, [], 0);
  }

  /** The first thread is in the middle of `+initialize`. */
  lemma Initializing(p: Program) returns (run: seq<State>)
    requires p.sup == map[1 := 0] && 0 in p.hasInitialize
    ensures Scene(p, run, [Frame(0, true, Running)], [], map[META := Held(0, 1)]) && Last(run).runtime.None?
  {
    hide Run, Step;
    run := AboutToDecide(p);
    run := StartsMethod(p, run, 0, [], 0);
  }

  /** The first thread has created the tables. */
  lemma AboutToDecide(p: Program) returns (run: seq<State>)
    requires p.sup == map[1 := 0]
    ensures At(run, 0, [], Frame(0, true, Decide)) && Run(p, run)
    ensures Last(run).Stack(0) == [Frame(0, true, Decide)] && Last(run).Stack(1) == []
    ensures Last(run).runtime.None? && Last(run).init == Some(0) && Last(run).locks == map[META := Held(0, 1)]
    ensures Last(run).flagged == {0} && Last(run).installed == Last(run).started == {} && Last(run).aside == []
  {
    hide Run, Step;
    run := TakesLocks(p);
    run := RootMarked(p, run, 0, [], 0);
    run := UnlocksRuntime(p, run, 0, [], 0);
  }

  /** Meanwhile the second thread registers a selector. */
  lemma DecidesAndGrows(p: Program) returns (run: seq<State>)
    requires p.sup == map[1 := 0]
    ensures Run(p, run) && run != []
    ensures Last(run).Stack(0) == [Frame(0, true, Decide)] && Last(run).Stack(1) == [Frame(0, false, Growing)]
    ensures Last(run).runtime == Some(1) && Last(run).init == Some(0)
  {
    hide Run, Step;
    run := AboutToDecide(p);
    run := Registers(p, run);
    run := StartsGrowing(p, run);
  }

  lemma Registers(p: Program, run: seq<State>) returns (next: seq<State>)
    requires Run(p, run) && run != [] && Last(run).Stack(1) == []
    ensures Extends(p, next, run, With(Last(run), 1, [], Frame(0, false, Grow)))
  {
    hide Run;
    next := Extended(p, run, 1, Register, With(Last(run), 1, [], Frame(0, false, Grow)));
  }

  lemma StartsGrowing(p: Program, run: seq<State>) returns (next: seq<State>)
    requires Run(p, run) && At(run, 1, [], Frame(0, false, Grow)) && Last(run).runtime.None?
    ensures Extends(p, next, run, With(Last(run), 1, [], Frame(0, false, Growing)).(runtime := Some(1)))
  {
    hide Run, Moved;
    MovedWith(Last(run), 1, [], Frame(0, false, Grow), Growing);
    next := Extended(p, run, 1, Go, With(Last(run), 1, [], Frame(0, false, Growing)).(runtime := Some(1)));
  }

  /** The second thread has looked for the table of the class, and found it put aside. */
  lemma LooksForTable(p: Program, start: seq<State>, mine: seq<Frame>, locks: map<Object, Lock>)
      returns (run: seq<State>)
    requires Scene(p, start, mine, [], locks)
    ensures Scene(p, run, mine, [Frame(0, false, LookWait)], locks)
  {
    hide Run, Step;
    run := Calls(p, start, 1, LookUp(0, false), Frame(0, false, Look));
    run := SearchesTables(p, run, 1, [], 0, false);
    run := FindsAside(p, run, 1, [], 0, false);
  }

  /**
   While `+initialize` of a class runs on one thread, a lookup for the class itself, as a
   message to an instance makes it, comes back with the table on another.
   */
  lemma ClassLookupReturns() returns (p: Program, run: seq<State>, c: Class)
    ensures Run(p, run) && |run| > 2
    ensures var before, after := run[|run| - 2], run[|run| - 1];
      && before.Stack(1) == [Frame(c, false, LookWaited)] && after.Stack(1) == [] && c in after.aside
      && Step(p, before, 1, Go) == Some(after) && c !in after.installed && after.Stack(0) == [Frame(c, true, Running)]
  {
    hide Run, Step;
    p, c := PROGRAM, 0;
    run := Initializing(p);
    run := LooksForTable(p, run, [Frame(0, true, Running)], map[META := Held(0, 1)]);
    run := LooksUp(p, run, 1, [], 0, false);
    run := LookupEnds(p, run);
  }

  lemma LookupEnds(p: Program, run: seq<State>) returns (next: seq<State>)
    requires Run(p, run) && At(run, 1, [], Frame(0, false, LookWaited))
    ensures |next| == |run| + 1 > 1 && next[..|run|] == run && Run(p, next)
    ensures Step(p, Last(run), 1, Go) == Some(Last(next))
    ensures Last(next) == Last(run).(stacks := Last(run).stacks[1 := []], locks := Released(Last(run).locks, ROOT))
  {
    hide Run;
    var s := Last(run);
    var s' := s.(stacks := s.stacks[1 := []], locks := Released(s.locks, ROOT));
    assert s.Stack(1)[..0] == [];
    next := Extended(p, run, 1, Go, s');
  }

  /** If `+initialize` itself is within `@synchronized` on the class, that lookup waits until it no longer is. */
  lemma ClassLookupWaits() returns (p: Program, run: seq<State>, c: Class)
    ensures Run(p, run) && run != []
    ensures var s := run[|run| - 1];
      && s.Stack(0) == [Frame(c, true, Running), Frame(c, false, Synced)] && s.Stack(1) == [Frame(c, false, LookWait)]
      && Step(p, s, 1, Go).None? && InSync(s, 0, Object(c, false))
  {
    hide Run, Step;
    p, c := PROGRAM, 0;
    run := Initializing(p);
    run := Calls(p, run, 0, Synchronize(0, false), Frame(0, false, Sync));
    run := Synchronizes(p, run, 0, [Frame(0, true, Running)], 0, false);
    var locks := map[META := Held(0, 1), ROOT := Held(0, 1)];
    run := LooksForTable(p, run, [Frame(0, true, Running), Frame(0, false, Synced)], locks);
    MustWait(p, Last(run), Frame(0, false, LookWait));
    assert Last(run).Stack(0)[1] == Frame(0, false, Synced);
  }

  lemma MustWait(p: Program, s: State, f: Frame)
    requires s.Stack(1) == [f] && f.pc == LookWait && !s.CanEnter(1, f.Locked())
    ensures Step(p, s, 1, Go).None?
  {
  }

  // ----- one thread to the end -----

  /** What has been achieved when the call for class 0 is over. */
  ghost predicate Done(p: Program, run: seq<State>, started: set<Class>) {
    && Run(p, run) && run != []
    && var s := Last(run);
      && s.Stack(0) == [] && s.installed == s.flagged == {0} && s.aside == [] && s.started == started
      && s.runtime.None? && s.init.None? && s.LockOf(META) == Free
  }

  /** The call gives the lock of the metaclass back and returns. */
  lemma SendEnds(p: Program, run: seq<State>) returns (next: seq<State>)
    requires Run(p, run) && At(run, 0, [], Frame(0, true, Release))
    ensures Extends(p, next, run,
                    Last(run).(stacks := Last(run).stacks[0 := []], locks := Released(Last(run).locks, META)))
  {
    hide Run;
    var s := Last(run);
    assert s.Stack(0)[..0] == [];
    next := Extended(p, run, 0, Go, s.(stacks := s.stacks[0 := []], locks := Released(s.locks, META)));
  }

  /** A class with the method: its tables are put aside, the method is executed, and they are installed. */
  lemma WithMethodDone() returns (p: Program, run: seq<State>)
    ensures 0 in p.hasInitialize && Done(p, run, {0})
    ensures exists k :: 0 <= k < |run| && run[k].Stack(0) == [Frame(0, true, Running)] && run[k].aside == [0]
  {
    hide Run, Step;
    p := PROGRAM;
    run := Initializing(p);
    var k := |run| - 1;
    var running := run[k];
    run := MethodEnds(p, run);
    run := TablesInstalled(p, run);
    run := SendEnds(p, run);
    assert run[k] == running;
  }

  lemma MethodEnds(p: Program, run: seq<State>) returns (next: seq<State>)
    requires Run(p, run) && At(run, 0, [], Frame(0, true, Running)) && Last(run).init.None?
    ensures Run(p, next) && |next| == |run| + 2 && next[..|run|] == run
    ensures Last(next) == With(Last(run), 0, [], Frame(0, true, Unlinking)).(init := Some(0))
  {
    hide Run, Moved;
    var s := Last(run);
    MovedWith(s, 0, [], Frame(0, true, Running), Remove);
    var s1 := With(s, 0, [], Frame(0, true, Remove));
    next := Extended(p, run, 0, Go, s1);
    MovedWith(s1, 0, [], Frame(0, true, Remove), Unlinking);
    assert With(s1, 0, [], Frame(0, true, Unlinking)).stacks == With(s, 0, [], Frame(0, true, Unlinking)).stacks;
    next := Extended(p, next, 0, Go, With(s, 0, [], Frame(0, true, Unlinking)).(init := Some(0)));
  }

  lemma TablesInstalled(p: Program, run: seq<State>) returns (next: seq<State>)
    requires Run(p, run) && At(run, 0, [], Frame(0, true, Unlinking))
    ensures Extends(p, next, run, With(Last(run), 0, [], Frame(0, true, Release))
                                    .(installed := Last(run).installed + {0}, aside := Unlinked(Last(run).aside, 0),
                                      init := None))
  {
    hide Run, Moved, Unlinked;
    var s := Last(run);
    MovedWith(s, 0, [], Frame(0, true, Unlinking), Release);
    var s' := With(s, 0, [], Frame(0, true, Release));
    next := Extended(p, run, 0, Go,
                     s'.(installed := s.installed + {0}, aside := Unlinked(s.aside, 0), init := None));
  }

  /** A class without the method: its tables are installed at once. */
  lemma WithoutMethodDone() returns (p: Program, run: seq<State>)
    ensures p.hasInitialize == {} && Done(p, run, {})
  {
    hide Run, Step;
    p := Program(map[1 := 0], {});
    run := AboutToDecide(p);
    run := InstalledAtOnce(p, run);
    run := SendEnds(p, run);
  }

  lemma InstalledAtOnce(p: Program, run: seq<State>) returns (next: seq<State>)
    requires Run(p, run) && At(run, 0, [], Frame(0, true, Decide)) && p.hasInitialize == {}
    ensures Extends(p, next, run, With(Last(run), 0, [], Frame(0, true, Release))
                                    .(installed := Last(run).installed + {0}, init := None))
  {
    hide Run, Moved;
    var s := Last(run);
    MovedWith(s, 0, [], Frame(0, true, Decide), Release);
    var s' := With(s, 0, [], Frame(0, true, Release));
    next := Extended(p, run, 0, Go, s'.(installed := s.installed + {0}, init := None));
  }

  // ----- two threads that wait for each other -----

  lemma SubclassBegins(p: Program, run: seq<State>, t: Thread, front: seq<Frame>) returns (next: seq<State>)
    requires p.sup == map[1 := 0]
    requires Run(p, run) && At(run, t, front, Frame(1, true, Begin))
    ensures Extends(p, next, run, With(Last(run), t, front + [Frame(1, true, WaitSuper)], Frame(0, true, Begin)))
  {
    hide Run, Moved;
    var s := Last(run);
    MovedWith(s, t, front, Frame(1, true, Begin), WaitSuper);
    var s1, s' := s.Goto(t, WaitSuper), With(s, t, front + [Frame(1, true, WaitSuper)], Frame(0, true, Begin));
    assert s1.Push(t, Frame(0, true, Begin)).stacks == s'.stacks;
    next := Extended(p, run, t, Go, s');
  }

  /** The superclass is done with: its call returns to that of the subclass. */
  lemma SuperclassReturns(p: Program, run: seq<State>, t: Thread, front: seq<Frame>) returns (next: seq<State>)
    requires Run(p, run) && At(run, t, front + [Frame(1, true, WaitSuper)], Frame(0, true, Waited))
    requires Last(run).HasTable(0)
    ensures Extends(p, next, run, With(Last(run), t, front, Frame(1, true, Runtime))
                                 .(locks := Released(Last(run).locks, META)))
  {
    hide Run, Moved, Released;
    var s, below := Last(run), front + [Frame(1, true, WaitSuper)];
    assert s.Stack(t)[..|s.Stack(t)| - 1] == below;
    var s1 := s.(stacks := s.stacks[t := below]);
    MovedWith(s1, t, front, Frame(1, true, WaitSuper), Runtime);
    assert s1.Goto(t, Runtime) == With(s, t, front, Frame(1, true, Runtime));
    next := Extended(p, run, t, Go, With(s, t, front, Frame(1, true, Runtime)).(locks := Released(s.locks, META)));
  }

  /** The method of the root class runs on the first thread; the second is within `@synchronized` on that class. */
  lemma OtherSynchronizes(p: Program) returns (run: seq<State>)
    requires p.sup == map[1 := 0] && 0 in p.hasInitialize
    ensures var mine, other := [Frame(0, true, Running)], [Frame(0, false, Synced)];
      Scene(p, run, mine, other, map[META := Held(0, 1), ROOT := Held(1, 1)])
    ensures Last(run).runtime.None?
  {
    hide Run, Step;
    run := Initializing(p);
    run := Calls(p, run, 1, Synchronize(0, false), Frame(0, false, Sync));
    run := Synchronizes(p, run, 1, [], 0, false);
  }

  lemma AsksSuperclass(p: Program) returns (run: seq<State>)
    requires p.sup == map[1 := 0] && 0 in p.hasInitialize
    ensures var mine := [Frame(0, true, Running), Frame(1, true, WaitSuper), Frame(0, true, Runtime)];
      Scene(p, run, mine, [Frame(0, false, Synced)], map[META := Held(0, 1), ROOT := Held(1, 1)])
    ensures Last(run).runtime.None?
  {
    hide Run, Step;
    var front := [Frame(0, true, Running)];
    run := OtherSynchronizes(p);
    run := Calls(p, run, 0, Send(1), Frame(1, true, Begin));
    run := SubclassBegins(p, run, 0, front);
    run := RootBegins(p, run, 0, front + [Frame(1, true, WaitSuper)], 0);
  }

  /** The method sends a message to the subclass; the superclass's turn is soon over. */
  lemma MessagesSubclass(p: Program) returns (run: seq<State>)
    requires p.sup == map[1 := 0] && 0 in p.hasInitialize
    ensures var mine := [Frame(0, true, Running), Frame(1, true, Runtime)];
      Scene(p, run, mine, [Frame(0, false, Synced)], map[META := Held(0, 1), ROOT := Held(1, 1)])
    ensures Last(run).runtime.None?
  {
    hide Run, Step;
    var front := [Frame(0, true, Running)];
    run := AsksSuperclass(p);
    run := LocksRuntime(p, run, 0, front + [Frame(1, true, WaitSuper)], 0);
    run := FindsMarked(p, run, 0, front + [Frame(1, true, WaitSuper)], 0);
    run := WaitsForMeta(p, run, 0, front + [Frame(1, true, WaitSuper)], 0);
    run := SuperclassReturns(p, run, 0, front);
  }

  /** It comes to the creation of the subclass's tables. */
  lemma WouldCreate(p: Program) returns (run: seq<State>)
    requires p.sup == map[1 := 0] && 0 in p.hasInitialize
    ensures Run(p, run) && At(run, 0, [Frame(0, true, Running)], Frame(1, true, Recheck))
    ensures var s := Last(run);
      && s.Stack(1) == [Frame(0, false, Synced)] && s.LockOf(ROOT) == Held(1, 1) && s.runtime == Some(0)
      && s.installed == {} && s.flagged == {0} && s.aside == [0]
  {
    hide Run, Step;
    var front := [Frame(0, true, Running)];
    run := MessagesSubclass(p);
    run := LocksRuntime(p, run, 0, front, 1);
    run := FindsUnmarked(p, run, 0, front, 1);
    run := LocksMeta(p, run, 0, front, 1);
    run := LocksInit(p, run, 0, front, 1);
  }

  /**
   Two threads wait for each other.  The first is in `+initialize` of a class, sends the
   first message to a subclass and has to look up the table of the class, which the second
   has locked by `@synchronized`; the second sends a message to the subclass, too, and waits
   for the runtime lock, which the first has.
   */
  lemma Deadlock() returns (p: Program, run: seq<State>)
    ensures Run(p, run) && run != []
    ensures var s := run[|run| - 1];
      && s.Stack(0) == [Frame(0, true, Running), Frame(1, true, Recheck)] && Step(p, s, 0, Go).None?
      && s.Stack(1) == [Frame(0, false, Synced), Frame(1, true, WaitSuper), Frame(0, true, Runtime)]
      && Step(p, s, 1, Go).None? && !CanCall(s, 0) && !CanCall(s, 1)
  {
    hide Run, Step;
    p := PROGRAM;
    run := WouldCreate(p);
    run := Calls(p, run, 1, Send(1), Frame(1, true, Begin));
    run := SubclassBegins(p, run, 1, [Frame(0, false, Synced)]);
    run := RootBegins(p, run, 1, [Frame(0, false, Synced), Frame(1, true, WaitSuper)], 0);
    BothWait(p, Last(run));
  }

  lemma BothWait(p: Program, s: State)
    requires p.sup == map[1 := 0]
    requires s.Stack(0) == [Frame(0, true, Running), Frame(1, true, Recheck)] && s.LockOf(ROOT) == Held(1, 1)
    requires s.Stack(1) == [Frame(0, false, Synced), Frame(1, true, WaitSuper), Frame(0, true, Runtime)]
    requires s.runtime == Some(0) && s.flagged == {0} && s.installed == {} && s.aside == [0]
    ensures Step(p, s, 0, Go).None? && Step(p, s, 1, Go).None? && !CanCall(s, 0) && !CanCall(s, 1)
  {
  }
}
