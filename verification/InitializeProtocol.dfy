/**
 Sending `+initialize`, as seen by all threads at once.

 Every step is what one thread does between two points at which another can interfere:
 taking or releasing the runtime lock, the initialize lock or the lock of a class object, or
 working while it holds them.  `+initialize` itself is anything, as is the other code of a
 program: it may send messages to other classes, and so initialize them, look up methods,
 register selectors, use `@synchronized` on classes and metaclasses, and return.
 */
module InitializeProtocol {
  import opened Wrappers

  type Class = nat
  type Thread = nat

  datatype Pc =
    // sending `+initialize` to a class
    | Begin        // about to initialize the superclass
    | WaitSuper    // the superclass is being initialized
    | Runtime      // about to lock the runtime
    | Test         // about to test whether the class is initialized
    | Wait         // it is: about to lock the metaclass, to wait until that is over
    | Waited       // has locked the metaclass
    | Meta         // it is not: about to lock the metaclass
    | Init         // about to lock the initialize lock
    | Recheck      // about to test again, mark the class and create its tables
    | Created      // about to unlock the runtime
    | Decide       // about to install the tables or to put them aside
    | Running      // `+initialize` is being executed
    | Remove       // about to lock the initialize lock again
    | Unlinking    // about to install the tables
    | Release      // about to unlock the metaclass
    // looking up the table of a class or of a metaclass
    | Look         // about to test whether the table is installed
    | Search       // holds the initialize lock, about to search the tables put aside
    | LookWait     // has found one: about to lock the object whose table it is
    | LookWaited   // has locked it
    // `@synchronized` on a class or a metaclass
    | Sync         // about to lock the object
    | Synced       // its statements are being executed
    // registering a selector for which the tables have no room
    | Grow         // about to lock the runtime and to see whether there is room meanwhile
    | Growing      // has raised the depth of tables to come: about to lock the initialize lock
    | GrowAside    // about to expand the tables put aside
    | GrowInstalled // about to expand the installed tables

  /** What can be locked: a class object, or its metaclass. */
  datatype Object = Object(c: Class, meta: bool)

  /**
   One call, or one `@synchronized` block.  A lookup is for the table of the class or of its
   metaclass; sending `+initialize` locks the metaclass, and so has `meta` set; registering
   a selector has no class.
   */
  datatype Frame = Frame(c: Class, meta: bool, pc: Pc) {
    function Locked(): Object {
      Object(c, meta)
    }
  }

  datatype Lock = Free | Held(owner: Thread, depth: nat)

  type Stacks = map<Thread, seq<Frame>>

  function StackIn(stacks: Stacks, t: Thread): seq<Frame> {
    if t in stacks then stacks[t] else []
  }

  function Moved(stacks: Stacks, t: Thread, pc: Pc): Stacks
    requires StackIn(stacks, t) != []
  {
    var top := |stacks[t]| - 1;
    stacks[t := stacks[t][..top] + [stacks[t][top].(pc := pc)]]
  }

  function Pushed(stacks: Stacks, t: Thread, f: Frame): Stacks {
    stacks[t := StackIn(stacks, t) + [f]]
  }

  /** A call returns; a caller that was waiting for its superclass goes on. */
  function Popped(stacks: Stacks, t: Thread): Stacks
    requires StackIn(stacks, t) != []
  {
    var rest := stacks[t][..|stacks[t]| - 1];
    var popped := stacks[t := rest];
    if rest != [] && rest[|rest| - 1].pc == WaitSuper then Moved(popped, t, Runtime) else popped
  }

  function LockIn(locks: map<Object, Lock>, o: Object): Lock {
    if o in locks then locks[o] else Free
  }

  /** A lock can be taken again by the thread that holds it. */
  function Acquired(locks: map<Object, Lock>, t: Thread, o: Object): map<Object, Lock> {
    locks[o := Held(t, if LockIn(locks, o) == Free then 1 else LockIn(locks, o).depth + 1)]
  }

  function Released(locks: map<Object, Lock>, o: Object): map<Object, Lock> {
    var l := LockIn(locks, o);
    locks[o := if l.Held? && l.depth > 1 then Held(l.owner, l.depth - 1) else Free]
  }

  /** The hierarchy, and the classes that implement `+initialize` or inherit it. */
  datatype Program = Program(sup: map<Class, Class>, hasInitialize: set<Class>)

  /**
   `aside` lists the classes whose tables, with those of their metaclasses, are in the
   look-aside list; `fault` records a failed assertion or a call to `abort`.
   */
  datatype State = State(stacks: Stacks, runtime: Option<Thread>, init: Option<Thread>,
                         locks: map<Object, Lock>, flagged: set<Class>, installed: set<Class>, aside: seq<Class>,
                         started: set<Class>, fault: bool)
  {
    function Stack(t: Thread): seq<Frame> {
      StackIn(stacks, t)
    }

    function LockOf(o: Object): Lock {
      LockIn(locks, o)
    }

    function Top(t: Thread): Frame
      requires Stack(t) != []
    {
      Stack(t)[|Stack(t)| - 1]
    }

    function Goto(t: Thread, pc: Pc): State
      requires Stack(t) != []
    {
      this.(stacks := Moved(stacks, t, pc))
    }

    function Push(t: Thread, f: Frame): State {
      this.(stacks := Pushed(stacks, t, f))
    }

    function Return(t: Thread): State
      requires Stack(t) != []
    {
      this.(stacks := Popped(stacks, t))
    }

    predicate CanEnter(t: Thread, o: Object) {
      LockOf(o) == Free || LockOf(o).owner == t
    }

    function Enter(t: Thread, o: Object): State {
      this.(locks := Acquired(locks, t, o))
    }

    function Exit(o: Object): State {
      this.(locks := Released(locks, o))
    }

    /** A table can be found for the class, installed or put aside. */
    predicate HasTable(c: Class) {
      c in installed || c in aside
    }

    /** Creating the tables of `c` looks up those of its superclass, and waits if they have been put aside. */
    predicate CanCreate(p: Program, t: Thread, c: Class) {
      c in p.sup && p.sup[c] !in installed && p.sup[c] in aside ==>
        CanEnter(t, Object(p.sup[c], false)) && CanEnter(t, Object(p.sup[c], true))
    }
  }

  /** The first occurrence of `c` is taken out. */
  function Unlinked(list: seq<Class>, c: Class): seq<Class> {
    if list == [] then [] else if list[0] == c then list[1..] else [list[0]] + Unlinked(list[1..], c)
  }

  /** `Enough` is what a thread finds that registers a selector for which there is room by now. */
  datatype Action =
    | Send(c: Class) | LookUp(c: Class, meta: bool) | Synchronize(c: Class, meta: bool) | Register | Enough | Go

  /** What a thread does next; `None` if it has to wait, or cannot do that. */
  function Step(p: Program, s: State, t: Thread, a: Action): Option<State> {
    match a
    case Send(c) => if CanCall(s, t) then Some(s.Push(t, Frame(c, true, Begin))) else None
    case LookUp(c, meta) => if CanCall(s, t) then Some(s.Push(t, Frame(c, meta, Look))) else None
    case Synchronize(c, meta) => if CanCall(s, t) then Some(s.Push(t, Frame(c, meta, Sync))) else None
    case Register => if CanCall(s, t) then Some(s.Push(t, Frame(0, false, Grow))) else None
    case Enough => if s.Stack(t) != [] && s.Top(t).pc == Grow && s.runtime.None? then Some(s.Return(t)) else None
    case Go => if s.Stack(t) == [] then None else Advance(p, s, t, s.Top(t).c, s.Top(t).pc)
  }

  /** Messages are sent by ordinary code, also within `@synchronized`, and by `+initialize` methods. */
  predicate CanCall(s: State, t: Thread) {
    s.Stack(t) == [] || s.Top(t).pc == Running || s.Top(t).pc == Synced
  }

  function Advance(p: Program, s: State, t: Thread, c: Class, pc: Pc): Option<State>
    requires s.Stack(t) != []
  {
    if Sends(pc) then AdvanceSend(p, s, t, c, pc) else AdvanceCall(s, t, c, pc)
  }

  /** `objc_send_initialize`. */
  function AdvanceSend(p: Program, s: State, t: Thread, c: Class, pc: Pc): Option<State>
    requires s.Stack(t) != [] && Sends(pc)
  {
    var o := s.Top(t).Locked();
    match pc
    case Begin =>
      if c in p.sup then Some(s.Goto(t, WaitSuper).Push(t, Frame(p.sup[c], true, Begin))) else Some(s.Goto(t, Runtime))
    case WaitSuper => None
    case Runtime => if s.runtime.None? then Some(s.Goto(t, Test).(runtime := Some(t))) else None
    case Test =>
      if c in s.flagged then Some(s.Goto(t, Wait).(runtime := None)) else Some(s.Goto(t, Meta))
    case Wait => if s.CanEnter(t, o) then Some(s.Goto(t, Waited).Enter(t, o)) else None
    case Waited => Some(s.Return(t).Exit(o).(fault := s.fault || !s.HasTable(c)))
    case Meta => if s.CanEnter(t, o) then Some(s.Goto(t, Init).Enter(t, o)) else None
    case Init => if s.init.None? then Some(s.Goto(t, Recheck).(init := Some(t))) else None
    case Recheck =>
      if c in s.flagged then Some(s.Return(t).Exit(o).(init := None, runtime := None))
      else if !s.CanCreate(p, t, c) then None
      else
        Some(s.Goto(t, Created).(flagged := s.flagged + {c}, fault := s.fault || (c in p.sup && !s.HasTable(p.sup[c]))))
    case Created => Some(s.Goto(t, Decide).(runtime := None))
    case Decide =>
      if c in p.hasInitialize then
        Some(s.Goto(t, Running).(aside := [c] + s.aside, started := s.started + {c}, init := None))
      else Some(s.Goto(t, Release).(installed := s.installed + {c}, init := None))
    case Running => Some(s.Goto(t, Remove))
    case Remove => if s.init.None? then Some(s.Goto(t, Unlinking).(init := Some(t))) else None
    case Unlinking =>
      Some(s.Goto(t, Release).(installed := s.installed + {c}, aside := Unlinked(s.aside, c), init := None))
    case Release => Some(s.Return(t).Exit(o))
  }

  /** `dtable_for_class`, `@synchronized` and `objc_resize_dtables`. */
  function AdvanceCall(s: State, t: Thread, c: Class, pc: Pc): Option<State>
    requires s.Stack(t) != [] && !Sends(pc)
  {
    var o := s.Top(t).Locked();
    match pc
    case Look =>
      if c in s.installed then Some(s.Return(t))
      else if s.init.None? then Some(s.Goto(t, Search).(init := Some(t))) else None
    case Search =>
      if c !in s.installed && c in s.aside then Some(s.Goto(t, LookWait).(init := None))
      else Some(s.Return(t).(init := None))
    case LookWait => if s.CanEnter(t, o) then Some(s.Goto(t, LookWaited).Enter(t, o)) else None
    case LookWaited => Some(s.Return(t).Exit(o))
    case Sync => if s.CanEnter(t, o) then Some(s.Goto(t, Synced).Enter(t, o)) else None
    case Synced => Some(s.Return(t).Exit(o))
    case Grow => if s.runtime.None? then Some(s.Goto(t, Growing).(runtime := Some(t))) else None
    case Growing => if s.init.None? then Some(s.Goto(t, GrowAside).(init := Some(t))) else None
    case GrowAside => Some(s.Goto(t, GrowInstalled).(init := None))
    case GrowInstalled => Some(s.Return(t).(runtime := None))
  }

  // ----- which call holds which lock -----

  predicate HoldsRuntime(pc: Pc) {
    || pc == Test || pc == Meta || pc == Init || pc == Recheck || pc == Created
    || pc == Growing || pc == GrowAside || pc == GrowInstalled
  }

  predicate HoldsInit(pc: Pc) {
    pc == Recheck || pc == Created || pc == Decide || pc == Unlinking || pc == Search || pc == GrowAside
  }

  predicate HoldsMeta(pc: Pc) {
    || pc == Init || pc == Recheck || pc == Created || pc == Decide || pc == Running || pc == Remove
    || pc == Unlinking || pc == Release || pc == Waited || pc == LookWaited || pc == Synced
  }

  /** The call that initializes the class. */
  predicate Initializes(pc: Pc) {
    pc == Created || pc == Decide || pc == Running || pc == Remove || pc == Unlinking || pc == Release
  }

  predicate PutAside(pc: Pc) {
    pc == Running || pc == Remove || pc == Unlinking
  }

  predicate PastSuper(pc: Pc) {
    Sends(pc) && pc != Begin && pc != WaitSuper
  }

  /** How often the calls of a stack hold the lock of an object. */
  function Count(stack: seq<Frame>, o: Object): nat {
    if stack == [] then 0
    else
      var top := stack[|stack| - 1];
      Count(stack[..|stack| - 1], o) + (if top.Locked() == o && HoldsMeta(top.pc) then 1 else 0)
  }

  // ----- the invariant -----

  /** The superclass is done, or is being initialized further down on the same stack. */
  ghost predicate SuperOk(p: Program, s: State, t: Thread, i: nat, c: Class) {
    c in p.sup ==> p.sup[c] in s.installed || OwnStack(s, t, i, p.sup[c])
  }

  ghost predicate OwnStack(s: State, t: Thread, i: nat, c: Class) {
    exists j :: 0 <= j < i && j < |s.Stack(t)| && s.Stack(t)[j] == Frame(c, true, Running)
  }

  /** Only the last call on a stack can act; the others wait for it. */
  ghost predicate ShapeOk(p: Program, s: State, t: Thread, i: nat)
    requires i < |s.Stack(t)|
  {
    var f, last := s.Stack(t)[i], |s.Stack(t)| - 1;
    && (i < last ==> f.pc == WaitSuper || f.pc == Running || f.pc == Synced)
    && (f.pc == WaitSuper ==>
          i < last && f.c in p.sup && s.Stack(t)[i + 1].c == p.sup[f.c] && Sends(s.Stack(t)[i + 1].pc))
  }

  /** The call sends `+initialize`. */
  predicate Sends(pc: Pc) {
    && pc != Look && pc != Search && pc != LookWait && pc != LookWaited && pc != Sync && pc != Synced
    && pc != Grow && pc != Growing && pc != GrowAside && pc != GrowInstalled
  }

  /** What a call relies on, apart from its place on the stack. */
  ghost predicate CallOk(s: State, t: Thread, f: Frame) {
    && (Sends(f.pc) ==> f.meta)
    && (HoldsRuntime(f.pc) ==> s.runtime == Some(t))
    && (HoldsInit(f.pc) ==> s.init == Some(t))
    && (f.pc == Meta || f.pc == Init || f.pc == Recheck ==> f.c !in s.flagged)
    && (Initializes(f.pc) ==> f.c in s.flagged)
    && (f.pc == Release ==> f.c in s.installed)
    && (PutAside(f.pc) ==> f.c in s.aside)
    && (f.pc == Created || f.pc == Decide ==> f.c !in s.installed && f.c !in s.aside && f.c !in s.started)
    && (f.pc == Wait || f.pc == Waited || f.pc == LookWait || f.pc == LookWaited ==> f.c in s.flagged)
  }

  ghost predicate FrameOk(p: Program, s: State, t: Thread, i: nat)
    requires i < |s.Stack(t)|
  {
    var f := s.Stack(t)[i];
    ShapeOk(p, s, t, i) && CallOk(s, t, f) && (PastSuper(f.pc) ==> SuperOk(p, s, t, i, f.c))
  }

  ghost predicate IsInitializer(s: State, t: Thread, i: nat, c: Class) {
    i < |s.Stack(t)| && s.Stack(t)[i].c == c && Initializes(s.Stack(t)[i].pc)
  }

  ghost predicate LockOk(s: State, o: Object) {
    match s.LockOf(o)
    case Free => forall t {:trigger s.Stack(t)} :: Count(s.Stack(t), o) == 0
    case Held(t, n) =>
      && n > 0 && Count(s.Stack(t), o) == n
      && forall u {:trigger s.Stack(u)} :: u != t ==> Count(s.Stack(u), o) == 0
  }

  ghost predicate Taken(c: Class, s: State) {
    exists t, i :: IsInitializer(s, t, i, c)
  }

  ghost predicate FramesOk(p: Program, s: State) {
    forall t, i: nat {:trigger FrameOk(p, s, t, i)} :: i < |s.Stack(t)| ==> FrameOk(p, s, t, i)
  }

  ghost predicate HoldersOk(s: State) {
    && (s.runtime.Some? ==> s.Stack(s.runtime.value) != [] && HoldsRuntime(s.Top(s.runtime.value).pc))
    && (s.init.Some? ==> s.Stack(s.init.value) != [] && HoldsInit(s.Top(s.init.value).pc))
  }

  ghost predicate LocksOk(s: State) {
    forall o {:trigger LockOk(s, o)} :: LockOk(s, o)
  }

  /** A class is being initialized by at most one call, and by one if it is marked but not done. */
  ghost predicate InitializersOk(s: State) {
    && (forall c {:trigger Taken(c, s)} :: c in s.flagged && c !in s.installed ==> Taken(c, s))
    && (forall t, i, u, j, c :: IsInitializer(s, t, i, c) && IsInitializer(s, u, j, c) ==> t == u && i == j)
  }

  ghost predicate SetsOk(s: State) {
    && (forall c :: c in s.aside ==> c in s.flagged && c !in s.installed)
    && (forall i, j :: 0 <= i < j < |s.aside| ==> s.aside[i] != s.aside[j])
    && s.installed <= s.flagged && s.started <= s.flagged
  }

  ghost predicate Inv(p: Program, s: State) {
    !s.fault && FramesOk(p, s) && HoldersOk(s) && LocksOk(s) && InitializersOk(s) && SetsOk(s)
  }
}
