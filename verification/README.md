# Proofs about the Objective-C runtime's message dispatch

This project models the message-dispatch engine of libobjc2 and a few self-contained
algorithms of gnustep-base in Dafny, and proves what they are for: that fast structures
agree with the slow rules they stand for, that invariants survive every operation, and
that a multi-threaded protocol is safe in every interleaving.

`dafny verify dfyconfig.toml` checks the whole project.

| part | files |
|---|---|
| Copy-on-write sparse arrays with reference counts, on heap nodes | `SparseMemory.dfy`, `SparseCounting.dfy`, `SparseSharing.dfy`, `SparseHeap.dfy`, `SparseEnumeration.dfy` |
| Dispatch tables, method caches, re-parenting | `DispatchModel.dfy`, `DispatchAgreement.dfy`, `DispatchRebase.dfy`, `DispatchSteps.dfy`, `DispatchTables.dfy`, `DispatchRuns.dfy`, `DispatchScan.dfy`, `DispatchExamples.dfy` |
| Class and metaclass tree with its intrusive lists, resolving, disposing | `ObjcClass.dfy`, `ClassLinking.dfy`, `Hierarchy.dfy`, `Reparenting.dfy`, `ClassTable.dfy`, `ClassExamples.dfy` |
| The `+initialize` protocol as a transition system, and its look-aside list | `InitializeProtocol.dfy`, `InitializeSteps.dfy`, `InitializeRuns.dfy`, `InitializeExamples.dfy`, `LookAside.dfy` |
| The sizes of dispatch tables under that protocol | `TableGrowth.dfy` |
| Hopscotch hash table | `Hopscotch.dfy`, `HashTable.dfy` |
| Selector registry, equality of type encodings, selectors as keys of a hash table | `SelectorTypes.dfy`, `SelectorTable.dfy`, `SelectorKeys.dfy` |
| Type-encoding grammar and scanner | `TypeEncoding.dfy`, `EncodingScanner.dfy` |
| Instance-variable layout | `IvarLayout.dfy` |
| Ordering of combining marks | `CombiningMarks.dfy` |
| Name server registry | `NameMap.dfy`, `NameServer.dfy` |
| Shared definitions | `Wrappers.dfy`, `Arithmetic.dfy` |

The parts fit together. A dispatch table is treated as a finite map because the sparse array
part proves that lookups, inserts, copies and expansions are those of a map. Walking over a
table is not walking over a map: the enumeration comes only to the selectors from 1 to 0xFEFF
in tables of 16 bits, and to those below 0xFF in tables of 8 bits, as
`SparseEnumeration.Enumerate` proves. The dispatch part has this limit (`DispatchModel.Limit`);
`DispatchScan.EnumerateTable` proves that it is the one of the enumeration. The subclass list
of a class is treated as a sequence because the class-tree part proves what following the links
visits. The selector registry finds its selectors in the hash table of the hash-table part,
under the hashes of their names. The dispatch part grows all tables in one step;
`TableGrowth.dfy` says when the threads of the `+initialize` protocol keep all tables of the
same size.

## How to read the proofs

Where the source changes things in place, there is a class with the source's fields and a
snapshot datatype. Methods state the new snapshot in terms of the old one, and the
invariants are proved about snapshots.

- **Sparse arrays.** `Books` holds the nodes, the references that callers own (`roots`) and
  the entries that hold a reference (`edges`). `Books.Stable` says, among other things, that
  every count equals the number of such references and that live nodes have at least one.
  During a destruction the nodes being taken apart are listed in `dying`.
- **Dispatch tables.** `World.Resolve` is the slow rule. `Settled(w, x)` says that every
  table holds the methods of its class and for all other selectors what the table of the
  superclass holds, except for the classes of `x`, whose superclass has just been changed;
  `DispatchAgreement.SettledAgrees` turns this into agreement with the slow rule. `Affected`
  describes which tables an installation reaches. `AddStep`, `CreateStep`, `InitializeStep`,
  `RebaseStep`, `RebuildStep` and `SuperStep` are the relations that the methods are proved
  to bring about, and the lemmas are about these. `DispatchRuns.Run` is any sequence of
  operations from loaded classes that have no tables; each operation has a condition that
  can be looked up before it.
- **Class tree.** `Graph.Stable` relates the fields, whose meaning changes when a class is
  resolved, to the list of unresolved classes (`pending`) and to the lists of subclasses
  (`kids`). `Grounded` says that the chain of superclasses, by pointer or by name, ends at a
  root class. `AllLoaded` says that no chain meets a superclass that has not been loaded.
- **`+initialize`.** A state holds the stacks of all threads; each frame is one call of
  `objc_send_initialize`, `dtable_for_class` or `objc_resize_dtables`, or one `@synchronized`
  block, with its place in the code. `Step` is one step of one thread; `Inv` is kept by every
  step. `Running` is the place at which `+initialize` executes and `Synced` that at which the
  statements of a block do, and there may be any further calls. A frame and a lock belong to
  a class object or, with `meta`, to its metaclass. `Passes` says that a lock is free to a
  thread at once or after one step of a thread that gives it back at once; `Keeps` that a
  thread has the lock for as long as code of the program runs.
- **Table sizes.** `Sized` adds the size of every table to a state of the protocol. `Growth`
  says whether a step registers a selector, in the middle of creating a table, for which the
  tables have no room. `Lifted` proves that every run of the protocol is one with sizes.
- **Instance variables.** `Computed(c, d)` says that the class `c` and all its superclasses,
  with declarations `d`, have been laid out; `Ready` and `Right` say from which states the
  computation gets there.

## Where the code does something other than one might expect

These are stated as lemmas or contracts, for all inputs.

- An override that shares its implementation with the inherited method is not installed
  (`DispatchExamples.SharedImplementation`; `DispatchAgreement.CreatedSettled` and
  `DispatchAgreement.AddedSettled` give the exact conditions under which tables agree).
- A list of methods that holds two methods for one selector installs the last one, while
  the slow rule finds the first one (`DispatchExamples.TwoForOneSelector`); this too is part
  of `DispatchAgreement.OkToAdd`.
- Enumerating a sparse array never ends if entry 255 of a leaf root is in use
  (`SparseEnumeration.LastEntryNeverEnds`), and does not visit the last child of a root of
  shift 8. So a method with a selector from 0xFF00 on that is added to a class which has a
  table is never found (`DispatchAgreement.HighSelectorLost`, and
  `DispatchAgreement.HighSelectorExample` for 0xFF10), and when a class gets another
  superclass, what it inherits for such selectors does not change (`DispatchSteps.CarriedOver`
  and `DispatchSteps.SuperSettled` give the exact condition under which that is right).
- `SparseArrayExpandingArray` compares a depth with a shift, so the early return is taken
  only for an array that is a level deeper than asked for.
- `dtable_for_class` is documented to block while `+initialize` runs on another thread. It
  locks the object it is asked about, while initialization holds the lock of the metaclass,
  so it blocks if and only if it is asked about the metaclass, or the method is within
  `@synchronized` on the class, which takes the same lock (`InitializeRuns.LookupBlocks`). A
  message to an instance asks about the class: `InitializeExamples.ClassLookupReturns` is a
  run in which it is answered while `+initialize` is still under way on another thread, and
  `InitializeExamples.ClassLookupWaits` one in which it has to wait.
- Creating the tables of a class looks up those of the superclass, with the runtime lock and
  the initialize lock held, and waits as long as another thread is within `@synchronized` on
  the superclass, if that is still being initialized (`InitializeRuns.CreationDoesNotBlock`
  gives the exact condition). If that other thread then sends the first message to a class,
  the two wait for each other for ever (`InitializeExamples.Deadlock`).
- Registering a selector makes all tables deeper for which it has no room, except one that is
  just being created. The thread that creates it can come to register a selector itself: that
  of `+initialize`, if no class has it, or those of constructors and destructors. Then it stays
  smaller than all others, so that for a selector beyond its size a lookup reads the entry of
  another selector (`SparseMemory.SameKeyIsModulo`). All tables are of the same size in a run
  if and only if this does not happen in it (`TableGrowth.TablesCurrent`,
  `TableGrowth.GrowsWhileDeciding`). It can also make two threads wait for each other for
  ever (`TableGrowth.GrowthDeadlock`).
- Disposing of a class that is not resolved leaves it in the list of unresolved classes; one
  with linked subclasses leaves these without a superclass; for a resolved root class a null
  pointer is followed (`ClassTables.ClassTable.DisposeClassPair`).
- Moving a class that has subclasses below another root leaves the metaclasses of the
  subclasses with the old root's metaclass as their class
  (`ClassExamples.MoveUnderAnotherRoot`; `ClassTables.ClassTable.SetSuperclass` and
  `Reparenting.MovedStable` give the exact condition).
- Computing the layout of a class without a list of instance variables copies the instance
  size of the superclass without computing that first, so it is wrong just if the superclass
  has not been laid out before (`IvarLayout.NoListRight`).
- A bit-field that shares a variable with what is before it is placed relative to where that
  variable would begin without padding, so it keeps its place in that variable if and only if
  no padding was needed (`IvarLayout.SharedPlace`; in `IvarLayout.SharedMisplaced` it ends up
  before the variable).
- An alignment of 2^31 or more cannot be read back from a variable's flags
  (`IvarLayout.SetAlignGetAlign`).
- A bare `@` before a quoted field name, before `?`, or a bit-field before a frame offset, is
  misread by the type scanner; `TypeEncoding.ScansTypeExactly` gives the exact condition.
- Comparing the type encodings of two selectors ends with the first one: apart from qualifiers
  and digits, an encoding is taken to be equal to every longer one that begins with it, unless
  it ends in one of these, as the encodings that compilers emit do (`SelectorTypes.TypesEqualIs`
  gives the exact condition for encodings without `*`). `*` in the second encoding stands for
  `^c` and `^C`; in the first one it does not stand for `^c`, because a wrong character is
  examined (`SelectorTypes.OrderMatters`).
- The number of arguments of an empty signature is 2^32 - 1.
- Registering a name for the port it has already reports success but keeps the old type
  (`NameMap.RegisteredIsFound`). Registering a name of a dead server for port zero is
  answered as a refusal but gives the name that port and the new type; `NameMap.Gives` and
  `NameMap.Takes` list all that gives and takes names (`NameMap.History`).
- A client refuses a list of names that is longer than 10000000 bytes, although the server
  sends it (`NameServer.ExchangeNames`).

## Model

| member | source | states |
|---|---|---|
| SparseHeaps.SparseHeap.SparseArrayLookup | src/system/libobjc2/sarray2.h:70-106 | the unrolled lookup reads the entry that the recursive meaning of the tree gives for the key, at every shift |
| SparseHeaps.SparseHeap.SparseArrayNewWithDepth | src/system/libobjc2/sarray2.c:47-54 | a new array is empty under every key, is owned once, and no other array changes |
| SparseHeaps.SparseHeap.SparseArrayInsert | src/system/libobjc2/sarray2.c:143-182 | exactly the keys equal to the index modulo the capacity change, to the value; every other array keeps all its entries although subtrees are shared; all counts stay right |
| SparseHeaps.SparseHeap.SparseArrayCopy | src/system/libobjc2/sarray2.c:184-207 | the copy holds the same entries, has one owner, and no array changes |
| SparseHeaps.SparseHeap.CopyNode | src/system/libobjc2/sarray2.c:184-207 | only the root is copied, and every child that is a real node gains one reference |
| SparseHeaps.SparseHeap.PrepareChild | src/system/libobjc2/sarray2.c:145-176 | after the copy-on-write step the child is reachable from this array only and holds what it held |
| SparseHeaps.SparseHeap.SparseArrayDestroy | src/system/libobjc2/sarray2.c:209-229 | the owner's reference is given up, nodes may be freed but all counts stay right, and every array that still has an owner keeps its entries |
| SparseHeaps.SparseHeap.SparseArrayExpandingArray | src/system/libobjc2/sarray2.c:60-82 | the new root answers every old key as before and every new key with nothing; other arrays are unchanged |
| SparseCounting.InitiallyStable | src/system/libobjc2/sarray2.c:9-34 | the static empty nodes alone satisfy the invariant |
| SparseCounting.SharedStable | src/system/libobjc2/sarray2.c:184-207 | counting the references of a copied root entry by entry keeps the invariant |
| SparseCounting.CopyStable | src/system/libobjc2/sarray2.c:184-207 | a copied root whose children have been counted satisfies the invariant |
| SparseCounting.StoredStable | src/system/libobjc2/sarray2.c:160-181 | overwriting an entry moves its reference to the caller and keeps the counts exact |
| SparseCounting.DroppedStable | src/system/libobjc2/sarray2.c:211-219 | giving up a reference keeps the counts exact, and the last one makes the node one to be taken apart |
| SparseCounting.FreedStable | src/system/libobjc2/sarray2.c:220-228 | a node is freed only when nothing refers to it, and nothing is left pointing to it |
| SparseCounting.OnlyOwner | src/system/libobjc2/sarray2.c:169-175 | a node with a count of one is referred to by its owner and by no entry |
| SparseMemory.SameKeyIsModulo | src/system/libobjc2/sarray2.h:63-64 | keys that take the same path are those that are equal modulo the capacity |
| SparseSharing.AllOthersUnaffected | src/system/libobjc2/sarray2.c:143-182 | nodes that an insert touches are not part of any other array |
| SparseSharing.InsertedModulo | src/system/libobjc2/sarray2.c:143-182 | an insert below a root changes the root's entries at one key only |
| SparseSharing.CopyContents | src/system/libobjc2/sarray2.c:184-207 | copy and original answer every key alike |
| SparseSharing.AllocatedIsReachable | src/system/libobjc2/sarray2.c:209-229 | nothing leaks: every allocated node can be reached from an owner |
| SparseSharing.ExpandedContents | src/system/libobjc2/sarray2.c:60-82 | an expanded array answers old keys as before and new ones with nothing |
| SparseEnumeration.ValidIsReadable | src/system/libobjc2/sarray2.c:84-135 | every array of a valid heap can be enumerated |
| SparseEnumeration.SparseArrayFind | src/system/libobjc2/sarray2.c:84-135 | it finds the first non-empty entry from the index on, skipping empty subtrees without losing any |
| SparseEnumeration.SparseArrayNext | src/system/libobjc2/sarray2.c:137-141 | it finds the first non-empty entry behind the index |
| SparseEnumeration.Enumerate | src/system/libobjc2/sarray2.c:84-141 | repeated calls yield every entry with a key below 255, or 0xFF00, exactly once in ascending order |
| SparseEnumeration.LastEntryNeverEnds | src/system/libobjc2/sarray2.c:84-141 | an entry at 255 in a leaf root is yielded again and again |
| DispatchModel.PartlyStep | src/system/libobjc2/dtable.c:333-346 | handing an installation to one subclass after another adds up to `Affected` |
| DispatchModel.AffectedFrame | src/system/libobjc2/dtable.c:333-346 | what an installation reaches depends only on the tables below the class |
| DispatchTables.Dispatch.InstallMethod | src/system/libobjc2/dtable.c:284-354 | installs just if the guards hold; exactly the tables that inherit the replaced entry change, at one selector; the version grows if a non-null entry is replaced |
| DispatchTables.Dispatch.AddMethodList | src/system/libobjc2/dtable.c:472-488 | a new list in front changes exactly the inheriting entries, at exactly the selectors that the enumeration comes to; cached slots stay right as long as the version is the same |
| DispatchTables.Dispatch.CollectMethods | src/system/libobjc2/dtable.c:178-192 | of two methods for a selector the later one is collected |
| DispatchTables.Dispatch.AddMethod | src/system/libobjc2/runtime.c:154-191 | refuses just if the class defines the selector; keeps all tables right if and only if the class has no table, or the enumeration comes to the selector and the implementation differs from the inherited one |
| DispatchTables.Dispatch.CreateDtable | src/system/libobjc2/dtable.c:490-546 | the new table is the superclass's with the first own methods that differ in implementation |
| DispatchTables.Dispatch.Initialize | src/system/libobjc2/dtable.c:680-735 | tables are created from the root downwards for class and metaclass, and agree with the slow rule; all else that the next operation needs is kept |
| DispatchTables.Dispatch.Merge | src/system/libobjc2/dtable.c:425-434 | entries of the superclass are taken over for those selectors that the class does not define and the enumeration comes to |
| DispatchTables.Dispatch.Prune | src/system/libobjc2/dtable.c:435-446 | entries inherited from the former superclass are gone, except those that the enumeration does not come to |
| DispatchTables.Dispatch.Rebase | src/system/libobjc2/dtable.c:397-457 | the tables of a class and of all below it inherit from the new superclass wherever the enumeration comes; no other table changes |
| DispatchTables.Dispatch.UpdateForNewSuperclass | src/system/libobjc2/dtable.c:459-470 | the table and those below it, if there is one, are rebuilt as `Rebase` does, and the version has grown |
| DispatchTables.Dispatch.SetSuperclass | src/system/libobjc2/runtime.c:496-553 | all tables agree with the new hierarchy if and only if nothing has to change at a selector that the enumeration does not come to; caches are invalidated, and only the two links change |
| DispatchTables.Dispatch.ResizeDtables | src/system/libobjc2/dtable.c:551-560 | grows by one step of eight bits just if the selectors do not fit; this makes room for up to 256 times as many |
| DispatchTables.Dispatch.GetSlot | src/system/libobjc2/sendmsg2.c:352-393 | a lookup gives what the slow rule gives, with the version at which it holds |
| DispatchAgreement.AddedAgreesAt | src/system/libobjc2/dtable.c:356-377 | adding a list keeps a selector right in all tables if and only if the enumeration comes to it and it clashes with nothing |
| DispatchAgreement.AddedSettled | src/system/libobjc2/dtable.c:472-488 | adding a list keeps all tables right if and only if the enumeration comes to all its selectors and none clashes |
| DispatchAgreement.HighSelectorLost | src/system/libobjc2/dtable.c:356-377 | a method with a selector from 0xFF00 on, added to a class with a table, is what the slow rule finds but is not in the table |
| DispatchAgreement.HighSelectorExample | src/system/libobjc2/sarray2.c:84-141 | such an addition exists, at 0xFF10 |
| DispatchAgreement.CreatedSettled | src/system/libobjc2/dtable.c:510-546 | creating a table keeps all tables right if and only if no own method shares its implementation with the one it overrides |
| DispatchAgreement.RebasedSettled | src/system/libobjc2/dtable.c:397-457 | rebuilding a subtree makes it agree with the slow rule if and only if its top already inherits the right entries for the selectors that the enumeration does not come to |
| DispatchAgreement.RelinkedSettled | src/system/libobjc2/runtime.c:508-537 | changing the links leaves all tables right that are not below the class that moves |
| DispatchAgreement.SettledAgrees | src/system/libobjc2/dtable.c:284-354 | in a settled state every table agrees with the slow rule at every selector |
| DispatchScan.EnumerateTable | src/system/libobjc2/sarray2.c:84-141 | walking over the array that holds a table lists exactly those of its selectors that the dispatch part takes the walk to come to, in ascending order, with their methods |
| DispatchScan.AddedIsFound | src/system/libobjc2/dtable.c:356-377 | the last method added for a selector is in the table afterwards, at every selector from 1 to 0xFE at 8 bits and from 1 to 0xFEFF at 16 bits, unless it shares its implementation with the inherited one; if it is the only one, all tables hold what the slow rule finds |
| DispatchScan.AddedMethodIsFound | src/system/libobjc2/runtime.c:154-191 | the same for a single method |
| DispatchScan.RebuiltIsFound | src/system/libobjc2/dtable.c:397-457 | at the same selectors a rebuilt table holds what the table of its new superclass holds |
| DispatchRebase.PairMovedSound | src/system/libobjc2/runtime.c:503-537 | moving a class and its metaclass keeps the hierarchy acyclic, its lists exact and the metaclasses a mirror |
| DispatchSteps.InitializeKept | src/system/libobjc2/dtable.c:680-735 | after the first message the class has a table, and whatever later operations need still holds |
| DispatchSteps.SuperSettled | src/system/libobjc2/runtime.c:496-553 | after a move all tables agree with the slow rule if and only if class and metaclass may keep what they inherit for selectors that the enumeration does not come to |
| DispatchRuns.OpKeeps | src/system/libobjc2/dtable.c:356-735 | each operation, wherever its condition holds, keeps the invariant of runs and the meaning of the version |
| DispatchRuns.RunAgrees | src/system/libobjc2/dtable.c:284-735 | in every state of every run from freshly loaded classes, every table agrees with the slow rule at every selector |
| DispatchRuns.RunCoherent | src/system/libobjc2/sendmsg2.c:352-393 | between any two states of a run with the same version, whatever was found at the first is found at the second |
| DispatchRuns.CachedSlotIsRight | src/system/libobjc2/sendmsg2.c:352-393 | a slot cached at any time is what the slow rule finds at any later time, if the version is still the same |
| DispatchExamples.SharedImplementation | src/system/libobjc2/dtable.c:300-311 | running the operations: a method that shares its implementation with the one it overrides is not in the table |
| DispatchExamples.TwoForOneSelector | src/system/libobjc2/dtable.c:178-192 | running the operations: of two methods in a list the table has the second and the slow rule finds the first |
| ClassLinking.UnlinkedPending | src/system/libobjc2/class_table.c:187-202 | taking a class out leaves a doubly linked list of exactly the other unresolved classes |
| ClassLinking.ResolvedStable | src/system/libobjc2/class_table.c:150-258 | resolving a class keeps both kinds of list, the pairing and the mirror of metaclasses |
| Hierarchy.LinkedIsGrounded | src/system/libobjc2/class_table.c:150-186 | the chain of a resolved class is resolved up to a root class |
| Reparenting.LoadedStable | src/system/libobjc2/class_table.c:110-117 | putting a class at the front of the list keeps the invariant, whether or not its superclass has been loaded |
| Reparenting.LoadedRanked | src/system/libobjc2/class_table.c:409-444 | a class whose chain does not wait for its own name closes no cycle |
| Reparenting.CutLists | src/system/libobjc2/runtime.c:665-686 | taking a class out of its superclass's list leaves all lists exact |
| Reparenting.MovedStable | src/system/libobjc2/runtime.c:503-537 | moving a linked class with its metaclass keeps the invariant if and only if the root stays the same or the class has no subclasses |
| Reparenting.MovedRanked | src/system/libobjc2/runtime.c:503-537 | moving a class below one that is not its descendant closes no cycle |
| Reparenting.ForgottenStable | src/system/libobjc2/runtime.c:688-700 | without a disposed leaf class the invariant still holds |
| Reparenting.Disposed | src/system/libobjc2/runtime.c:688-700 | what is left after a disposal is in order if and only if the class was linked and no linked class was below it |
| ClassTables.ClassTable.LoadClass | src/system/libobjc2/class_table.c:409-461 | a class with a new name becomes the first unresolved class, also before its superclass is loaded; one with a known name changes nothing |
| ClassTables.ClassTable.RootMeta | src/system/libobjc2/class_table.c:217-224 | the walk up ends at the metaclass of the root class |
| ClassTables.ClassTable.LinkClass | src/system/libobjc2/class_table.c:187-243 | the class leaves one list and joins another, and its metaclass is filled in |
| ClassTables.ClassTable.ResolveClass | src/system/libobjc2/class_table.c:150-281 | succeeds if and only if the chain ends at a root class; then exactly the chain is resolved, otherwise nothing is |
| ClassTables.ClassTable.ResolvePass | src/system/libobjc2/class_table.c:290-310 | one pass shortens the list or resolves nothing, and then nothing could be resolved; the assertion on a class resolved meanwhile holds |
| ClassTables.ClassTable.ResolveClassLinks | src/system/libobjc2/class_table.c:283-312 | ends, with exactly those classes resolved whose chain ends at a root class, and exactly the others in the list |
| ClassTables.ClassTable.SafeRemove | src/system/libobjc2/runtime.c:665-686 | the walk along the siblings finds the class and takes out it alone |
| ClassTables.ClassTable.SetSuperclass | src/system/libobjc2/runtime.c:496-537 | class and metaclass move and nothing else changes; the whole invariant is kept if and only if the root stays the same or the class has no subclasses |
| ClassExamples.MoveUnderAnotherRoot | src/system/libobjc2/runtime.c:496-537 | running the operations: moving a class that has a subclass below another root breaks the invariant |
| ClassTables.ClassTable.DisposeClassPair | src/system/libobjc2/runtime.c:688-700 | class and metaclass are gone from the lists and the table; the invariant is kept if and only if the class was resolved and no resolved class is below it; it fails just for a resolved root |
| ClassTables.ClassTable.SubclassListIsExact | src/system/libobjc2/runtime.c:665-686 | the links from a resolved class visit exactly its resolved direct subclasses, once each |
| ClassTables.ClassTable.MetaclassesMirror | src/system/libobjc2/class_table.c:204-230 | the superclass of a metaclass is the metaclass of the superclass or the root class, and its class is the metaclass of the root |
| InitializeRuns.StepInv | src/system/libobjc2/dtable.c:664-789 | every step of every thread keeps the protocol's invariant, also those of `@synchronized` on classes and of growing the tables |
| InitializeRuns.RunInv | src/system/libobjc2/dtable.c:664-789 | the invariant holds in every state of every run |
| InitializeRuns.NoFault | src/system/libobjc2/dtable.c:707 | neither the assertion on the tables of a marked class nor the `abort` in table creation is ever reached |
| InitializeRuns.StartsOnce | src/system/libobjc2/dtable.c:711-730 | in no run is `+initialize` started twice for a class |
| InitializeRuns.MethodsOnly | src/system/libobjc2/dtable.c:749-789 | in every state of every run, only classes with a `+initialize` method are ever put aside or started, and such a class has been started if and only if it is installed or put aside |
| InitializeRuns.WithoutMethod | src/system/libobjc2/dtable.c:749-764 | a marked class without the method that nobody is initializing is installed, and at no time of the run is it put aside or is its method being sent |
| InitializeRuns.MethodExecuted | src/system/libobjc2/dtable.c:772-789 | before a class with the method is installed or put aside there is a state of the run in which a thread executes the method |
| InitializeRuns.SendReturns | src/system/libobjc2/dtable.c:664-789 | whichever way the call that sends `+initialize` returns, the class is installed, or the method is under way further down on the same stack |
| InitializeRuns.LookupReturns | src/system/libobjc2/dtable.h:58-104 | a lookup returns only when the class is installed, not yet marked, or was found put aside; in the last case a lookup for the metaclass returns on the initializing thread only |
| InitializeRuns.GoesOnOrWaits | src/system/libobjc2/dtable.c:664-789 | in every run a thread that is within a call can take a step, or needs a lock that another thread has |
| InitializeRuns.SuperclassFirst | src/system/libobjc2/dtable.c:680-684 | when it starts, that of the superclass is over or further down on the same stack |
| InitializeRuns.SecondTestFails | src/system/libobjc2/dtable.c:713-718 | the second test never finds the class marked |
| InitializeRuns.CreationDoesNotBlock | src/system/libobjc2/dtable.c:510-527 | table creation, under all locks, has to wait if and only if the superclass is not yet installed and its lock is held by another thread; this passes if and only if no other thread is within `@synchronized` on the superclass |
| InitializeRuns.OwnEntryRemoved | src/system/libobjc2/dtable.c:637-659 | the end of an initialization removes its own entry from the list and no other |
| InitializeRuns.SearchAnswers | src/system/libobjc2/dtable.h:58-86 | a search comes back with a table, installed or put aside, if and only if the class has been marked |
| InitializeRuns.LookupBlocks | src/system/libobjc2/dtable.h:54-104 | a lookup of tables that another thread has put aside waits for that thread if and only if it asks for the metaclass or that thread is within `@synchronized` on the class |
| InitializeRuns.WhoKeepsWaiting | src/system/libobjc2/associate.m:394-402 | in every run, a thread gets an object's lock, at once or after a step of its owner, if and only if no other thread keeps it for code of the program or until a class is set up |
| InitializeExamples.ClassLookupReturns | src/system/libobjc2/dtable.h:54-104 | a lookup of the class itself is answered while `+initialize` runs on another thread: a concrete run |
| InitializeExamples.ClassLookupWaits | src/system/libobjc2/dtable.h:54-104 | it waits if the method is within `@synchronized` on the class: a concrete run |
| InitializeExamples.WithMethodDone | src/system/libobjc2/dtable.c:766-789 | a whole run for a class with the method: tables put aside, method executed, tables installed, all locks free |
| InitializeExamples.WithoutMethodDone | src/system/libobjc2/dtable.c:749-764 | a whole run for a class without: installed at once, nothing started |
| InitializeExamples.Deadlock | src/system/libobjc2/dtable.c:510-527 | a run in which two threads wait for each other, one in table creation and one within `@synchronized` on the superclass |
| InitializeRuns.LookupWaits | src/system/libobjc2/dtable.h:58-104 | a lookup of a metaclass's table that found it put aside returns when the class is done, or on the initializing thread |
| InitializeRuns.ResendWaits | src/system/libobjc2/dtable.c:694-709 | sending `+initialize` again returns when the class is done, or on the initializing thread |
| TableGrowth.TablesCurrent | src/system/libobjc2/dtable.c:551-594 | in a run every table made has the current size, whenever no thread is growing them, if and only if no thread ever has to grow them while it creates a table |
| TableGrowth.OwnGrowth | src/system/libobjc2/dtable.c:320-326 | if a thread does, the table that it creates is left smaller than it should be |
| TableGrowth.GrowsWhileDeciding | src/system/libobjc2/dtable.c:749-753 | such a run exists |
| TableGrowth.GrowthDeadlock | src/system/libobjc2/dtable.c:749-753 | a run in which that thread, holding the initialize lock, needs the runtime lock, whose owner needs the initialize lock |
| TableGrowth.Lifted | src/system/libobjc2/dtable.c:551-594 | every run of the protocol is a run with table sizes |
| LookAsideList.LookAside.PutAside | src/system/libobjc2/dtable.c:772-779 | class and metaclass are put in front of the list |
| LookAsideList.LookAside.Remove | src/system/libobjc2/dtable.c:637-659 | the walk along the links takes out exactly the pair of buffers of the class |
| LookAsideList.LookAside.Find | src/system/libobjc2/dtable.h:72-86 | the search finds a buffer just if the class is in the list |
| LookAsideList.WithoutClasses | src/system/libobjc2/dtable.c:637-659 | taking out a pair of buffers takes one class out of the list |
| Hopscotch.CellIndexFromBase | src/system/libobjc2/hash_table.h:215-220 | wrapping around in 32 bits does not disturb the index |
| Hopscotch.BaseIsModulo | src/system/libobjc2/hash_table.h:215-220 | the base cell of a value is its hash modulo the number of cells |
| Hopscotch.RoomIn33Cells | src/system/libobjc2/hash_table.h:275-302 | there is room for a value if and only if one of the 33 cells from its hash on, around the end of the table, is empty |
| Hopscotch.StoredInBase | src/system/libobjc2/hash_table.h:281-288 | storing in an empty base cell keeps the invariant |
| Hopscotch.StoredNearby | src/system/libobjc2/hash_table.h:289-302 | storing in a neighbour and marking it keeps the invariant |
| Hopscotch.Unmarked | src/system/libobjc2/hash_table.h:394-411 | a removed value's place is marked by its base alone, and then by none |
| Hopscotch.MovedUp | src/system/libobjc2/hash_table.h:369-382 | moving a neighbour up leaves one hole, at the neighbour |
| Hopscotch.Found | src/system/libobjc2/hash_table.h:335-366 | every stored value is in its base cell or in a neighbour marked there |
| Hopscotch.SameHashes | src/system/libobjc2/hash_table.h:335-366 | the invariant depends only on the hashes of the values that are stored |
| HashTable.HopscotchTable.GetCell | src/system/libobjc2/hash_table.h:335-366 | finds a value with the key if and only if one is stored |
| HashTable.HopscotchTable.FindCell | src/system/libobjc2/hash_table.h:335-366 | for any comparison under which equal values have the hash, finds an equal value if and only if one is stored: the one in the base cell, or else in the nearest neighbour that is marked |
| HashTable.HopscotchTable.Place | src/system/libobjc2/hash_table.h:275-302 | succeeds if and only if the base cell or one of the 32 cells behind it is empty; adds exactly the value, or changes nothing |
| HashTable.HopscotchTable.Insert | src/system/libobjc2/hash_table.h:274-333 | adds exactly the value, at once if there is room near its base, or after a doubling; gives up for rebalancing only if the 33 cells are full, or if a value that is copied meets 33 full cells |
| HashTable.HopscotchTable.Resize | src/system/libobjc2/hash_table.h:167-205 | all values are in the doubled table, unless one of them meets 33 full cells there |
| HashTable.HopscotchTable.MoveSecond | src/system/libobjc2/hash_table.h:368-387 | the shuffle ends, loses only the value in the hole, and leaves the invariant |
| HashTable.HopscotchTable.Remove | src/system/libobjc2/hash_table.h:388-423 | removes one value with the key and no other, or there is none |
| HashTable.HopscotchTable.Next | src/system/libobjc2/hash_table.h:462-523 | gives the next value in the order of the cells, or none when all have been given |
| HashTable.FewValuesLeaveRoom | src/system/libobjc2/hash_table.h:274-302 | a table with at most 32 values has room for any value |
| SelectorTypes.SelectorTypesEqual | src/system/libobjc2/selector_table.c:117-166 | the loop over two encodings computes the comparison from where the cursors are |
| SelectorTypes.SkipIs | src/system/libobjc2/selector_table.c:102-115 | the cursor passes over type qualifiers and digits, and over all of them |
| SelectorTypes.TypesEqualIs | src/system/libobjc2/selector_table.c:106-166 | two encodings without `*` are equal if and only if they are so without qualifiers and digits, or the first is only a beginning of the second and does not end in one of these |
| SelectorTypes.TypesEqualSelf | src/system/libobjc2/selector_table.c:117-166 | every encoding, and none, is equal to itself |
| SelectorTypes.OrderMatters | src/system/libobjc2/selector_table.c:121-164 | the comparison is not symmetric: concrete encodings that are equal one way round only |
| SelectorTypes.OffsetsDoNotMatter | src/system/libobjc2/selector_table.c:102-115 | `rv16@0:8` and `v@:` are equal, either way round |
| SelectorTable.AddedSound | src/system/libobjc2/selector_table.c:290-315 | entering a selector, with its own or another's index, keeps equal indices for equal names |
| SelectorTable.AddedNames | src/system/libobjc2/selector_table.c:290-315 | replacing the name by the index changes no selector's name, and so no hash |
| SelectorKeys.NameSwapHarmless | src/system/libobjc2/selector_table.c:290-315 | replacing the name of a selector by an index while it is a key of the hash table leaves that table valid |
| SelectorKeys.FoundByName | src/system/libobjc2/hash_table.h:335-366 | a stored selector is in the base cell of its name's hash or in a neighbour marked there |
| SelectorTable.TypedListed | src/system/libobjc2/selector_table.c:350-360 | the type encoding is listed behind the name |
| SelectorTable.Registry.SameIndexSameName | src/system/libobjc2/selector_table.c:366-384 | two registered selectors have the same index if and only if they have the same name |
| SelectorTable.Registry.IndexFits | src/system/libobjc2/dtable.c:551-560 | every index is within `selector_list` and within every dispatch table |
| SelectorTable.Registry.TypesAreListed | src/system/libobjc2/selector_table.c:525-556 | the encodings listed for a name are exactly those of its registered selectors |
| SelectorTable.Registry.SelectorLookup | src/system/libobjc2/selector_table.c:284-289 | finds a selector with the name and equal types, by probing the hash table, if and only if there is one; of several, the one in the base cell of the name's hash or in the nearest marked neighbour |
| SelectorTable.KeyedMore | src/system/libobjc2/selector_table.c:311-315 | entering a selector under the hash of its name keeps the cells right for all selectors |
| SelectorTable.KeyedKept | src/system/libobjc2/selector_table.c:207-220 | as long as names stay the same the cells stay right, whatever becomes of the selectors |
| SelectorTable.Registry.AddSelectorToTable | src/system/libobjc2/selector_table.c:290-315 | makes room, enters the name and the selector, also in the hash table, and replaces the name; the table stays right |
| SelectorTable.Registry.RegisterSelectorLocked | src/system/libobjc2/selector_table.c:319-362 | the selector is registered under its name, and all others keep index and name |
| SelectorTable.Registry.RegisterSelector | src/system/libobjc2/selector_table.c:366-384 | if an equal one is in the table, that one is returned, the selector takes over its index, and table and list stay as they are; if not, the selector itself is entered |
| SelectorTable.Registry.RegisterSelectorCopy | src/system/libobjc2/selector_table.c:389-431 | if an equal one is in the table, the one that a lookup finds is returned and nothing at all changes; if not, a new selector with this name and these types is entered and is the only equal one |
| SelectorTable.Registry.RegisterTwice | src/system/libobjc2/selector_table.c:389-431 | registering the same name and types twice gives the same selector both times |
| SelectorTable.Registry.ResizeDtables | src/system/libobjc2/dtable.c:551-560 | one step of eight bits is enough for all selectors |
| TypeEncoding.ScansType | src/system/libobjc2/encoding2.c:183-271 | the scanner stops exactly at the end of a printed type, whatever surrounds it |
| TypeEncoding.ScansTypeExactly | src/system/libobjc2/encoding2.c:156-181 | it does so if and only if what follows cannot be taken for a part of the type |
| TypeEncoding.FirstCharacter | src/system/libobjc2/type_encoding_cases.h:11-34 | each character that is an encoding by itself is consumed alone, qualifiers and `^` are passed over, and a character that begins no encoding is refused |
| TypeEncoding.Written | src/system/libobjc2/encoding2.c:93-181 | how types of each kind are written: concrete encodings of qualified pointers, objects, blocks, arrays, records and bit-fields |
| TypeEncoding.SizeAndAlignAgree | src/system/libobjc2/encoding2.c:281-360 | `sizeof_type` and `alignof_type` stop at the same place |
| TypeEncoding.ScansFields | src/system/libobjc2/encoding2.c:105-126 | labelled and unlabelled fields are consumed one by one up to the closing bracket |
| TypeEncoding.SkipsPart | src/system/libobjc2/encoding2.c:40-45 | one step over a signature consumes exactly one type and its frame offset |
| TypeEncoding.SignatureReadsBack | src/system/libobjc2/encoding2.c:64-77 | for every signature the count and the starts of the parameters are right, and null is given beyond the last |
| EncodingScanner.SizeofType | src/system/libobjc2/encoding2.c:183-271 | the loops and the recursive descent compute the scanner's function |
| EncodingScanner.AlignofType | src/system/libobjc2/encoding2.c:281-360 | the same for the alignment |
| EncodingScanner.ParseRecord | src/system/libobjc2/encoding2.c:93-127 | the two loops over name and fields compute the end of a structure or union |
| EncodingScanner.ParseArray | src/system/libobjc2/encoding2.c:82-91 | the count, the element and the bracket are skipped |
| EncodingScanner.SkipObjectExtended | src/system/libobjc2/encoding2.c:156-181 | class names and block signatures are skipped |
| EncodingScanner.SkipArgspec | src/system/libobjc2/encoding2.c:40-45 | a type and its digits are skipped |
| EncodingScanner.NumberOfArguments | src/system/libobjc2/encoding2.c:440-451 | one less than the number of types of any printed signature |
| EncodingScanner.FindParameterStart | src/system/libobjc2/encoding2.c:64-77 | the start of the argument with that number, or null if and only if there is none |
| IvarLayout.LayoutIsRight | src/system/libobjc2/ivar.c:66-108 | each variable is at the first aligned place behind the one before, and the size is the end of the last |
| IvarLayout.ClassRange | src/system/libobjc2/ivar.c:46-57 | the variables of a class lie, with the sizes declared for them (1 for a boolean declared with 0), between the instance sizes of its superclass and its own, and their places behind the reference count are aligned |
| IvarLayout.ChainDisjoint | src/system/libobjc2/ivar.c:37-109 | no two variables along a chain of superclasses overlap, with the sizes declared for them |
| IvarLayout.LayOut | src/system/libobjc2/ivar.c:66-108 | the loop computes the layout, with the correction of boolean sizes |
| IvarLayout.ComputeIvarOffsets | src/system/libobjc2/ivar.c:15-127 | a class that is ready is laid out with all its superclasses, also those without variables and those laid out before; one that was laid out before is left alone |
| IvarLayout.VariablesApart | src/system/libobjc2/ivar.c:15-127 | in a class that has been laid out, all variables of it and its superclasses are, with the sizes declared for them, within the instance, aligned, in order and apart |
| IvarLayout.SharedPlace | src/system/libobjc2/ivar.c:88-106 | a bit-field that begins within the variable laid out last keeps its distance from its beginning if and only if that variable needed no padding |
| IvarLayout.SharedMisplaced | src/system/libobjc2/ivar.c:88-106 | behind a superclass of 12 bytes, a bit-field of an eight-byte variable at 16 is placed at 12 |
| IvarLayout.NoListRight | src/system/libobjc2/ivar.c:17-25 | a class without a list gets the right size if and only if its superclass has its final one |
| IvarLayout.SetAlignGetAlign | src/system/libobjc2/ivar.h:88-109 | the alignment read back is the largest power of two not above the one set, 1 for none, and nothing from 2^31 on; all other flags stay |
| CombiningMarks.SwapKeepsRuns | src/system/gnustep-base/Source/GSeq.h:178-186 | an exchange stays within a run of non-zero classes |
| CombiningMarks.SwapAddsWeight | src/system/gnustep-base/Source/GSeq.h:158-199 | exchanges bring the sequence strictly nearer to its final order |
| CombiningMarks.UniqueForm | src/system/gnustep-base/Source/GSeq.h:155-199 | two sequences get the same form if and only if they differ only in the order within runs |
| CombiningMarks.Pass | src/system/gnustep-base/Source/GSeq.h:168-198 | a pass makes progress or finds all in order |
| CombiningMarks.Reorder | src/system/gnustep-base/Source/GSeq.h:155-199 | the loop ends, permutes within runs, moves no character of class 0, and leaves all in order |
| NameMap.CompareTransitive | src/system/gnustep-base/Tools/gdomap.c:715-727 | names are totally ordered by length and then by bytes |
| NameMap.CompareIs | src/system/gnustep-base/Tools/gdomap.c:715-727 | a name is smaller than another if and only if it is shorter, or as long and smaller at the first byte in which they differ |
| NameMap.InsertedMap | src/system/gnustep-base/Tools/gdomap.c:768-785 | inserting before the first larger name adds that name to the map |
| NameMap.InsertedSorted | src/system/gnustep-base/Tools/gdomap.c:768-785 | and keeps the array strictly sorted |
| NameMap.DeletedMap | src/system/gnustep-base/Tools/gdomap.c:908-922 | deleting an entry removes its name, and no other, from the map |
| NameMap.History | src/system/gnustep-base/Tools/gdomap.c:2811-3118 | after any sequence of requests a service has a name if and only if some request gave it the name and none has taken it away since |
| NameMap.RegisteredIsFound | src/system/gnustep-base/Tools/gdomap.c:2811-3066 | a registration answered with its port is found by lookups until a request takes the name away, under its type or the type that the name had with that port before |
| NameMap.LookupAnswers | src/system/gnustep-base/Tools/gdomap.c:2951-3066 | after any history a lookup answers a port just if that is the name's port, under the type asked for, its server is there, and nothing has taken the name away since it was given; otherwise it answers 0, also if the server has gone |
| NameMap.UnregisterAnswers | src/system/gnustep-base/Tools/gdomap.c:3067-3118 | after any history the answer to an unregistration is the port that the name had under that type, or 0; without a name, it is the port if any name had it with that type, or 0; and exactly these names are gone |
| NameMap.ReadsBack | src/system/gnustep-base/Tools/gdomap.c:3960-3967 | walking over the listing ends exactly at its end and recovers all names and types in order |
| NameMap.LengthReadsBack | src/system/gnustep-base/Tools/gdomap.c:3172-3176 | the announced length is that of what follows |
| NameMap.InBytes | src/system/gnustep-base/Tools/gdomap.c:3157-3187 | the announced length has its high byte first; each name is preceded by its length and its type |
| NameServer.NameRegistry.MapAdd | src/system/gnustep-base/Tools/gdomap.c:735-793 | adds the name, keeping the array sorted and its entries right |
| NameServer.NameRegistry.MapByName | src/system/gnustep-base/Tools/gdomap.c:804-847 | binary search finds the entry if and only if the name is registered |
| NameServer.NameRegistry.MapByPort | src/system/gnustep-base/Tools/gdomap.c:855-888 | finds an entry with the port and type if and only if there is one |
| NameServer.NameRegistry.MapDel | src/system/gnustep-base/Tools/gdomap.c:897-923 | removes exactly the entry's name |
| NameServer.NameRegistry.HandleRegister | src/system/gnustep-base/Tools/gdomap.c:2811-2950 | acts on the map as the registration of a finite map does, whatever the result of binding |
| NameServer.NameRegistry.HandleLookup | src/system/gnustep-base/Tools/gdomap.c:2951-3066 | answers the port of the name if that is registered under the type and its server is there, and 0 otherwise; a name whose server has gone is forgotten |
| NameServer.NameRegistry.HandleUnregister | src/system/gnustep-base/Tools/gdomap.c:3067-3118 | removes one name, or exactly the names of one port and type, and answers the port that they had, or 0 |
| NameServer.NameRegistry.HandleNames | src/system/gnustep-base/Tools/gdomap.c:3157-3187 | the stream is the announced length and the listing of all names in order |
| NameServer.CountNames | src/system/gnustep-base/Tools/gdomap.c:3960-3974 | the client counts every name, or gives zero if the count needs more than 16 bits |
| NameServer.ReceiveNames | src/system/gnustep-base/Tools/gdomap.c:3879-3987 | the client refuses a list of more than 10000000 bytes, and otherwise has all names, types and their number |
| NameServer.ExchangeNames | src/system/gnustep-base/Tools/gdomap.c:3157-3187 | whatever the server has registered reaches the client whole, or is refused for its length |

## Left out

- Sparse arrays: `SparseArrayNext` on arrays of shift 16 and more, where entries behind a
  child that is not empty are lost; allocation failure; reads that race with writers.
- SparseHeaps.SparseHeap.SparseArrayInsert: demands that the caller is the only owner of the
  root, as every caller of the source is.
- SparseHeaps.SparseHeap.SparseArrayExpandingArray: demands what the source asserts, a
  single owner and a depth that is not smaller than the shift.
- Dispatch: type-dependent dispatch, tracing tables, proxies and forwarding, hidden classes,
  `.cxx_construct` and `.cxx_destruct` pointers, the scan for ARC accessors.
- Dispatch: changing an implementation in place (`class_replaceMethod`,
  `method_exchangeImplementations`) and `objc_update_dtable_for_class`, which keeps an
  existing entry and so does not give agreement.
- Dispatch: adding methods to, and re-parenting, classes that have tables of 24 bits, whose
  enumeration loses entries behind a child that is not empty; creating tables and lookups
  are covered. That growing a table keeps every lookup is proved for the sparse array.
- Dispatch: loading further classes during a run; a run begins with all classes loaded and
  resolved.
- Dispatch: a table is made known as soon as its construction begins, which no other thread
  can observe because the runtime lock is held.
- DispatchTables.Dispatch.SetSuperclass: covers classes that are resolved, not metaclasses,
  and not roots, and a new superclass that is not below the class; the links of an
  unresolved class are those of another list, which re-parenting would break.
- DispatchTables.Dispatch.AddMethod: selectors are compared by index; that equal names have
  equal indices is proved for the selector registry.
- Class table: reloading a class in developer mode, hidden and posing classes, `+load`
  callbacks, legacy structures other than a superclass given by name.
- ClassTables.ClassTable.ResolveClass: all superclasses given by pointer must have been
  loaded, as must those of all classes for ClassTables.ClassTable.ResolveClassLinks; the
  source would take a class that was never loaded out of a list it is not in.
- ClassTables.ClassTable.SetSuperclass: covers two resolved classes that are not metaclasses,
  the first of them no root and the second not below it.
- ClassTables.ClassTable.DisposeClassPair: freeing memory is not modelled; a class that waits
  for a disposed superclass counts as one whose superclass has not been loaded.
- ClassTables.ClassTable.SafeRemove: walks the same links as the source, given that the
  class is in the list.
- Initialization protocol: memory ordering, exceptions thrown by `+initialize`, threads that
  hold the runtime lock when they send a message, messages sent first to a metaclass, and
  calls of `objc_sync_enter` and `objc_sync_exit` that are not paired as `@synchronized`
  pairs them. Creating the tables of a class is one step, during which the thread holds all
  three locks; it is made when the lookups that it needs do not have to wait.
- Initialization protocol: lookups and installations while another thread is growing the
  tables. The pointer that marks a class as having no table is replaced before the classes'
  own are, without a lock that those hold, so that a class can be taken to have a table, or
  lose one that is being installed.
- TableGrowth.TablesCurrent: a thread grows the tables by one step of eight bits at a time;
  the tables of a class and its metaclass are taken to be created together.
- Hash table: rebalancing, which leaves empty cells with marked neighbours on the way; where
  the source would rebalance, the model stops and says so. The old table that concurrent
  readers use during a resize, and the lock that removing an absent key keeps.
- HashTable.HopscotchTable.Insert: a bitmap is the set of its distances; sizes are powers of
  two from 64 on, and doubling beyond 2^31 cells is excluded.
- SelectorTable.Registry.SelectorLookup: once the hash table has had to be rebalanced, the
  selectors are gone through in the order in which they were entered; and the hash is kept
  with the pointer in a cell, as names, and so hashes, do not change. Concurrent registration
  of the same selector.
- SelectorTypes.SelectorTypesEqual: behind the end of an encoding there is nothing but null
  characters; the source can read one character behind the terminating one.
- SelectorTable.Registry.RegisterSelectorLocked: fewer than 2^24 selectors, beyond which
  the depth of the tables overflows.
- Type encodings: the sizes and alignments computed, atomic and vector types, structure
  names with `=` in them, and `strtol`'s white space and signs, which compilers do not emit.
- Instance variables: garbage collection, legacy lists. That variables do not overlap is
  claimed for those that do not share a place with a bit-field.
- Combining marks: decomposition and the tables of classes. The class of a character is an
  arbitrary function.
- Name server: sockets, the select loop, probes and the list of servers, discovery of
  interfaces, configuration files. Whether a port can be bound is a parameter of each
  request, and a request that is not local or has an illegal type changes nothing before it
  reaches the handlers.
- NameServer.NameRegistry.HandleRegister: ports are numbers without a bound; the truncation
  to 16 bits of the port that is bound is part of the parameter.
