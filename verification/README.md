# Verified models of ART's ahead-of-time tools

This project models five parts of the Android Runtime repository in Dafny and proves what they
promise over whole runs. `dafny verify dfyconfig.toml` checks everything.

**Class-initialization transactions** (`dex2oat/transaction.*`, `dex2oat/aot_class_linker.cc`). The
compiler runs class initializers inside transactions that can be rolled back. Objects have an identity
and an address; the records of a transaction hold raw addresses, which a moving collection rewrites.
`TransactionRuns` is the state machine over writes, allocations, interning, collections, entering,
committing and rolling back, with any nesting; `Transactions` and `AotClassLinkers` are the classes,
each method of which performs one step. `TransactionEffects` says what the steps do place by place and
what rollbacks leave by kind of object. `ClassInitialization`, `StrictMode` and `ClassCompilation` model
strict mode on top, on class statuses alone: which transactions an initialization leaves behind, and
exactly when the compiler driver's rollback takes back a class that is already initialized;
`InitializationOutcomes` says when an initialization succeeds, fails or is refused.
`ClassStatuses` ties the two together: statuses are fields of class objects, and every step of the
transactions does to these fields what strict mode takes it to do. `ImageReferences` is the check of what
an image may refer to.

**All-or-nothing file commit** (`artd/file_utils.cc`). `FileSystems` lets every call fail except the ones
a clean-up relies on, as arbitrary answers decide that are given with the file system; it counts failures and
keeps a history of all states. `FileMoves` proves
`MoveAllOrAbandon` atomic at every failure point, says exactly when it commits, and that no old file is lost
in any state before the commit point. `NewFiles` follows a
new file from creation to destruction under any sequence of uses.

**Control-flow graphs** (`dexdump/dexdump_cfg.cc`). The reference is a successor relation on single
instructions (`Bytecode`). The loops that collect targets, split blocks and write edges, including the
two-pass scheme for exception edges, produce exactly that relation seen from the blocks: runs of the
method are the walks of the graph, edge by edge.

**The debugger connection** (`adbconnection/`). `DebuggerHandOff` is a state machine of the poll loop, the
transport inside the agent, the two channels between them, publishing threads and the eventfd lock;
sending to the transport may fail at any time. `HandOffWrites` says which packets are written in every run,
and `HandOffSessions` that whole sessions can take place and what they leave.
`DdmPackets`, `JdwpOptions` and `JdwpArguments` are the packet format and the option parser.

**Cancellation** (`artd/artd.cc`). `Cancellation` runs the signal under any interleaving of its operations
and says what the calls make of its log.

## What turned out not to hold

- A primitive array element of a floating-point type is recorded by a numeric conversion to 64 bits, so it
  is restored if and only if it holds a non-negative whole number below 2^64
  (`FieldValues.ElemRoundTrip`, `FieldValues.FractionIsLost`, `TransactionTheorems.OneTransactionRollback`).
- `UpdateKeys` processes moved keys from the highest old address down. Its final check fails if and only
  if a moved key lands on a smaller logged key that moves too (`RootUpdates.UpdateKeys`,
  `RootUpdates.SlidingCollectorClashes`); a copying collector never causes this.
- Undoing interning is fatal for an outer transaction if a committed nested one promoted a string that
  the outer one had interned weakly (`InternTables.CommittedPromotionIsFatal`). For any tables and any
  records it is possible if and only if for every recorded insertion the nearest newer record of the same
  string and table is a removal, or there is none and the string is in that table
  (`InternTables.UndoSucceedsExactlyWhen`); so are a rollback and a rollback of all transactions
  (`TransactionRollback.RollbackRestoresTables`, `TransactionRollback.RollbackAllPossible`).
- The shortcut through the last allocated object differs from the log lookup exactly when the question is
  put to the wrong kind of log (`TransactionLog.ShortcutAgreesWithLookup`).
- If a class initializer catches the failure of an initialization it requested and then completes, its
  successful exit pops the wrong transaction, and a later rollback can undo a class whose subclass has
  committed (`ClassCompilation.CaughtFailureBreaksSafety`). An attempt of the driver is safe if and only if
  this happens nowhere in it (`ClassCompilation.AttemptIsSafe`), and its rollback takes back an initialized
  class if and only if there is a rollback and this happens (`ClassCompilation.RollbackTakesBack`). The
  condition, `ClassInitialization.Careless`, follows the initializers' requests. It is also exactly when a
  successful initialization leaves transactions behind (`StrictMode.StackHeight`).
- If sending the descriptors to the agent fails, they are sent again on the next data, always with the
  request for a handshake. That is right if and only if the plugin had not completed the handshake itself
  (`HandOffTheorems.FailedSendIsRepeated`). So throughout a run the word about the handshake is right if and
  only if nothing is ever sent again after the plugin completed the handshake
  (`HandOffTheorems.SkipsThroughout`); the rest of what is safe does not depend on sending.
- A DDM command survives the round trip if and only if its total length is below 2^32
  (`DdmPackets.PacketRoundTrip`).

Where code and documentation differ, the models follow the code. The comment at
`dexdump/dexdump_cfg.cc:196` speaks of the first entry of a block, but handlers are collected for every
instruction; the graph is still exact at block level. `artd/file_utils.h:84-86` says that all descriptors are
invalid after `CommitAllOrAbandon`; if closing one fails, the later ones stay open.
`dt_fd_forward/README.md:17` calls the accept message ATTACHED and does not mention the one about the
handshake; the model uses the messages the transport sends.

## Model

| member | source | states |
|---|---|---|
| `FieldValues.ScalarRoundTrip` | dex2oat/transaction.cc:482-510 | Every scalar field value survives widening to 64 bits and the narrowing cast of its kind. |
| `FieldValues.WidenIsModular` | dex2oat/transaction.cc:482-510 | A value and its 64-bit record agree modulo 2^64. |
| `FieldValues.NarrowIsModular` | dex2oat/transaction.cc:548-616 | What a record is cast to is in the range of the kind, signed or not, and differs from the record by a multiple of the number of values of the kind. |
| `FieldValues.ElemRoundTrip` | dex2oat/transaction.cc:743-790 | An array element comes back as it was if and only if it is an integer or a non-negative whole float below 2^64; fractions, signs, negative zero, infinities and NaN are not restored. |
| `FieldValues.FractionIsLost` | runtime/mirror/array-inl.h:98-109 | Recording and undoing turns the float element 1.5 into 1.0. |
| `TransactionLog.ShortcutAgreesWithLookup` | dex2oat/transaction.cc:187-201 | In every consistent state the shortcut and the lookup agree, except exactly when the wrong kind of log is asked about the last allocated object. |
| `TransactionLog.ShortcutSkipsNothing` | dex2oat/transaction.cc:207-294 | Not recording a write to the last allocated object leaves the logs as the full procedure would. |
| `InternTables.UndoRestoresTables` | dex2oat/transaction.cc:367-375 | Undoing the front-inserted log of any sequence of valid insertions and removals restores both tables exactly. |
| `InternTables.UndoSucceedsExactlyWhen` | dex2oat/transaction.cc:641-679 | For any tables and any log: the undo is possible if and only if for every insertion the nearest newer record of the same string and table is a removal, or there is none and the string is there; then a string is in a table if and only if its oldest record is a removal, or it has none and was there. |
| `InternTables.UndoOnOtherTables` | dex2oat/transaction.cc:641-679 | The log of valid changes can be undone on other tables if and only if every touched string that the changes left in a table is still in it. |
| `InternTables.UndoAllAfterChange` | dex2oat/transaction.cc:310-333 | Recording the newest change at the front of the list keeps what undoing the list restores. |
| `InternTables.SweepThenUndo` | runtime/intern_table.cc:310-313 | Sweeping dead weak entries and undoing commute while the recorded strings are alive. |
| `InternTables.CommittedPromotionIsFatal` | runtime/intern_table.cc:315-326 | A weak string promoted by a committed nested transaction makes the outer undo fatal. |
| `RootUpdates.UpdateKeys` | dex2oat/transaction.cc:411-422 | Re-keying passes its final check if and only if no moved key lands on a smaller moved key, and then yields the log under its new keys. |
| `RootUpdates.CollectMovingRoots` | dex2oat/transaction.cc:424-462 | The walk over a log yields exactly the moved keys, in descending order. |
| `RootUpdates.SlidingCollectorClashes` | dex2oat/transaction.cc:411-422 | Two keys that move to different addresses can still clash. |
| `RootUpdates.CopyingCollectorNeverClashes` | dex2oat/transaction.cc:411-422 | No clash is possible if no new address is a logged one. |
| `TransactionSafety.AllocRecords` | dex2oat/transaction.cc:167-185 | Flagging the new object as new, in the log its kind selects, and as the last allocated one keeps the records consistent with the heap. |
| `TransactionSafety.RecordNewElsewhere` | dex2oat/transaction.cc:167-185 | It changes what no other object would get back, and flags no other object. |
| `TransactionSafety.OldObjectNeedsRecords` | dex2oat/transaction.cc:187-201 | Whatever is not flagged as new in either log does need records: the shortcut never hides it. |
| `TransactionSafety.LoggedAfterRecordField` | dex2oat/transaction.cc:207-284 | After recording a write, a rollback would restore the old value at that field if none was recorded before and the object needs records; at every other location it would do what it would have done. |
| `TransactionSafety.LoggedAfterRecordElem` | dex2oat/transaction.cc:286-294 | The same for array elements. |
| `Transactions.Transaction.VisitRoots` | dex2oat/transaction.cc:391-409 | All keys, logged references, the root and the last allocated object are updated, if and only if neither log has a clash. |
| `Transactions.Transaction.UndoObjectModifications` | dex2oat/transaction.cc:349-356 | Every recorded field except class words and array lengths gets its recorded value. |
| `Transactions.Transaction.UndoArrayModifications` | dex2oat/transaction.cc:358-365 | Every recorded element gets its recorded value. |
| `Transactions.Transaction.UndoInternStringTableModifications` | dex2oat/transaction.cc:367-375 | The tables are those after undoing the log from its front, or the undo is fatal. |
| `Transactions.Transaction.Rollback` | dex2oat/transaction.cc:335-347 | The heap and the tables are those the records stand for, and the records are gone. |
| `AotClassLinkers.AotClassLinker.IsActiveTransaction` | dex2oat/aot_class_linker.cc:263-267 | The active flag is set if and only if there is a transaction and the innermost one is not rolling back. |
| `AotClassLinkers.AotClassLinker.EnterTransactionMode` | dex2oat/aot_class_linker.cc:269-292 | One enter step, keeping the invariant of all runs. |
| `AotClassLinkers.AotClassLinker.ExitTransactionMode` | dex2oat/aot_class_linker.cc:294-302 | One commit step, keeping the invariant. |
| `AotClassLinkers.AotClassLinker.RollbackAndExitTransactionMode` | dex2oat/aot_class_linker.cc:312-320 | One rollback step, keeping the invariant; it fails if and only if some string to be removed from an intern table will not be there. |
| `AotClassLinkers.AotClassLinker.RollbackAllTransactions` | dex2oat/aot_class_linker.cc:304-310 | Terminates with no transaction, and fails under the exact condition on all records together; every location holds what the records leave there, and its value from the outermost enter if it is not lost. |
| `AotClassLinkers.AotClassLinker.WriteField` | dex2oat/aot_class_linker.cc:384-438 | The old value is recorded and the field written, as one step. |
| `AotClassLinkers.AotClassLinker.WriteElem` | runtime/mirror/array-inl.h:98-109 | The old element is recorded and the element written, as one step. |
| `AotClassLinkers.AotClassLinker.NewObject` | dex2oat/transaction.h:77-88 | A new object is recorded as new and added, as one step. |
| `AotClassLinkers.AotClassLinker.ChangeInternTable` | dex2oat/aot_class_linker.cc:445-463 | The change is recorded and made, as one step. |
| `AotClassLinkers.AotClassLinker.VisitTransactionRoots` | dex2oat/aot_class_linker.cc:511-515 | Every transaction on the stack updates its records, if and only if none has a clash. |
| `AotClassLinkers.AotClassLinker.CollectGarbage` | dex2oat/transaction.cc:391-462 | A collection that keeps the reported roots is one step and keeps the invariant. |
| `TransactionSafety.WriteFieldKeeps` | dex2oat/transaction.cc:207-284 | A recorded field write keeps the invariant at every nesting level. |
| `TransactionSafety.WriteElemKeeps` | dex2oat/transaction.cc:286-294 | So does a recorded element write. |
| `TransactionSafety.AllocKeeps` | dex2oat/transaction.cc:167-185 | So does an allocation, recorded or not. |
| `TransactionSafety.InternKeeps` | dex2oat/transaction.cc:310-333 | So does a change of the intern tables. |
| `TransactionSafety.EnterKeeps` | dex2oat/aot_class_linker.cc:269-292 | So does entering a transaction. |
| `TransactionSafety.ExitKeeps` | dex2oat/aot_class_linker.cc:294-302 | So does committing one; what it wrote is lost to the enclosing one, unless that had recorded it before. |
| `TransactionCollect.VisitKeepsIdentity` | dex2oat/transaction.cc:391-462 | An updated address belongs to the same object as before. |
| `TransactionCollect.LoggedCollected` | dex2oat/transaction.cc:631-639 | What a rollback would restore at a location is the same before and after a collection. |
| `TransactionCollect.CollectKeeps` | dex2oat/transaction.cc:391-462 | A moving collection keeps the invariant of every transaction on the stack. |
| `TransactionRollback.RollbackRestores` | dex2oat/transaction.cc:529-546 | Rolling back the innermost transaction restores a location if and only if it was not written or its old value is exact. |
| `TransactionRollback.RollbackRestoresTables` | dex2oat/transaction.cc:367-375 | The undo is possible if and only if no removal misses its string, and which strings it leaves in the tables; if no interning leaked from a committed nested transaction, it is possible and restores the tables, less dead weak entries. |
| `TransactionRollback.RollbackKeeps` | dex2oat/transaction.cc:335-347 | Rolling back keeps the invariant of the enclosing transactions. |
| `TransactionRollback.RollbackAllLeaves` | dex2oat/aot_class_linker.cc:304-320 | After rolling back everything, every location of a live object holds what undoing the records of the transactions one after the other, innermost first and header words excepted, makes of what it held before. |
| `TransactionRollback.RollbackAllRestores` | dex2oat/aot_class_linker.cc:304-320 | A location of the outermost snapshot is restored if and only if it is not lost, lost being followed outward along the stack, or the records leave its old value there all the same. |
| `TransactionRollback.RollbackAllPossible` | dex2oat/aot_class_linker.cc:304-320 | Rolling back everything is possible if and only if no removal, over the records of all transactions newest first, misses its string; and which strings it leaves in the tables. |
| `TransactionRollback.RollbackAllRestoresTables` | dex2oat/aot_class_linker.cc:304-320 | For every consistent state, that condition and those strings; if no interning leaked, it is possible and the tables are those of the outermost snapshot, less dead weak entries. |
| `TransactionTheorems.StepKeepsInvariant` | dex2oat/aot_class_linker.cc:263-320 | Every kind of step keeps the invariant. |
| `TransactionTheorems.RunsKeepInvariant` | dex2oat/aot_class_linker.cc:263-267 | Every state of every run satisfies it; the active flag agrees with the stack throughout. |
| `TransactionTheorems.OneTransactionRollback` | dex2oat/transaction.cc:335-365 | After any writes, allocations, interning and collections in one transaction its rollback restores every live old location exactly, except written inexact floats, and both intern tables. |
| `TransactionTheorems.NestedRollback` | dex2oat/aot_class_linker.cc:304-320 | The same for any nesting, under the exact condition on the interning records: what every location holds, and that it is restored if and only if it is not lost (a committed nested transaction wrote it before an enclosing one recorded it, or a header word or inexact float) or its old value is left there all the same. |
| `TransactionTheorems.NewObjectsUnreachable` | dex2oat/transaction.h:77-88 | After rolling back, no path of references from an old object that avoids lost fields leads to an object allocated since, whatever else was lost. |
| `TransactionTheorems.NewStringsNotInterned` | dex2oat/transaction.h:77-88 | No new string is left in an intern table if and only if, for each and each table, the oldest record is an insertion, or there is none and it is not there; so it is if no committed nested transaction interned. |
| `TransactionEffects.StepWrites` | dex2oat/aot_class_linker.cc:384-438 | Writes take effect where they are made and nowhere else; no other step but a rollback changes what a location of a live object holds. |
| `TransactionEffects.StepPlaces` | dex2oat/transaction.cc:391-462 | Objects appear by allocation, at their address, and move or go away in collections only. |
| `TransactionEffects.StepInterns` | runtime/intern_table.cc:310-326 | Which strings a step other than a rollback leaves in which table. |
| `TransactionEffects.StackIsEntered` | dex2oat/aot_class_linker.cc:269-320 | In every state of every run the transactions are those entered and not left, each with its mode, its root and the last object recorded as new, wherever collections have put them. |
| `TransactionEffects.HoldsLastWritten` | dex2oat/aot_class_linker.cc:384-438 | Before any rollback of a run, a location of a live old object holds what was written to it last. |
| `TransactionEffects.FieldsAfterRollback` | dex2oat/transaction.cc:529-546 | After the rollback of one transaction, every field at an offset other than 0, and in arrays other than 8, holds its old value, kind of object by kind of object; the class word and an array's length hold what was written to them last. |
| `TransactionEffects.FieldsAfterRollbackAll` | dex2oat/transaction.cc:529-546 | The same offsets for any nesting: the class word and an array's length stay as they are, and every other field is restored that no committed transaction had written. |
| `ClassStatuses.StepShown` | runtime/mirror/class.cc:190-204 | Every step of the transactions changes statuses and status records as strict mode takes it to: status writes, entering, leaving and rolling back; all other steps, moving collections included, change nothing. |
| `ClassStatuses.RunShown` | dex2oat/aot_class_linker.cc:263-320 | So every run of the transactions can be followed on statuses alone. |
| `ClassStatuses.RollbackAllShown` | dex2oat/aot_class_linker.cc:304-310 | Rolling back all transactions rolls back all recorded statuses. |
| `ClassStatuses.StatusBits` | runtime/mirror/class.cc:190-204 | A status is in the four most significant bits, under its number 2, 11, 13 or 14. |
| `ClassStatuses.ShownIsDetermined` | runtime/mirror/class.cc:190-204 | The status fields and their records show one status for each class and one record for each class in each transaction. |
| `StrictMode.InitializationFrame` | dex2oat/aot_class_linker.cc:50-111 | Whatever the initializers do, the transactions below keep their records, a status leaves `Verified` once, and no record holds an initialized status. |
| `StrictMode.InitializationLeaves` | dex2oat/aot_class_linker.cc:50-111 | Unless an initializer caught a failure and then completed, the transactions left behind are exactly those of the classes whose attempts failed, innermost the last one attempted. |
| `StrictMode.StackHeight` | dex2oat/aot_class_linker.cc:50-111 | A successful initialization leaves the height of the stack if and only if no initializer caught a failure and then completed; a failed one leaves a transaction or an aborted one; and whose transactions they are, as above. |
| `StrictMode.InitializationIsClean` | dex2oat/aot_class_linker.cc:50-111 | Everything an initialization leaves behind can be undone without taking any initialization back, with initialized superclasses throughout, if and only if no initializer caught a failure and then completed. |
| `StrictMode.FailureClean` | dex2oat/aot_class_linker.cc:96-110 | The end of a failed attempt: its own transaction stays, under those left inside it, and with them the final rollback restores all that has not become initialized. |
| `StrictMode.SuccessClean` | dex2oat/aot_class_linker.cc:96-102 | The end of a successful attempt that left nothing behind: the transaction that leaves is its own, which recorded nothing but its status, and no other does. |
| `StrictMode.SuccessExposed` | dex2oat/aot_class_linker.cc:96-102 | If something was left behind, a transaction that stays records the class that has just become initialized. |
| `InitializationOutcomes.RefusedExactlyWhen` | dex2oat/aot_class_linker.cc:56-93 | An initialization fails without entering a transaction if and only if the class is neither initialized nor initializing and is a boot class or has a superclass being initialized; then the innermost transaction is aborted and nothing else changes. |
| `InitializationOutcomes.LeftAlone` | dex2oat/aot_class_linker.cc:56-59 | A class that is initialized or being initialized is left alone, with success. |
| `InitializationOutcomes.SucceedsExactlyWhen` | runtime/class_linker.cc:6152-6460 | An attempt succeeds if and only if the class verifies and is not erroneous, its superclass and interfaces get initialized, its initializer catches every failure of a request and does not throw, and the transaction is not aborted; which status it leaves either way. |
| `InitializationOutcomes.RequestsSucceed` | runtime/class_linker.cc:6152-6460 | A sequence of requests succeeds if and only if each succeeds or has its failure caught, and then all of them were made. |
| `InitializationOutcomes.InsistedIsInitialized` | dex2oat/aot_class_linker.cc:50-111 | After a successful sequence of requests, what was requested without catching its failure is initialized, unless its initialization was going on before. |
| `InitializationOutcomes.BecomesInitializing` | dex2oat/aot_class_linker.cc:50-111 | When an initialization has ended, successfully or not, no more classes are being initialized than before. |
| `InitializationOutcomes.ChainInitializes` | dex2oat/aot_class_linker.cc:50-111 | For every chain of superclasses, each initialized or ready to be, initializers that do nothing that fails make the initialization succeed; exactly these classes are initialized, and the transactions are as before. |
| `ClassCompilation.AttemptIsSafe` | dex2oat/driver/compiler_driver.cc:2424-2458 | One attempt of the driver is safe (no rollback undoes an initialization, a failed attempt restores every other status including the class's own, no transaction remains, superclasses are initialized first) if and only if no initializer caught a failure and then completed. |
| `ClassCompilation.RollbackTakesBack` | dex2oat/driver/compiler_driver.cc:2424-2458 | The driver takes back a class that is initialized at the end of an attempt if and only if the attempt fails and an initializer in it caught a failure and then completed. |
| `ClassCompilation.CompilationIsSafe` | dex2oat/driver/compiler_driver.cc:2424-2458 | All attempts of a compilation are safe if and only if no initializer in any of them caught a failure and then completed; then initialized classes stay initialized. |
| `ClassCompilation.CaughtFailureBreaksSafety` | dex2oat/aot_class_linker.cc:96-110 | A concrete attempt with a caught failure, which meets the condition, after which a subclass is initialized and its superclass is not. |
| `ImageReferences.CanReference` | dex2oat/aot_class_linker.cc:146-235 | The check terminates and equals its specification. |
| `ImageReferences.AcceptedExactlyWhen` | dex2oat/aot_class_linker.cc:146-216 | A class is accepted if and only if it is in the boot image, or its element class is a class, not erroneous if of an array, and it and its ancestors and interfaces outside the boot image have dex caches outside it and dex files among the given ones, if any are given. |
| `ImageReferences.SuperclassesFine` | dex2oat/aot_class_linker.cc:197-205 | The walk up to the boot image decides whether all superclasses are in the boot image or permitted. |
| `ImageReferences.InterfacesFine` | dex2oat/aot_class_linker.cc:207-216 | The same for the interface table. |
| `ImageReferences.AcceptedReferences` | dex2oat/aot_class_linker.cc:146-152 | Whatever an accepted class refers to is accepted. |
| `ImageReferences.AcceptedIsClosed` | dex2oat/aot_class_linker.cc:146-152 | No chain of superclasses, interfaces and component types leads from an accepted class to one that is not. |
| `ImageReferences.ArrayAcceptedIff` | dex2oat/aot_class_linker.cc:158-174 | An array class outside the boot image is accepted if and only if its element class is outside it too, not erroneous, and accepted. |
| `FileMoves.MoveAllOrAbandon` | artd/file_utils.cc:141-231 | Whatever fails, everything is committed or everything is as before except that the new files are gone; it commits if and only if no call fails, every source exists and no directory is in the way; in every state before the commit point each old file is at exactly one of its two paths. |
| `FileMoves.ShelveOlds` | artd/file_utils.cc:172-209 | Old files move to fresh temporary paths and nothing else changes; all of them do if and only if no call fails and none is a directory. |
| `FileMoves.CommitNews` | artd/file_utils.cc:211-219 | New files move to their destinations, up to the first failure; all of them if and only if no call fails and all exist. |
| `FileMoves.Abandon` | artd/file_utils.cc:147-169 | From any such state the guard removes the new files and restores the old ones. |
| `FileMoves.DropOlds` | artd/file_utils.cc:221-229 | After the commit point all temporary files go and the commit is complete. |
| `FileCommits.ShowsConserved` | artd/file_utils.cc:172-219 | In every intermediate state an old file is at exactly one of its original and its temporary path. |
| `FileSystems.TempPathIs` | artd/file_utils.cc:102-111 | A temporary path is the final path, a dot, six characters and `.tmp`. |
| `NewFiles.NewFile.Create` | artd/file_utils.cc:60-65 | A new empty file under a fresh temporary name, if and only if creating it, setting its mode and setting its owner all work; otherwise nothing has changed. |
| `NewFiles.NewFile.Init` | artd/file_utils.cc:102-116 | It succeeds if and only if the three calls work; a failure after the creation leaves the file open for the destructor. |
| `NewFiles.NewFile.Keep` | artd/file_utils.cc:69-74 | It succeeds if and only if the file is open and closing it works. The descriptor is invalid afterwards, even on failure; the files are unchanged. |
| `NewFiles.NewFile.CommitOrAbandon` | artd/file_utils.cc:76-90 | The new file replaces the final one, if and only if it is open, present, closing and renaming work and no directory is in the way; otherwise it is removed. |
| `NewFiles.NewFile.Cleanup` | artd/file_utils.cc:92-100 | An open file is removed and closed; otherwise nothing happens. |
| `NewFiles.CommitAllOrAbandon` | artd/file_utils.cc:123-139 | All new files are committed or all are abandoned, including when closing one fails; committed if and only if all are open, no call fails and no directory is in the way. |
| `NewFiles.Lifetime` | artd/file_utils.cc:60-121 | For every sequence of uses: the file is created if and only if the three calls of the creation work; it is committed if and only if the first use that closes it is a commit, closing and renaming work and no directory is in the way; the final path changes only then, to the last content written, and the temporary file survives exactly after a direct keep with no later attempt to commit. |
| `NewFiles.UseOnce` | artd/file_utils.cc:60-121 | What one use does to the files, and when a commit succeeds. |
| `Bytecode.SameBlockIff` | dexdump/dexdump_cfg.cc:76-98 | Blocks are consecutive runs of instructions, numbered in order. |
| `Bytecode.BlocksAreBasic` | libdexfile/dex/dex_instruction.h:575-580 | Control enters blocks at the start only and leaves them at the end only. |
| `BasicBlocks.CollectTargets` | dexdump/dexdump_cfg.cc:42-70 | The collected addresses are the targets of all branches and switches. |
| `BasicBlocks.SplitBlocks` | dexdump/dexdump_cfg.cc:72-144 | The two maps hold the block number of every instruction and of every block start. |
| `BasicBlocks.MapsUpTo` | dexdump/dexdump_cfg.cc:72-98 | An address has a block number if and only if there is an instruction, and a node if and only if a block starts there. |
| `FlowGraphs.StartsByKind` | dexdump/dexdump_cfg.cc:72-144 | A block starts at the first instruction, at every address that a branch or switch names, and after every branch, switch, return and throw; nowhere else. |
| `FlowEdges.FirstPass` | dexdump/dexdump_cfg.cc:146-288 | Regular and taken edges are complete; exception edges are right, and complete except for blocks marked for the second pass. |
| `FlowEdges.CollectExceptions` | dexdump/dexdump_cfg.cc:163-201 | One instruction of the first pass keeps that, whether its handlers agree with the block's so far or not. |
| `FlowEdges.DetailBlock` | dexdump/dexdump_cfg.cc:293-331 | The walk over one block terminates and writes, for every instruction of the block, an edge of its own to each of its handlers where an instruction is, and only edges the handlers call for. |
| `FlowEdges.SecondPass` | dexdump/dexdump_cfg.cc:290-331 | Afterwards no exception edge is missing, and in the blocks marked for this pass every instruction has its own. |
| `FlowGraphs.BuildGraph` | dexdump/dexdump_cfg.cc:36-331 | Regular, taken and exception edges are exact: each kind exists if and only if the instructions call for it. |
| `FlowGraphs.RegularIff` | dexdump/dexdump_cfg.cc:185-194 | A regular edge exists if and only if control can fall from one block into the next. |
| `FlowGraphs.RegularByKind` | dexdump/dexdump_cfg.cc:185-271 | No regular edge starts at a return, a throw or an unconditional branch; from any other instruction there is one if and only if the next instruction starts a block, and it leads there. |
| `FlowGraphs.TakenIff` | dexdump/dexdump_cfg.cc:206-251 | A taken edge exists if and only if a jump has that target and an instruction is there. |
| `FlowGraphs.TakenByKind` | dexdump/dexdump_cfg.cc:206-251 | A taken edge joins two instructions if and only if the first is a branch or switch that names the address of the second, and there are no other taken edges. |
| `FlowGraphs.ExceptionsIff` | dexdump/dexdump_cfg.cc:253-331 | A block has an exception edge to a handler if and only if some instruction of it is covered by the handler and an instruction is there. |
| `FlowGraphs.StepIsEdge` | dexdump/dexdump_cfg.cc:157-251 | Every step of control stays inside a block or is an edge. |
| `FlowGraphs.EdgeIsStep` | dexdump/dexdump_cfg.cc:157-251 | Every edge is a step from the last instruction of its block to the first of another. |
| `FlowGraphs.RunIsWalk` | dexdump/dexdump_cfg.cc:36-331 | The edges a run through the instructions takes, loops of a block to itself included, are edges of the graph, each starting where the one before it ends, from the block of the first instruction to that of the last. |
| `FlowGraphs.WalkIsRun` | dexdump/dexdump_cfg.cc:36-331 | Every such sequence of edges from a block is what some run from the start of that block takes. |
| `HandOffTheorems.RunsAreSafe` | adbconnection/adbconnection.cc:677-808 | In every state of every run, whether or not sending fails: the plugin and the transport do not both read the socket, no handshake is skipped that the plugin did not complete on that connection, packets go only to the open socket after the handshake, the eventfd is conserved, and descriptors are never sent twice. |
| `HandOffTheorems.SkipsThroughout` | adbconnection/adbconnection.cc:721-793 | In every state of a run a handshake is skipped if and only if the plugin completed it, if and only if descriptors are never successfully sent again after the plugin completed it. |
| `HandOffTheorems.ReliableRuns` | adbconnection/adbconnection.cc:783-793 | As long as sending works, nothing can be sent again on data, and a handshake is skipped if and only if the plugin completed it. |
| `HandOffTheorems.MutualExclusion` | adbconnection/adbconnection.cc:236-247 | At most one of the poll loop, the agent and any number of threads holds the eventfd. |
| `HandOffTheorems.PollKeeps` | adbconnection/adbconnection.cc:664-814 | Every step of the poll loop keeps the invariant. |
| `HandOffTheorems.AgentKeeps` | dt_fd_forward/dt_fd_forward.cc:366-462 | Every step of the transport keeps it. |
| `HandOffSteps.ThreadKeeps` | adbconnection/adbconnection.cc:483-498 | Every step of a publishing thread keeps it. |
| `HandOffSteps.RecvKeeps` | adbconnection/adbconnection.cc:721-742 | Taking any message of the transport keeps it. |
| `HandOffSteps.DropKeeps` | adbconnection/adbconnection.cc:410-426 | Closing a connection keeps it: with the lock, the transport has let go of its descriptors. |
| `HandOffSteps.PollSkips` | adbconnection/adbconnection.cc:721-793 | The word about the handshake stays right at every step of the poll loop but one: sending again after the plugin completed it. |
| `HandOffSteps.PollPrompt` | adbconnection/adbconnection.cc:721-793 | If sending works, no step leaves descriptors to be sent later. |
| `HandOffTheorems.SentOnce` | adbconnection/adbconnection.cc:570-614 | Descriptors are sent only when none are on their way or in use. |
| `HandOffTheorems.FailedSendIsRepeated` | adbconnection/adbconnection.cc:783-793 | After a failed send the repetition asks for the handshake, which is right if and only if the plugin had not completed it. |
| `HandOffTheorems.PreludeIsARun` | adbconnection/adbconnection.cc:919-958 | A concrete run with one failed send in which the transport is told to repeat a completed handshake. |
| `HandOffWrites.WrittenIsDue` | adbconnection/adbconnection.cc:483-498 | In every state of every run, the packets written and the one about to be written are exactly those due: one for each look under the lock that finds a socket and a complete handshake, in that order. |
| `HandOffWrites.AllDueIsWritten` | adbconnection/adbconnection.cc:483-498 | When nobody is inside the lock, exactly those are written, each to a connection whose handshake was completed. |
| `HandOffSessions.Connects` | adbconnection/adbconnection.cc:743-774 | From any state at rest, a new connection is taken, and handed with a request for the handshake to a transport that listens. |
| `HandOffSessions.SecondIsTurnedAway` | adbconnection/adbconnection.cc:758-763 | A second connection changes nothing. |
| `HandOffSessions.HangsUp` | adbconnection/adbconnection.cc:797-800 | If the debugger hangs up, the connection and its handshake are forgotten. |
| `HandOffSessions.PluginShakes` | adbconnection/adbconnection.cc:919-958 | Before the agent is loaded the plugin performs the handshake; if that fails, the connection is closed. |
| `HandOffSessions.Replies` | adbconnection/adbconnection.cc:483-498 | A chunk handled by the plugin is replied to once. |
| `HandOffSessions.Publishes` | adbconnection/adbconnection.cc:483-498 | A thread that publishes writes its packet if there is a connection with a complete handshake, and otherwise leaves everything as it is. |
| `HandOffSessions.Loads` | adbconnection/adbconnection.cc:721-725 | A loaded agent is handed the connection, with the word to skip the handshake the plugin completed. |
| `HandOffSessions.TakesOver` | adbconnection/adbconnection.cc:726-739 | The transport accepts, performs the handshake if told to, and the plugin knows. |
| `HandOffSessions.Refuses` | dt_fd_forward/dt_fd_forward.cc:366-462 | Or its handshake fails: it wants to close the connection and listen on, and the plugin does not take the handshake for complete. |
| `HandOffSessions.Closes` | adbconnection/adbconnection.cc:732-734 | The transport lets go first, then the plugin; the connection is forgotten. |
| `HandOffSessions.Session` | adbconnection/adbconnection.cc:677-808 | From every waiting state a whole session is possible: it is handed over, shaken, a packet is published to it, it is closed, and everything waits again. |
| `HandOffSessions.FirstSession` | adbconnection/adbconnection.cc:677-808 | So is a first session, with the handshake and a reply by the plugin before the agent is loaded. |
| `HandOffSessions.FailedSession` | adbconnection/adbconnection.cc:677-808 | After a handshake that fails in the transport everything waits again. |
| `HandOffSafety.Head` | dt_fd_forward/dt_fd_forward.cc:118-151 | The first message in the channel determines how much of a session the plugin knows. |
| `HandOffSafety.Exclusive` | adbconnection/adbconnection.cc:236-247 | A conserved lock has at most one holder, and then the counter is zero. |
| `DdmPackets.BuildPacket` | adbconnection/adbconnection.cc:500-552 | The bytes written for a packet of either type. |
| `DdmPackets.PacketBytes` | adbconnection/adbconnection.cc:500-552 | A packet byte by byte: length, id, flags 0 or 0x80, command set 199 and command 1 or zeros, chunk type, chunk length, payload, numbers with the most significant byte first. |
| `DdmPackets.PacketRoundTrip` | adbconnection/adbconnection.cc:850-897 | A command decodes to the same id, type and payload, using exactly its own bytes, if and only if its length fits in 32 bits. |
| `DdmPackets.OnlyDeclaredBytesMatter` | adbconnection/adbconnection.cc:829-897 | For arbitrary bytes, a packet that is consumed uses its declared length and depends on nothing beyond it. |
| `DdmPackets.ReceivedExactlyWhen` | adbconnection/adbconnection.cc:829-897 | For arbitrary bytes: exactly when the socket is closed, the agent loaded, and a chunk handled, and with which id, type and payload. |
| `DdmPackets.ReplyIsNotHandled` | adbconnection/adbconnection.cc:850-860 | A reply is never taken for a command. |
| `JdwpArguments.JdwpArgs.constructor` | adbconnection/jdwpargs.cc:26-52 | The constructor stores what parsing means, and it is valid. |
| `JdwpOptions.SplitExactly` | adbconnection/jdwpargs.cc:29-32 | The pieces are the one way to write the string as pieces without commas with commas between them. |
| `JdwpOptions.DropsExactlyBlanks` | adbconnection/jdwpargs.cc:34-35 | Exactly the six blank characters are dropped, wherever they are, and the others stay in order. |
| `JdwpOptions.EntryExactlyWhen` | adbconnection/jdwpargs.cc:37-49 | A piece is an entry if and only if, without blanks, it is a key, an equals sign and a value: no equals sign in the key, neither empty, none at the end of the value. |
| `JdwpOptions.KeysAfterPut` | adbconnection/jdwpargs.cc:54-60 | Putting one more piece keeps the stored keys those some piece has. |
| `JdwpOptions.ValuesAfterPut` | adbconnection/jdwpargs.cc:54-60 | And each value that of the last piece with its key. |
| `JdwpOptions.OrderAfterPut` | adbconnection/jdwpargs.cc:54-60 | And the keys in the order of their first pieces. |
| `JdwpArguments.JdwpArgs.JoinEntries` | adbconnection/jdwpargs.cc:62-74 | The printed string is the entries in key order with commas between them. |
| `JdwpOptions.JoinExactly` | adbconnection/jdwpargs.cc:62-74 | It is the entries in the order of their keys with commas between them, none at the end, and empty if and only if there are no keys. |
| `JdwpOptions.OrderAndValues` | adbconnection/jdwpargs.h:26-31 | A key is stored if and only if some piece has it, keys are in the order of their first pieces, and each holds its last value. |
| `JdwpOptions.RoundTrip` | adbconnection/jdwpargs.cc:26-74 | Printing valid arguments and parsing the result gives the same keys, values and order. |
| `JdwpOptions.ParseJoinParse` | adbconnection/jdwpargs.cc:26-74 | In particular for what came from parsing any string. |
| `Cancellation.CancellationSignal.Cancel` | artd/artd.cc:1420-1429 | Adds the cancellation and one signal to each registered process to the log, and nothing else; afterwards each has been signalled since its start. |
| `Cancellation.CancellationSignal.OnStart` | artd/artd.cc:1438-1447 | Adds the start, and a signal exactly if already cancelled; the process is registered. |
| `Cancellation.CancellationSignal.OnEnd` | artd/artd.cc:1448-1454 | Adds the end and nothing else; the process is no longer registered. |
| `Cancellation.Run` | artd/artd.cc:1420-1460 | For any interleaving of operations: the log without signals is the sequence of calls, the signals in it are exactly those the calls ask for, and a process is registered if and only if its last start or end call is a start. |
| `Cancellation.LogIsAboutCalls` | artd/artd.cc:1420-1460 | Every log of a sequence of calls is that sequence, once the signals are left out. |
| `Cancellation.SignalledAfterStart` | artd/artd.cc:1420-1460 | The signal to a registered process comes after its last start. |
| `Cancellation.NoSignalAfterEnd` | artd/artd.cc:1448-1454 | A signal after the end of a process is preceded by another start. |

## Left out

- Dex-cache string and method-type records, their undo and root visits, arenas, volatile ordering and the
  abort message of a transaction: foreign runtime state or bookkeeping.
- The write, value and read constraints of a transaction: predicates of one line each.
- FieldValues.ElemRoundTrip: floats are real numbers or special values, and a conversion the language leaves
  open may give any 64-bit number; converting a number back does not round, which could matter only to an
  element of exactly 2^64.
- TransactionTheorems.OneTransactionRollback: fields do not overlap; a location is a field offset or an
  element index.
- AotClassLinkers.AotClassLinker.CollectGarbage: the collector is described by what it keeps and where it
  moves things, not by its own algorithm.
- StrictMode.InitializationIsClean: of what a transaction records only class statuses matter here, and what the
  class initializers do is given as a script.
- The debug-only check of virtual methods at the end of the image-reference check.
- FileMoves.MoveAllOrAbandon: sources are files, not directories; removing a file and moving an old one back
  always work; temporary names never coincide with the paths handed in; symbolic links, other
  processes and the mode and owner of files are not modelled.
- The preparation of `dexopt` up to its call of `CommitAllOrAbandon`.
- FlowGraphs.BuildGraph: edges are sets, so their order and repetition in the output are not modelled, nor is
  the DOT text; kinds of instructions, jump targets and handlers are inputs.
- The values of the debugger socket other than the handshake, the control socket to adbd, and shutting down;
  several assignments that other threads cannot tell apart are one step.
- HandOffTheorems.RunsAreSafe: the transport keeps to its order of messages.
- DdmPackets.BuildPacket: a partial write to the socket is not modelled.
- JdwpOptions.RoundTrip: characters are those of the C locale.
- Sending a signal always succeeds, as the debug check at `artd/artd.cc:1426` requires.
- Everything else: the compiler, the image and ELF writers, `dexopt_chroot_setup`, `cmdline`, and the
  printing of the dumpers.
