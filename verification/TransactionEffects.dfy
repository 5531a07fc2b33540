/** What the steps of a run do, location by location, and what rollbacks make of it, by kind of object. */
module TransactionEffects {
  import opened Options
  import opened FieldValues
  import opened ManagedHeap
  import opened TransactionLog
  import opened InternTables
  import opened TransactionRuns
  import opened TransactionSafety
  import opened TransactionRollback
  import opened TransactionCollect
  import opened TransactionTheorems

  // --- One step -------------------------------------------------------------------------------------

  /** What a step other than a rollback leaves at a location that held `c`. */
  function Written(c: Cell, step: Step, l: Loc): Cell {
    match step
    case WriteField(id, off, v, _) => if l == FieldAt(id, off) then Field(v) else c
    case WriteElem(id, i, e, _) => if l == ElemAt(id, i) then Element(e) else c
    case Alloc(id, _, o, _) => if l.id == id then CellAt(map[id := o], l) else c
    case _ => c
  }

  /** Writes take effect where they are made and nowhere else; allocation adds an object; no other
      step but a rollback changes the contents of an object that stays alive. */
  lemma StepWrites(s: Sys, step: Step, s': Sys, l: Loc)
    requires Next(s, step, s') && !step.RollbackAndExit? && l.id in s'.h.objs
    ensures CellAt(s'.h.objs, l) == Written(CellAt(s.h.objs, l), step, l)
  {
    hide HeapOk, CollectTx, IsRoot, IsAddress, ObjOk, ElemInRange, Forwarding, RecordWriteField, RecordWriteArray;
  }

  /** Objects appear by allocation, at the address given, and move or go away in collections only. */
  lemma StepPlaces(s: Sys, step: Step, s': Sys)
    requires Next(s, step, s')
    ensures step.Alloc? ==>
      && step.id !in s.h.objs && s'.h.objs.Keys == s.h.objs.Keys + {step.id}
      && s'.h.addr == s.h.addr[step.id := step.a]
    ensures step.Collect? ==> s'.h.objs.Keys <= s.h.objs.Keys
    ensures !step.Alloc? && !step.Collect? ==> s'.h.objs.Keys == s.h.objs.Keys && s'.h.addr == s.h.addr
  {
    hide HeapOk, CollectTx, IsRoot, IsAddress, ObjOk, ElemInRange, RecordWriteField, RecordWriteArray, UndoneObj;
    hide UndoAll, Changes, Leak;
  }

  /** An entry is in a table after a change exactly if it was inserted; a collection keeps the entries
      of what is alive; entering, committing, writing and allocating change no entry. */
  lemma StepInterns(s: Sys, step: Step, s': Sys, c: Change)
    requires Next(s, step, s') && !step.RollbackAndExit?
    ensures InTable(s'.tables, c) <==>
      match step
      case Intern(id, strong, insert) =>
        if c.str == id && c.strong == strong then insert else InTable(s.tables, c)
      case Collect => InTable(s.tables, c) && (c.strong || c.str in s'.h.objs)
      case _ => InTable(s.tables, c)
  {
    hide HeapOk, CollectTx, IsRoot, IsAddress, ObjOk, ElemInRange, RecordWriteField, RecordWriteArray, ValueOk;
  }

  /** How many transactions there are. */
  function Height(step: Step): int {
    match step
    case Enter(_, _) => 1
    case Exit => -1
    case RollbackAndExit => -1
    case _ => 0
  }

  lemma StepHeight(s: Sys, step: Step, s': Sys)
    requires Next(s, step, s')
    ensures |s'.stack| == |s.stack| + Height(step)
    ensures step.Enter? || step.Exit? || step.RollbackAndExit? ==> s'.active == (s'.stack != [])
  {
    hide HeapOk, CollectTx, IsRoot, IsAddress, ObjOk, ElemInRange, RecordWriteField, RecordWriteArray, UndoneObj;
    hide UndoAll, Changes, Leak;
  }

  // --- Runs -----------------------------------------------------------------------------------------

  /** What is at a location after these steps, if it held `c` before. */
  function LastWritten(c: Cell, steps: seq<Step>, l: Loc): Cell {
    if steps == [] then c
    else Written(LastWritten(c, steps[..|steps| - 1], l), steps[|steps| - 1], l)
  }

  /** An object that was there in the beginning and is there in the end was there all along. */
  lemma {:induction false} AliveThroughout(states: seq<Sys>, steps: seq<Step>, id: Id, m: nat, n: nat)
    requires IsRun(states, steps) && m <= n <= |steps| && id in states[0].h.objs && id in states[n].h.objs
    ensures id in states[m].h.objs && id in states[m].used
    decreases n - m
  {
    hide Next, Inv;
    if m < n {
      AliveThroughout(states, steps, id, m + 1, n);
      UsedGrows(states, steps, id, m);
      StepPlaces(states[m], steps[m], states[m + 1]);
      AllocIsNew(states[m], steps[m], states[m + 1]);
    } else {
      UsedGrows(states, steps, id, m);
    }
  }

  lemma AllocIsNew(s: Sys, step: Step, s': Sys)
    requires Next(s, step, s')
    ensures s.used <= s'.used && (step.Alloc? ==> step.id !in s.used)
  {
    hide HeapOk, CollectTx, IsRoot, IsAddress, ObjOk, ElemInRange, RecordWriteField, RecordWriteArray, UndoneObj;
    hide UndoAll, Changes, Leak;
  }

  lemma {:induction false} UsedGrows(states: seq<Sys>, steps: seq<Step>, id: Id, n: nat)
    requires IsRun(states, steps) && n <= |steps| && id in states[0].h.objs
    ensures id in states[n].used
  {
    hide Next;
    if n > 0 {
      UsedGrows(states, steps, id, n - 1);
      AllocIsNew(states[n - 1], steps[n - 1], states[n]);
    }
  }

  /** Before any rollback, a location holds what was written to it last. */
  lemma {:induction false} HoldsLastWritten(states: seq<Sys>, steps: seq<Step>, l: Loc, n: nat)
    requires IsRun(states, steps) && n <= |steps| && l.id in states[0].h.objs && l.id in states[n].h.objs
    requires forall i :: 0 <= i < n ==> !steps[i].RollbackAndExit?
    ensures CellAt(states[n].h.objs, l) == LastWritten(CellAt(states[0].h.objs, l), steps[..n], l)
  {
    hide Next, Inv, CellAt, Written;
    if n > 0 {
      AliveThroughout(states, steps, l.id, n - 1, n);
      HoldsLastWritten(states, steps, l, n - 1);
      StepWrites(states[n - 1], steps[n - 1], states[n], l);
      assert steps[..n][..n - 1] == steps[..n - 1];
    }
  }

  // --- Whose transactions they are ------------------------------------------------------------------

  /** The mode and the root class a transaction was entered with, and the last object it was told is new. */
  datatype Entry = Entry(strict: bool, root: Id, last: Id)

  ghost predicate IsEntry(tx: Tx, h: Heap, e: Entry) {
    tx.strict == e.strict && IdAt(h.addr, tx.root) == e.root && IdAt(h.addr, tx.last) == e.last
  }

  ghost predicate AreEntries(s: Sys, entries: seq<Entry>) {
    && |s.stack| == |entries|
    && forall k :: 0 <= k < |entries| ==> IsEntry(s.stack[k], s.h, entries[k])
  }

  function EntriesAfter(before: seq<Entry>, step: Step): seq<Entry> {
    match step
    case Enter(strict, root) => [Entry(strict, root, NULL)] + before
    case Alloc(id, _, _, recorded) => if recorded && before != [] then before[0 := before[0].(last := id)] else before
    case Exit => if before == [] then [] else before[1..]
    case RollbackAndExit => if before == [] then [] else before[1..]
    case _ => before
  }

  /** The entries that have not been left after these steps, innermost first. */
  function Entries(steps: seq<Step>): seq<Entry> {
    if steps == [] then [] else EntriesAfter(Entries(steps[..|steps| - 1]), steps[|steps| - 1])
  }

  lemma CollectKeepsEntry(s: Sys, step: Step, s': Sys, k: nat, e: Entry)
    requires Inv(s) && step.Collect? && Next(s, step, s') && k < |s.stack| && IsEntry(s.stack[k], s.h, e)
    ensures |s'.stack| == |s.stack| && IsEntry(s'.stack[k], s'.h, e)
  {
    hide Level, InternLevel, SnapshotOk, ObjectLogOk, ArrayLogOk, HeapOk, NoDownwardClash;
    hide Rekeyed, ObjectLogsVisited, Sweep;
    assert LevelOk(s, k) && CollectTx(s, s', k);
    RootKept(s, s', k, s.stack[k].root);
    RootKept(s, s', k, s.stack[k].last);
  }

  lemma RootKept(s: Sys, s': Sys, k: nat, a: Addr)
    requires Collected(s.h, s'.h) && k < |s.stack| && (a != NULL ==> IsAddress(s.h.addr, a) && IsRoot(s.stack[k], a))
    requires forall b :: IsRoot(s.stack[k], b) ==> IdAt(s.h.addr, b) in s'.h.objs
    ensures IdAt(s'.h.addr, Visit(Forwarding(s.h, s'.h), a)) == IdAt(s.h.addr, a)
  {
    hide IsRoot, HeapOk;
    VisitNull(s.h, s'.h);
    if a != NULL {
      VisitKeepsIdentity(s.h, s'.h, a);
    }
  }

  lemma AllocKeepsEntry(s: Sys, step: Step, s': Sys, k: nat, e: Entry)
    requires Inv(s) && step.Alloc? && Next(s, step, s') && k < |s.stack| && IsEntry(s.stack[k], s.h, e)
    ensures |s'.stack| == |s.stack|
    ensures IsEntry(s'.stack[k], s'.h, if step.recorded && k == 0 then e.(last := step.id) else e)
  {
    hide Level, InternLevel, SnapshotOk, ObjectLogOk, ArrayLogOk, ObjOk;
    assert LevelOk(s, k);
    AllocKeeps(s, s', step.id, step.a, step.o, step.recorded);
    SameObjectAt(s, s', s.stack[k].root);
    SameObjectAt(s, s', s.stack[k].last);
    IdAtAddrOf(s'.h, step.id);
  }

  lemma SameObjectAt(s: Sys, s': Sys, a: Addr)
    requires HeapOk(s.h) && HeapOk(s'.h) && (a == NULL || IsAddress(s.h.addr, a))
    requires forall id :: id in s.h.addr ==> id in s'.h.addr && s'.h.addr[id] == s.h.addr[id]
    ensures IdAt(s'.h.addr, a) == IdAt(s.h.addr, a)
  {
    if a != NULL {
      AddrOfIdAt(s.h, a);
      assert s'.h.addr[IdAt(s.h.addr, a)] == a;
      IdAtAddrOf(s'.h, IdAt(s.h.addr, a));
    }
  }

  lemma OthersKeepEntry(s: Sys, step: Step, s': Sys, k: nat, e: Entry)
    requires Next(s, step, s') && k < |s.stack| && IsEntry(s.stack[k], s.h, e) && !step.Collect? && !step.Alloc?
    requires step.Exit? || step.RollbackAndExit? ==> k > 0
    ensures 0 <= k + Height(step) < |s'.stack| && IsEntry(s'.stack[k + Height(step)], s'.h, e)
  {
    hide HeapOk, ObjOk, ElemInRange, ValueOk, Valid, Apply, UndoneObj, UndoAll, Changes, Leak, IdAt;
  }

  lemma EnteredEntry(s: Sys, step: Step, s': Sys)
    requires Inv(s) && step.Enter? && Next(s, step, s')
    ensures s'.stack != [] && IsEntry(s'.stack[0], s'.h, Entry(step.strict, step.root, NULL))
  {
    hide LevelOk;
    IdAtAddrOf(s.h, step.root);
  }

  lemma EntryAfter(s: Sys, step: Step, s': Sys, entries: seq<Entry>, k: nat)
    requires Inv(s) && Next(s, step, s') && AreEntries(s, entries)
    requires k < |EntriesAfter(entries, step)| == |s'.stack|
    ensures IsEntry(s'.stack[k], s'.h, EntriesAfter(entries, step)[k])
  {
    hide Next, Inv, IsEntry;
    match step
    case Enter(_, _) =>
      if k == 0 {
        EnteredEntry(s, step, s');
      } else {
        OthersKeepEntry(s, step, s', k - 1, entries[k - 1]);
      }
    case Exit =>
      OthersKeepEntry(s, step, s', k + 1, entries[k + 1]);
    case RollbackAndExit =>
      OthersKeepEntry(s, step, s', k + 1, entries[k + 1]);
    case Collect =>
      CollectKeepsEntry(s, step, s', k, entries[k]);
    case Alloc(_, _, _, _) =>
      AllocKeepsEntry(s, step, s', k, entries[k]);
    case _ =>
      OthersKeepEntry(s, step, s', k, entries[k]);
  }

  /** In every state of a run the transactions are those entered and not left, each with the mode and
      the root it was entered with and the last object it was told is new, wherever collections have put them. */
  lemma {:induction false} StackIsEntered(states: seq<Sys>, steps: seq<Step>, n: nat)
    requires IsRun(states, steps) && n <= |steps|
    ensures AreEntries(states[n], Entries(steps[..n]))
  {
    hide Next, Inv, IsEntry;
    if n > 0 {
      var s, step, s' := states[n - 1], steps[n - 1], states[n];
      StackIsEntered(states, steps, n - 1);
      RunsKeepInvariant(states, steps, n - 1);
      StepHeight(s, step, s');
      assert steps[..n][..n - 1] == steps[..n - 1];
      var entries := Entries(steps[..n - 1]);
      assert Entries(steps[..n]) == EntriesAfter(entries, step);
      forall k | 0 <= k < |EntriesAfter(entries, step)|
        ensures IsEntry(s'.stack[k], s'.h, EntriesAfter(entries, step)[k])
      {
        EntryAfter(s, step, s', entries, k);
      }
    }
  }

  // --- Rollbacks, by kind of object -----------------------------------------------------------------

  /** The word holds the class of an object, or the length of an array. */
  predicate Kept(shape: Shape, off: int) {
    match shape
    case Plain => off == 0
    case ClassObject => off == 0
    case ObjectArray => off == 0 || off == 8
    case PrimArray(_) => off == 0 || off == 8
  }

  lemma KeptIsHeader(objs: map<Id, Obj>, id: Id, off: int)
    requires id in objs
    ensures HeaderWord(objs, FieldAt(id, off)) <==> Kept(objs[id].shape, off)
  {
  }

  /** After the rollback of one transaction, every field of a plain object or a class but the class
      word, and every field of an array but the class word and the length, holds what it held
      before the transaction. Those words hold what was written to them last. */
  lemma FieldsAfterRollback(states: seq<Sys>, steps: seq<Step>, id: Id, off: int)
    requires OneTransaction(states, steps) && id in states[0].h.objs && id in states[|steps|].h.objs
    requires off in states[0].h.objs[id].fields
    ensures var s0, s := states[0], states[|steps|];
      && |s.snaps| == |s.stack| && s.stack != [] && Rollback(s).Some?
      && var was, now := s0.h.objs[id].fields[off], CellAt(Rollback(s).value.h.objs, FieldAt(id, off));
      match s0.h.objs[id].shape
      case Plain =>
        now == if off == 0 then LastWritten(Field(was), steps, FieldAt(id, off)) else Field(was)
      case ClassObject =>
        now == if off == 0 then LastWritten(Field(was), steps, FieldAt(id, off)) else Field(was)
      case ObjectArray =>
        now == if off == 0 || off == 8 then LastWritten(Field(was), steps, FieldAt(id, off)) else Field(was)
      case PrimArray(_) =>
        now == if off == 0 || off == 8 then LastWritten(Field(was), steps, FieldAt(id, off)) else Field(was)
  {
    var s0, s, l := states[0], states[|steps|], FieldAt(id, off);
    OneTransactionRollback(states, steps, l);
    KeptIsHeader(s0.h.objs, id, off);
    assert s0.h.objs[id].shape.Plain? || s0.h.objs[id].shape.ClassObject? || s0.h.objs[id].shape.ObjectArray?
        || s0.h.objs[id].shape.PrimArray?;
    if Kept(s0.h.objs[id].shape, off) {
      NotRolledBack(states, steps, id, off);
    }
  }

  /** The words a rollback leaves alone. */
  lemma NotRolledBack(states: seq<Sys>, steps: seq<Step>, id: Id, off: int)
    requires OneTransaction(states, steps) && id in states[0].h.objs && id in states[|steps|].h.objs
    requires off in states[0].h.objs[id].fields && Kept(states[0].h.objs[id].shape, off)
    requires var s := states[|steps|]; |s.snaps| == |s.stack| && s.stack != [] && Rollback(s).Some?
    ensures CellAt(Rollback(states[|steps|]).value.h.objs, FieldAt(id, off))
         == LastWritten(CellAt(states[0].h.objs, FieldAt(id, off)), steps, FieldAt(id, off))
  {
    var s, l := states[|steps|], FieldAt(id, off);
    RunsKeepInvariant(states, steps, |steps|);
    OneSnapshot(states, steps, |steps|);
    assert LevelOk(s, 0);
    assert SameLayout(s.snaps[0].objs[id], s.h.objs[id]);
    KeptIsHeader(s.h.objs, id, off);
    UndoneCell(s.h, s.stack[0], l);
    assert steps[..|steps|] == steps;
    HoldsLastWritten(states, steps, l, |steps|);
  }

  // --- Nested transactions --------------------------------------------------------------------------

  /** Some transaction was committed that had written the location while it was the innermost one. */
  ghost predicate Committed(states: seq<Sys>, steps: seq<Step>, l: Loc)
    requires |states| == |steps| + 1
  {
    exists i :: 0 <= i < |steps| && CommitsWrite(states[i], steps[i], l)
  }

  ghost predicate CommitsWrite(s: Sys, step: Step, l: Loc) {
    step.Exit? && s.snaps != [] && l in s.snaps[0].written
  }

  /** No transaction knows the location as changed behind its back. */
  ghost predicate NotLeaked(s: Sys, l: Loc) {
    forall k :: 0 <= k < |s.snaps| ==> l !in s.snaps[k].leaked
  }

  /** An object keeps its kind. */
  lemma SameKind(states: seq<Sys>, steps: seq<Step>, id: Id, n: nat, k: nat)
    requires Within(states, steps) && 1 <= n <= |steps| && id in states[0].h.objs && id in states[n].h.objs
    requires k < |states[n].snaps|
    ensures states[n].h.objs[id].shape == states[0].h.objs[id].shape
    ensures id in states[n].snaps[k].objs ==> states[n].snaps[k].objs[id].shape == states[0].h.objs[id].shape
  {
    hide Next;
    var s := states[n];
    RunsKeepInvariant(states, steps, n);
    OutermostSnapshot(states, steps, n);
    assert LevelOk(s, |s.stack| - 1) && LevelOk(s, k);
    assert SameLayout(s.snaps[|s.snaps| - 1].objs[id], s.h.objs[id]);
    if id in s.snaps[k].objs {
      assert SameLayout(s.snaps[k].objs[id], s.h.objs[id]);
    }
  }

  /** A field that rollbacks restore is leaked by commits only. */
  lemma LeakedByCommit(s: Sys, step: Step, s': Sys, l: Loc)
    requires Next(s, step, s') && NotLeaked(s, l) && !CommitsWrite(s, step, l)
    requires s.snaps != [] ==> l !in Unrestorable(s.snaps[0])
    ensures NotLeaked(s', l)
  {
    hide HeapOk, CollectTx, IsRoot, IsAddress, ObjOk, ElemInRange, RecordWriteField, RecordWriteArray, UndoneObj;
    hide UndoAll, Changes, Unrestorable, Forwarding;
  }

  lemma Restorable(snap: Snapshot, id: Id, off: int)
    requires id in snap.objs ==> !Kept(snap.objs[id].shape, off)
    ensures FieldAt(id, off) !in Unrestorable(snap)
  {
    if id in snap.objs {
      KeptIsHeader(snap.objs, id, off);
    }
  }

  lemma {:induction false} StaysUnleaked(states: seq<Sys>, steps: seq<Step>, id: Id, off: int, n: nat)
    requires Within(states, steps) && n <= |steps| && id in states[0].h.objs && id in states[|steps|].h.objs
    requires !Kept(states[0].h.objs[id].shape, off) && !Committed(states, steps, FieldAt(id, off))
    ensures NotLeaked(states[n], FieldAt(id, off))
  {
    hide Next, Inv, Unrestorable, Kept;
    if n > 0 {
      StaysUnleaked(states, steps, id, off, n - 1);
      var s := states[n - 1];
      assert !CommitsWrite(s, steps[n - 1], FieldAt(id, off));
      if n > 1 {
        AliveThroughout(states, steps, id, n - 1, |steps|);
        OutermostSnapshot(states, steps, n - 1);
        SameKind(states, steps, id, n - 1, 0);
        Restorable(s.snaps[0], id, off);
      }
      LeakedByCommit(s, steps[n - 1], states[n], FieldAt(id, off));
    }
  }

  lemma {:induction false} NotLost(snaps: seq<Snapshot>, lost: set<Loc>, l: Loc)
    requires l !in lost && forall k :: 0 <= k < |snaps| ==> l !in snaps[k].leaked && l !in Unrestorable(snaps[k])
    ensures l !in LostFrom(lost, snaps)
    decreases |snaps|
  {
    hide Unrestorable;
    if snaps != [] {
      var more := snaps[0].leaked + Unrestorable(snaps[0]) + (lost - snaps[0].written);
      forall k | 0 <= k < |snaps[1..]| ensures l !in snaps[1..][k].leaked && l !in Unrestorable(snaps[1..][k]) {
        assert snaps[1..][k] == snaps[k + 1];
      }
      NotLost(snaps[1..], more, l);
    }
  }

  lemma {:induction false} LeftAlone(stack: seq<Tx>, h: Heap, l: Loc, c: Cell)
    requires HeaderWord(h.objs, l)
    ensures Left(stack, h, l, c) == c
    decreases |stack|
  {
    if stack != [] {
      LeftAlone(stack[1..], h, l, c);
    }
  }

  lemma UncommittedIsNotLost(states: seq<Sys>, steps: seq<Step>, id: Id, off: int)
    requires Within(states, steps) && id in states[0].h.objs && id in states[|steps|].h.objs
    requires !Kept(states[0].h.objs[id].shape, off) && !Committed(states, steps, FieldAt(id, off))
    ensures FieldAt(id, off) !in Lost(states[|steps|].snaps)
  {
    hide Next, Inv, Kept, LostFrom, Unrestorable;
    var s, l := states[|steps|], FieldAt(id, off);
    StaysUnleaked(states, steps, id, off, |steps|);
    forall k: nat | k < |s.snaps| ensures l !in s.snaps[k].leaked && l !in Unrestorable(s.snaps[k]) {
      SameKind(states, steps, id, |steps|, k);
      Restorable(s.snaps[k], id, off);
    }
    NotLost(s.snaps, {}, l);
  }

  /** The same for any nesting, once everything is rolled back, for every field that no committed
      transaction had written. The class word, and the length of an array, stay as they are. */
  lemma FieldsAfterRollbackAll(states: seq<Sys>, steps: seq<Step>, id: Id, off: int)
    requires Within(states, steps) && id in states[0].h.objs && id in states[|steps|].h.objs
    requires off in states[0].h.objs[id].fields
    ensures var s0, s := states[0], states[|steps|];
      && |s.snaps| == |s.stack| && s.active == (s.stack != [])
      && (RollbackAll(s).Some? ==>
            var was, now := Field(s0.h.objs[id].fields[off]), CellAt(RollbackAll(s).value.h.objs, FieldAt(id, off));
            match s0.h.objs[id].shape
            case Plain =>
              if off == 0 then now == CellAt(s.h.objs, FieldAt(id, off))
              else !Committed(states, steps, FieldAt(id, off)) ==> now == was
            case ClassObject =>
              if off == 0 then now == CellAt(s.h.objs, FieldAt(id, off))
              else !Committed(states, steps, FieldAt(id, off)) ==> now == was
            case ObjectArray =>
              if off == 0 || off == 8 then now == CellAt(s.h.objs, FieldAt(id, off))
              else !Committed(states, steps, FieldAt(id, off)) ==> now == was
            case PrimArray(_) =>
              if off == 0 || off == 8 then now == CellAt(s.h.objs, FieldAt(id, off))
              else !Committed(states, steps, FieldAt(id, off)) ==> now == was)
  {
    var s0, s, l := states[0], states[|steps|], FieldAt(id, off);
    NestedRollback(states, steps);
    hide Next, LevelOk, HeapOk, RollbackAll, Undoable, AllChanges, Committed, Left, Lost, HeaderWord, Sweep;
    assert |s.snaps| == |s.stack| && s.active == (s.stack != []);
    hide Inv;
    if RollbackAll(s).Some? {
      SameKind(states, steps, id, |steps|, 0);
      assert CellAt(s0.h.objs, l) == Field(s0.h.objs[id].fields[off]);
      if Kept(s0.h.objs[id].shape, off) {
        KeptIsHeader(s.h.objs, id, off);
        StillThere(states, steps, l);
        LeftAlone(s.stack, s.h, l, CellAt(s.h.objs, l));
      } else if !Committed(states, steps, l) {
        UncommittedIsNotLost(states, steps, id, off);
      }
    }
  }

  lemma StillThere(states: seq<Sys>, steps: seq<Step>, l: Loc)
    requires Within(states, steps) && CellAt(states[0].h.objs, l) != Absent && l.id in states[|steps|].h.objs
    ensures CellAt(states[|steps|].h.objs, l) != Absent
  {
    RunsKeepInvariant(states, steps, |steps|);
    OutermostSnapshot(states, steps, |steps|);
    OutermostIsLive(states[|steps|], l);
  }
}
