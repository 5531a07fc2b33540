/** Whole runs of nested transactions: writes, allocations, interning, moving collections, and
    the entering, committing and rolling back of transactions, in any order. */
module TransactionRuns {
  import opened Options
  import opened FieldValues
  import opened ManagedHeap
  import opened TransactionLog
  import opened InternTables

  /** What was true when a transaction was entered, and what has happened to it since.
      `written` are the locations written while the transaction was the innermost one.
      `leaked` are the locations changed behind the back of its log, before it recorded them
      itself: by a nested transaction that committed, or by one whose own rollback could not
      restore them. */
  datatype Snapshot = Snapshot(
    objs: map<Id, Obj>,
    tables: Tables,
    written: set<Loc>,
    leaked: set<Loc>,
    internsLeaked: bool)

  /** `stack` is `preinitialization_transactions_`, innermost first; `snaps` runs in parallel.
      `used` holds every identity ever allocated. */
  datatype Sys = Sys(
    h: Heap,
    tables: Tables,
    stack: seq<Tx>,
    snaps: seq<Snapshot>,
    active: bool,
    used: set<Id>)

  datatype Step =
    | WriteField(id: Id, off: int, v: Value, vol: bool)
    | WriteElem(id: Id, i: int, e: Elem, undef: int)
    | Alloc(id: Id, a: Addr, o: Obj, recorded: bool)
    | Intern(id: Id, strong: bool, insert: bool)
    | Collect
    | Enter(strict: bool, root: Id)
    | Exit
    | RollbackAndExit

  // --- The steps ------------------------------------------------------------------------------

  function OnFront(s: Sys, tx: Tx, written: set<Loc>): Sys
    requires |s.snaps| == |s.stack|
  {
    if s.stack == [] then s
    else s.(stack := s.stack[0 := tx],
            snaps := s.snaps[0 := s.snaps[0].(written := s.snaps[0].written + written)])
  }

  ghost predicate WriteFieldStep(s: Sys, s': Sys, id: Id, off: int, v: Value, vol: bool) {
    && |s.snaps| == |s.stack|
    && id in s.h.objs && id in s.h.addr && off in s.h.objs[id].fields
    && var was := s.h.objs[id].fields[off];
    && ValueOk(was, s.h.objs.Keys) && ValueOk(v, s.h.objs.Keys)
    && var s1 :=
         if s.stack == [] then s
         else OnFront(s, RecordWriteField(s.stack[0], s.h.addr[id], off,
                                          FieldValue(Raw(s.h.addr, was), KindOf(was), vol)),
                      {FieldAt(id, off)});
       s' == s1.(h := SetField(s.h, id, off, v))
  }

  ghost predicate WriteElemStep(s: Sys, s': Sys, id: Id, i: int, e: Elem, undef: int) {
    && |s.snaps| == |s.stack|
    && IsU64(undef)
    && id in s.h.objs && id in s.h.addr && i in s.h.objs[id].elems
    && s.h.objs[id].shape.PrimArray?
    && var was := s.h.objs[id].elems[i];
    && ElemInRange(s.h.objs[id].shape.ty, was) && ElemInRange(s.h.objs[id].shape.ty, e)
    && var s1 :=
         if s.stack == [] then s
         else OnFront(s, RecordWriteArray(s.stack[0], s.h.addr[id], i, WidenElem(was, undef)),
                      {ElemAt(id, i)});
       s' == s1.(h := SetElem(s.h, id, i, e))
  }

  /** Allocation at an unused address. The interpreter records the new object; the rest of the
      runtime allocates without recording. */
  ghost predicate AllocStep(s: Sys, s': Sys, id: Id, a: Addr, o: Obj, recorded: bool) {
    && |s.snaps| == |s.stack|
    && id != NULL && id !in s.used && id !in s.h.objs
    && a != NULL && IsU64(a) && !IsAddress(s.h.addr, a)
    && ObjOk(o, s.h.objs.Keys + {id})
    && var s1 :=
         if s.stack == [] || !recorded then s
         else OnFront(s, if o.shape.IsArray() then RecordNewArray(s.stack[0], a, o.shape.ObjectArray?)
                         else RecordNewObject(s.stack[0], a), {});
       s' == s1.(h := Heap(s.h.objs[id := o], s.h.addr[id := a]), used := s.used + {id})
  }

  ghost predicate InternStep(s: Sys, s': Sys, id: Id, strong: bool, insert: bool) {
    && |s.snaps| == |s.stack|
    && id in s.h.objs && id in s.h.addr
    && var c := Change(id, strong, insert);
    && Valid(s.tables, c)
    && var s1 :=
         if s.stack == [] then s
         else OnFront(s, RecordIntern(s.stack[0], InternLog(s.h.addr[id], strong, insert)), {});
       s' == s1.(tables := Apply(s.tables, c))
  }

  /** Where the collector put what lived at each old address. */
  ghost function Forwarding(h: Heap, h': Heap): map<Addr, Addr> {
    map a | a in h.addr.Values && IdAt(h.addr, a) in h'.addr :: h'.addr[IdAt(h.addr, a)]
  }

  /** A collection may drop and move objects. It keeps whatever the transactions report as
      roots and whatever a kept object refers to, and lets every transaction update its
      records. It does not complete if re-keying a log fails its check. */
  ghost predicate CollectStep(s: Sys, s': Sys) {
    && HeapOk(s'.h)
    && s'.h.objs.Keys <= s.h.objs.Keys
    && (forall id :: id in s'.h.objs ==> s'.h.objs[id] == s.h.objs[id])
    && (forall k, a :: 0 <= k < |s.stack| && IsRoot(s.stack[k], a) ==> IdAt(s.h.addr, a) in s'.h.objs)
    && s.tables.strong <= s'.h.objs.Keys
    && s'.tables == Sweep(s.tables, s'.h.objs.Keys)
    && |s'.stack| == |s.stack|
    && (forall k :: 0 <= k < |s.stack| ==> CollectTx(s, s', k))
    && s'.snaps == s.snaps && s'.active == s.active && s'.used == s.used
  }

  ghost predicate CollectTx(s: Sys, s': Sys, k: nat)
    requires k < |s.stack| == |s'.stack|
  {
    var fwd := Forwarding(s.h, s'.h);
    && NoDownwardClash(fwd, s.stack[k].objectLogs.Keys)
    && NoDownwardClash(fwd, s.stack[k].arrayLogs.Keys)
    && Visited(fwd, s.stack[k], s'.stack[k])
  }

  ghost predicate EnterStep(s: Sys, s': Sys, strict: bool, root: Id) {
    && (root == NULL || root in s.h.objs)
    && s' == s.(stack := [NewTx(strict, AddrOf(s.h.addr, root))] + s.stack,
                snaps := [Snapshot(s.h.objs, s.tables, {}, {}, false)] + s.snaps,
                active := true)
  }

  /** Tell the enclosing transaction, if there is one, what happened below it. What it has already
      recorded itself stays safe. */
  function Leak(snaps: seq<Snapshot>, leaked: set<Loc>, interns: bool): seq<Snapshot> {
    if snaps == [] then []
    else snaps[0 := snaps[0].(leaked := snaps[0].leaked + (leaked - snaps[0].written),
                              internsLeaked := snaps[0].internsLeaked || interns)]
  }

  /** `ExitTransactionMode`: the innermost transaction commits and its records are dropped. */
  ghost predicate ExitStep(s: Sys, s': Sys) {
    && s.stack != [] && |s.snaps| == |s.stack|
    && s' == s.(stack := s.stack[1..],
                snaps := Leak(s.snaps[1..], s.snaps[0].written + s.snaps[0].leaked,
                              s.snaps[0].internsLeaked || s.stack[0].interns != []),
                active := s.stack[1..] != [])
  }

  /** The written locations that a rollback leaves alone or cannot restore exactly. */
  ghost function Unrestorable(snap: Snapshot): set<Loc> {
    set l | l in snap.written && (HeaderWord(snap.objs, l) || !ExactCell(CellAt(snap.objs, l)))
  }

  predicate ExactCell(c: Cell) {
    c.Element? ==> Exact(c.e)
  }

  ghost function Changes(addr: map<Id, Addr>, interns: seq<InternLog>): seq<Change> {
    seq(|interns|, i requires 0 <= i < |interns| =>
      Change(IdAt(addr, interns[i].str), interns[i].strong, interns[i].insert))
  }

  /** `RollbackAndExitTransactionMode`; there is no outcome if undoing the interning is fatal. */
  ghost function Rollback(s: Sys): Option<Sys>
    requires s.stack != [] && |s.snaps| == |s.stack|
  {
    match UndoAll(s.tables, Changes(s.h.addr, s.stack[0].interns))
    case None => None
    case Some(t) =>
      Some(s.(h := Undone(s.h, s.stack[0]),
              tables := t,
              stack := s.stack[1..],
              snaps := Leak(s.snaps[1..], s.snaps[0].leaked + Unrestorable(s.snaps[0]),
                            s.snaps[0].internsLeaked),
              active := s.stack[1..] != []))
  }

  ghost predicate RollbackStep(s: Sys, s': Sys) {
    s.stack != [] && |s.snaps| == |s.stack| && Rollback(s) == Some(s')
  }

  /** `RollbackAllTransactions`: as long as a transaction is active. */
  ghost function RollbackAll(s: Sys): Option<Sys>
    requires |s.snaps| == |s.stack| && s.active == (s.stack != [])
    decreases |s.stack|
  {
    if !s.active then Some(s)
    else match Rollback(s)
      case None => None
      case Some(s') => RollbackAll(s')
  }

  ghost predicate Next(s: Sys, step: Step, s': Sys) {
    match step
    case WriteField(id, off, v, vol) => WriteFieldStep(s, s', id, off, v, vol)
    case WriteElem(id, i, e, undef) => WriteElemStep(s, s', id, i, e, undef)
    case Alloc(id, a, o, recorded) => AllocStep(s, s', id, a, o, recorded)
    case Intern(id, strong, insert) => InternStep(s, s', id, strong, insert)
    case Collect => CollectStep(s, s')
    case Enter(strict, root) => EnterStep(s, s', strict, root)
    case Exit => ExitStep(s, s')
    case RollbackAndExit => RollbackStep(s, s')
  }

  // --- The invariant --------------------------------------------------------------------------

  /** A rollback brings back `c` exactly if it is exact, and something else otherwise. */
  ghost predicate Brings(c: Cell, logged: Cell) {
    if ExactCell(c) then logged == c else logged != c
  }

  /** At a location that existed when the transaction was entered: it is recorded if and only if
      it was written, the record is the value at entry, and without a record the value at entry
      is still there, `next` being the heap contents the transaction left to what came after. */
  ghost predicate LevelAt(tx: Tx, h: Heap, snap: Snapshot, next: map<Id, Obj>, l: Loc) {
    l.id in h.objs && CellAt(snap.objs, l) != Absent ==>
      && l.id in h.addr
      && !NewObjectLogged(tx, h.addr[l.id]) && !NewArrayLogged(tx, h.addr[l.id])
      && (Logged(tx, h, l) != Absent <==> l in snap.written)
      && (l !in snap.leaked ==>
            if l in snap.written then Brings(CellAt(snap.objs, l), Logged(tx, h, l))
            else CellAt(next, l) == CellAt(snap.objs, l))
  }

  ghost predicate Level(tx: Tx, h: Heap, snap: Snapshot, next: map<Id, Obj>) {
    forall l :: LevelAt(tx, h, snap, next, l)
  }

  ghost predicate InternLevel(tx: Tx, h: Heap, snap: Snapshot, next: Tables) {
    !snap.internsLeaked ==>
      UndoAll(Sweep(next, h.objs.Keys), Changes(h.addr, tx.interns)) == Some(Sweep(snap.tables, h.objs.Keys))
  }

  predicate SameLayout(o: Obj, o': Obj) {
    o.shape == o'.shape && o.fields.Keys == o'.fields.Keys && o.elems.Keys == o'.elems.Keys
  }

  ghost predicate SameLayouts(objs: map<Id, Obj>, objs': map<Id, Obj>) {
    forall id :: id in objs && id in objs' ==> SameLayout(objs[id], objs'[id])
  }

  /** The snapshot is a closed heap of its own, with the layout objects still have. */
  ghost predicate SnapshotOk(snap: Snapshot, h: Heap, used: set<Id>) {
    && snap.objs.Keys <= used
    && SameLayouts(snap.objs, h.objs)
    && (forall id :: id in snap.objs ==> ObjOk(snap.objs[id], snap.objs.Keys))
    && snap.tables.strong <= snap.objs.Keys && snap.tables.weak <= snap.objs.Keys
  }

  function NextObjs(s: Sys, k: nat): map<Id, Obj>
    requires k < |s.snaps|
  {
    if k == 0 then s.h.objs else s.snaps[k - 1].objs
  }

  function NextTables(s: Sys, k: nat): Tables
    requires k < |s.snaps|
  {
    if k == 0 then s.tables else s.snaps[k - 1].tables
  }

  ghost predicate LevelOk(s: Sys, k: nat)
    requires k < |s.stack| == |s.snaps|
  {
    && TxOk(s.stack[k], s.h)
    && !s.stack[k].rollingBack
    && SnapshotOk(s.snaps[k], s.h, s.used)
    && Level(s.stack[k], s.h, s.snaps[k], NextObjs(s, k))
    && InternLevel(s.stack[k], s.h, s.snaps[k], NextTables(s, k))
    && (forall id :: id in s.snaps[k].objs && id in s.h.objs ==> id in NextObjs(s, k))
    && SameLayouts(s.snaps[k].objs, NextObjs(s, k))
  }

  ghost predicate Inv(s: Sys) {
    && HeapOk(s.h)
    && s.h.objs.Keys <= s.used
    && s.tables.strong <= s.h.objs.Keys && s.tables.weak <= s.h.objs.Keys
    && |s.snaps| == |s.stack|
    && s.active == (s.stack != [])
    && forall k :: 0 <= k < |s.stack| ==> LevelOk(s, k)
  }
}
