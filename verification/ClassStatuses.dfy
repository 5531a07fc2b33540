/** Class initialization and the transactions under it: the status of a class is a field of its
    class object, so what `ClassInitialization` says about statuses is what the transactions do with
    these fields. */
module ClassStatuses {
  import opened Options
  import opened FieldValues
  import opened ManagedHeap
  import opened TransactionLog
  import opened InternTables
  import opened TransactionRuns
  import opened TransactionSafety
  import opened TransactionRollback
  import opened TransactionCollect
  import TransactionTheorems
  import Init = ClassInitialization

  type World = Init.World

  /** The 32 bits that stand for a status: it is in the four most significant ones. */
  function Code(st: Init.Status): int {
    match st
    case Erroneous => 2 * 0x1000_0000
    case Verified => 11 * 0x1000_0000
    case Initializing => 13 * 0x1000_0000
    case Initialized => 14 * 0x1000_0000
  }

  function Holding(st: Init.Status): Value { Scalar(K32Bits, Code(st)) }

  /** Where statuses are: in the field at `off` of each of the `classes`. */
  datatype Layout = Layout(classes: set<Id>, off: int)

  function StatusLoc(y: Layout, c: Id): Loc { FieldAt(c, y.off) }

  // --- What the two say of each other -----------------------------------------------------------------

  /** The class objects are there, and no transaction takes them for new ones. */
  ghost predicate HasClasses(s: Sys, y: Layout) {
    && y.classes <= s.h.objs.Keys
    && forall c :: c in y.classes ==>
      && c in s.h.objs && c in s.h.addr
      && !HeaderWord(s.h.objs, StatusLoc(y, c)) && !s.h.objs[c].shape.PrimArray?
      && forall i :: 0 <= i < |s.stack| ==> !NewObjectLogged(s.stack[i], s.h.addr[c])
  }

  ghost predicate Statuses(h: Heap, y: Layout, w: World) {
    && w.status.Keys <= y.classes
    && forall c :: c in y.classes ==> CellAt(h.objs, StatusLoc(y, c)) == Field(Holding(Init.StatusOf(w, c)))
  }

  /** What a transaction would restore. */
  function Restores(log: map<Init.Class, Init.Status>, c: Id): Cell {
    if c in log then Field(Holding(log[c])) else Absent
  }

  ghost predicate SameLog(tx: Tx, h: Heap, y: Layout, log: map<Init.Class, Init.Status>) {
    && log.Keys <= y.classes
    && forall c :: c in y.classes ==> Logged(tx, h, StatusLoc(y, c)) == Restores(log, c)
  }

  ghost predicate SameLogs(s: Sys, y: Layout, w: World) {
    && |w.stack| == |s.stack|
    && forall i :: 0 <= i < |s.stack| ==> SameLog(s.stack[i], s.h, y, w.stack[i].log)
  }

  ghost predicate Shows(s: Sys, y: Layout, w: World) {
    HasClasses(s, y) && Statuses(s.h, y, w) && SameLogs(s, y, w)
  }

  /** The status is in the four most significant bits, with the number of `ClassStatus`. */
  lemma StatusBits(st: Init.Status)
    ensures InRange(K32Bits, Code(st)) && Code(st) % 0x1000_0000 == 0
    ensures Code(st) / 0x1000_0000 ==
      match st
      case Erroneous => 2
      case Verified => 11
      case Initializing => 13
      case Initialized => 14
  {
  }

  lemma HoldingTellsApart(st: Init.Status, st': Init.Status)
    requires Holding(st) == Holding(st')
    ensures st == st'
  {
    StatusBits(st);
    StatusBits(st');
  }

  /** The fields and the records leave no choice: they show one status for each class, and one record
      for each class in each transaction. */
  lemma ShownIsDetermined(s: Sys, y: Layout, w: World, w': World)
    requires Shows(s, y, w) && Shows(s, y, w')
    ensures forall c :: c in y.classes ==> Init.StatusOf(w, c) == Init.StatusOf(w', c)
    ensures |w.stack| == |w'.stack|
    ensures forall i :: 0 <= i < |w.stack| ==> w.stack[i].log == w'.stack[i].log
  {
    hide HasClasses, CellAt, Logged, HeaderWord, Code;
    forall c | c in y.classes ensures Init.StatusOf(w, c) == Init.StatusOf(w', c) {
      HoldingTellsApart(Init.StatusOf(w, c), Init.StatusOf(w', c));
    }
    forall i | 0 <= i < |w.stack| ensures w.stack[i].log == w'.stack[i].log {
      SameRecords(s.stack[i], s.h, y, w.stack[i].log, w'.stack[i].log);
    }
  }

  lemma SameRecords(tx: Tx, h: Heap, y: Layout, log: map<Init.Class, Init.Status>, log': map<Init.Class, Init.Status>)
    requires SameLog(tx, h, y, log) && SameLog(tx, h, y, log')
    ensures log == log'
  {
    hide Logged, Holding;
    forall c | c in y.classes ensures (c in log <==> c in log') && (c in log ==> log[c] == log'[c]) {
      assert Restores(log, c) == Restores(log', c);
      if c in log {
        HoldingTellsApart(log[c], log'[c]);
      }
    }
  }

  /** What a step does to the statuses. */
  ghost function Effect(y: Layout, w: World, step: Step, st: Init.Status): World {
    match step
    case WriteField(id, off, v, vol) => if id in y.classes && off == y.off then Init.SetStatus(w, id, st) else w
    case Enter(strict, root) => Init.Enter(w, root)
    case Exit => Init.Exit(w)
    case RollbackAndExit => if w.stack == [] then w else Init.Rollback(w)
    case _ => w
  }

  /** Status fields are only ever given a status, and class objects stay alive. */
  predicate Respects(y: Layout, step: Step, s': Sys, st: Init.Status) {
    && (step.WriteField? && step.id in y.classes && step.off == y.off ==> step.v == Holding(st))
    && y.classes <= s'.h.objs.Keys
  }

  // --- Writes -------------------------------------------------------------------------------------------

  lemma Recorded(tx: Tx, h: Heap, y: Layout, log: map<Init.Class, Init.Status>, id: Id, off: int, fv: FieldValue)
    requires HeapOk(h) && TxOk(tx, h) && id in h.objs && y.classes <= h.objs.Keys && SameLog(tx, h, y, log)
    requires forall c :: c in y.classes ==> !NewObjectLogged(tx, h.addr[c]) && !h.objs[c].shape.PrimArray?
    ensures var tx' := RecordWriteField(tx, h.addr[id], off, fv);
      && (forall c :: c in y.classes ==> !NewObjectLogged(tx', h.addr[c]))
      && (forall c :: c in y.classes ==>
            Logged(tx', h, StatusLoc(y, c))
            == if c == id && off == y.off && c !in log then Field(Decode(h.addr, fv)) else Restores(log, c))
  {
    hide ObjectLogOk, Logged, RecordWriteField, HeaderWord;
    forall c | c in y.classes
      ensures var tx' := RecordWriteField(tx, h.addr[id], off, fv);
        && !NewObjectLogged(tx', h.addr[c])
        && Logged(tx', h, StatusLoc(y, c))
           == if c == id && off == y.off && c !in log then Field(Decode(h.addr, fv)) else Restores(log, c)
    {
      OldClassNeedsRecords(tx, h, c);
      LoggedAfterRecordField(tx, h, id, off, fv, StatusLoc(y, c));
    }
  }

  lemma OldClassNeedsRecords(tx: Tx, h: Heap, c: Id)
    requires HeapOk(h) && TxOk(tx, h) && c in h.objs && !NewObjectLogged(tx, h.addr[c]) && !h.objs[c].shape.PrimArray?
    ensures ObjectNeedsRecords(tx, h.addr[c])
  {
    IdAtAddrOf(h, c);
    assert h.addr[c] in tx.arrayLogs ==> ArrayLogOk(h, h.addr[c], tx.arrayLogs[h.addr[c]]);
    OldObjectNeedsRecords(tx, h, c);
  }

  /** Records are read the same way as long as objects stay where they are. */
  lemma LogsExtend(s: Sys, h': Heap, y: Layout, i: int, log: map<Init.Class, Init.Status>)
    requires Inv(s) && Extends(s.h, h') && 0 <= i < |s.stack| && y.classes <= s.h.objs.Keys
    requires SameLog(s.stack[i], s.h, y, log)
    ensures SameLog(s.stack[i], h', y, log)
  {
    assert LevelOk(s, i);
    hide Inv, LevelOk, Extends, Logged;
    forall c | c in y.classes ensures Logged(s.stack[i], h', StatusLoc(y, c)) == Restores(log, c) {
      LoggedExtends(s.stack[i], s.h, h', StatusLoc(y, c));
    }
  }

  lemma FieldWriteShown(s: Sys, s': Sys, y: Layout, w: World, id: Id, off: int, v: Value, vol: bool, st: Init.Status)
    requires Inv(s) && Shows(s, y, w) && WriteFieldStep(s, s', id, off, v, vol)
    requires id in y.classes && off == y.off ==> v == Holding(st)
    ensures Shows(s', y, if id in y.classes && off == y.off then Init.SetStatus(w, id, st) else w)
  {
    var w' := if id in y.classes && off == y.off then Init.SetStatus(w, id, st) else w;
    SetFieldExtends(s.h, id, off, v);
    FieldStatuses(s.h, y, w, w', id, off, v, st);
    FieldLogs(s, s', y, w, w', id, off, v, vol, st);
  }

  lemma FieldStatuses(h: Heap, y: Layout, w: World, w': World, id: Id, off: int, v: Value, st: Init.Status)
    requires Statuses(h, y, w) && id in h.objs && off in h.objs[id].fields
    requires id in y.classes && off == y.off ==> v == Holding(st)
    requires w' == if id in y.classes && off == y.off then Init.SetStatus(w, id, st) else w
    ensures Statuses(SetField(h, id, off, v), y, w')
  {
    var h' := SetField(h, id, off, v);
    forall c | c in y.classes ensures CellAt(h'.objs, StatusLoc(y, c)) == Field(Holding(Init.StatusOf(w', c))) {
      assert CellAt(h.objs, StatusLoc(y, c)) == Field(Holding(Init.StatusOf(w, c)));
    }
  }

  lemma FieldLogs(s: Sys, s': Sys, y: Layout, w: World, w': World, id: Id, off: int, v: Value, vol: bool,
      st: Init.Status)
    requires Inv(s) && Shows(s, y, w) && WriteFieldStep(s, s', id, off, v, vol) && Extends(s.h, s'.h)
    requires w' == if id in y.classes && off == y.off then Init.SetStatus(w, id, st) else w
    ensures HasClasses(s', y) && SameLogs(s', y, w')
  {
    if s.stack != [] {
      FrontLogs(s, s', y, w, w', id, off, v, vol, st);
    }
    assert forall i :: 0 < i < |s.stack| ==> s'.stack[i] == s.stack[i] && w'.stack[i].log == w.stack[i].log;
    hide Inv, Extends, Logged, WriteFieldStep, Statuses;
    forall i | 0 < i < |s.stack| ensures SameLog(s'.stack[i], s'.h, y, w'.stack[i].log) {
      LogsExtend(s, s'.h, y, i, w.stack[i].log);
    }
    SameClasses(s, s', y);
  }

  lemma SameClasses(s: Sys, s': Sys, y: Layout)
    requires Extends(s.h, s'.h) && HasClasses(s, y) && |s'.stack| == |s.stack|
    requires s.stack != [] ==> forall c :: c in y.classes ==> !NewObjectLogged(s'.stack[0], s.h.addr[c])
    requires forall i :: 0 < i < |s.stack| ==> s'.stack[i] == s.stack[i]
    ensures HasClasses(s', y)
  {
    hide HeapOk;
    forall c | c in y.classes
      ensures c in s'.h.objs && c in s'.h.addr && !HeaderWord(s'.h.objs, StatusLoc(y, c))
        && !s'.h.objs[c].shape.PrimArray?
      ensures forall i :: 0 <= i < |s'.stack| ==> !NewObjectLogged(s'.stack[i], s'.h.addr[c])
    {
      assert SameLayout(s.h.objs[c], s'.h.objs[c]);
      InHeap(s'.h, c);
    }
  }

  lemma InHeap(h: Heap, c: Id)
    requires HeapOk(h) && c in h.objs
    ensures c in h.addr
  {
  }

  /** What the innermost transaction records of a write. */
  lemma FrontRecord(tx: Tx, h: Heap, id: Id, off: int, vol: bool) returns (fv: FieldValue)
    requires HeapOk(h) && TxOk(tx, h) && id in h.objs && off in h.objs[id].fields
      && ValueOk(h.objs[id].fields[off], h.objs.Keys)
    ensures fv == FieldValue(Raw(h.addr, h.objs[id].fields[off]), KindOf(h.objs[id].fields[off]), vol)
    ensures Decode(h.addr, fv) == h.objs[id].fields[off] && TxOk(RecordWriteField(tx, h.addr[id], off, fv), h)
  {
    var was := h.objs[id].fields[off];
    fv := FieldValue(Raw(h.addr, was), KindOf(was), vol);
    DecodeRaw(h, was, vol);
    assert FieldValueOk(h, id, off, fv) by {
      if was.Reference? && was.target != NULL {
        assert IsAddress(h.addr, h.addr[was.target]);
      }
    }
    RecordFieldOk(tx, h, id, off, fv);
  }

  lemma FrontLogs(s: Sys, s': Sys, y: Layout, w: World, w': World, id: Id, off: int, v: Value, vol: bool,
      st: Init.Status)
    requires Inv(s) && Shows(s, y, w) && WriteFieldStep(s, s', id, off, v, vol) && Extends(s.h, s'.h) && s.stack != []
    requires w' == if id in y.classes && off == y.off then Init.SetStatus(w, id, st) else w
    ensures SameLog(s'.stack[0], s'.h, y, w'.stack[0].log)
    ensures forall c :: c in y.classes ==> !NewObjectLogged(s'.stack[0], s.h.addr[c])
  {
    assert LevelOk(s, 0);
    hide LevelOk, TxOk, Extends, HeapOk, Logged, RecordWriteField, HeaderWord;
    var fv := FrontRecord(s.stack[0], s.h, id, off, vol);
    assert s'.stack[0] == RecordWriteField(s.stack[0], s.h.addr[id], off, fv);
    FrontLog(s.stack[0], s.h, s'.h, y, w, w', id, off, fv, st);
  }

  lemma FrontLog(tx: Tx, h: Heap, h': Heap, y: Layout, w: World, w': World, id: Id, off: int, fv: FieldValue,
      st: Init.Status)
    requires HeapOk(h) && TxOk(tx, h) && Extends(h, h') && id in h.objs && off in h.objs[id].fields
    requires y.classes <= h.objs.Keys && Statuses(h, y, w) && w.stack != [] && SameLog(tx, h, y, w.stack[0].log)
    requires forall c :: c in y.classes ==> !NewObjectLogged(tx, h.addr[c]) && !h.objs[c].shape.PrimArray?
    requires Decode(h.addr, fv) == h.objs[id].fields[off] && TxOk(RecordWriteField(tx, h.addr[id], off, fv), h)
    requires w' == if id in y.classes && off == y.off then Init.SetStatus(w, id, st) else w
    ensures SameLog(RecordWriteField(tx, h.addr[id], off, fv), h', y, w'.stack[0].log)
    ensures forall c :: c in y.classes ==> !NewObjectLogged(RecordWriteField(tx, h.addr[id], off, fv), h.addr[c])
  {
    Recorded(tx, h, y, w.stack[0].log, id, off, fv);
    var tx', log' := RecordWriteField(tx, h.addr[id], off, fv), w'.stack[0].log;
    hide Logged, RecordWriteField, Extends, HeapOk, TxOk, NewObjectLogged, Decode;
    assert log' == if id in y.classes && off == y.off && id !in w.stack[0].log
                   then w.stack[0].log[id := Init.StatusOf(w, id)] else w.stack[0].log;
    assert id in y.classes && off == y.off ==> h.objs[id].fields[off] == Holding(Init.StatusOf(w, id)) by {
      assert id in y.classes ==> CellAt(h.objs, StatusLoc(y, id)) == Field(Holding(Init.StatusOf(w, id)));
    }
    hide Statuses, SameLog, Init.SetStatus, Init.StatusOf, Code;
    forall c | c in y.classes ensures Logged(tx', h', StatusLoc(y, c)) == Restores(log', c) {
      LoggedExtends(tx', h, h', StatusLoc(y, c));
    }
  }

  // --- Other steps ----------------------------------------------------------------------------------

  /** A step that leaves the class objects alone and records nothing about their fields. */
  lemma Undisturbed(s: Sys, s': Sys, y: Layout, w: World)
    requires Inv(s) && Shows(s, y, w) && Extends(s.h, s'.h) && |s'.stack| == |s.stack|
    requires forall c :: c in y.classes ==> CellAt(s'.h.objs, StatusLoc(y, c)) == CellAt(s.h.objs, StatusLoc(y, c))
    requires forall i :: 0 < i < |s.stack| ==> s'.stack[i] == s.stack[i]
    requires s.stack != [] ==> forall c :: c in y.classes ==>
      && Logged(s'.stack[0], s'.h, StatusLoc(y, c)) == Logged(s.stack[0], s'.h, StatusLoc(y, c))
      && !NewObjectLogged(s'.stack[0], s.h.addr[c])
    ensures Shows(s', y, w)
  {
    hide Inv, Extends, Logged, CellAt;
    forall i | 0 <= i < |s.stack| ensures SameLog(s'.stack[i], s'.h, y, w.stack[i].log) {
      LogsExtend(s, s'.h, y, i, w.stack[i].log);
    }
    SameClasses(s, s', y);
  }

  lemma ElemWriteShown(s: Sys, s': Sys, y: Layout, w: World, id: Id, i: int, e: Elem, undef: int)
    requires Inv(s) && Shows(s, y, w) && WriteElemStep(s, s', id, i, e, undef)
    ensures Shows(s', y, w)
  {
    SetElemExtends(s.h, id, i, e);
    hide Inv, Statuses, SameLogs;
    if s.stack != [] {
      forall c | c in y.classes
        ensures Logged(s'.stack[0], s'.h, StatusLoc(y, c)) == Logged(s.stack[0], s'.h, StatusLoc(y, c))
        ensures !NewObjectLogged(s'.stack[0], s.h.addr[c])
      {
        assert s'.stack[0].objectLogs == s.stack[0].objectLogs;
      }
    }
    hide Extends;
    Undisturbed(s, s', y, w);
  }

  lemma InternShown(s: Sys, s': Sys, y: Layout, w: World, id: Id, strong: bool, insert: bool)
    requires Inv(s) && Shows(s, y, w) && InternStep(s, s', id, strong, insert)
    ensures Shows(s', y, w)
  {
    assert Extends(s.h, s'.h);
    hide Inv, Statuses, SameLogs, Extends, InternTables.Valid;
    Undisturbed(s, s', y, w);
  }

  lemma AllocShown(s: Sys, s': Sys, y: Layout, w: World, id: Id, a: Addr, o: Obj, recorded: bool)
    requires Inv(s) && Shows(s, y, w) && AllocStep(s, s', id, a, o, recorded)
    ensures Shows(s', y, w)
  {
    AllocExtends(s, s', id, a, o, recorded);
    hide Inv, Statuses, SameLogs, Logged;
    forall c | c in y.classes && s.stack != []
      ensures Logged(s'.stack[0], s'.h, StatusLoc(y, c)) == Logged(s.stack[0], s'.h, StatusLoc(y, c))
      ensures !NewObjectLogged(s'.stack[0], s.h.addr[c])
    {
      assert c != id && s'.h.addr[c] == s.h.addr[c] != a;
      if recorded {
        assert FlagsNew(s.stack[0], s'.stack[0], o.shape, a);
        RecordNewElsewhere(s.stack[0], s'.stack[0], s'.h, o.shape, a, StatusLoc(y, c));
      }
    }
    hide Extends, AllocStep;
    assert forall c :: c in y.classes ==> CellAt(s'.h.objs, StatusLoc(y, c)) == CellAt(s.h.objs, StatusLoc(y, c)) by {
      NewElsewhere(s, s', y, id, a, o, recorded);
    }
    assert |s'.stack| == |s.stack| && forall i :: 0 < i < |s.stack| ==> s'.stack[i] == s.stack[i] by {
      NewElsewhere(s, s', y, id, a, o, recorded);
    }
    Undisturbed(s, s', y, w);
  }

  lemma NewElsewhere(s: Sys, s': Sys, y: Layout, id: Id, a: Addr, o: Obj, recorded: bool)
    requires AllocStep(s, s', id, a, o, recorded) && y.classes <= s.h.objs.Keys
    ensures forall c :: c in y.classes ==> CellAt(s'.h.objs, StatusLoc(y, c)) == CellAt(s.h.objs, StatusLoc(y, c))
    ensures |s'.stack| == |s.stack| && forall i :: 0 < i < |s.stack| ==> s'.stack[i] == s.stack[i]
  {
  }

  lemma CollectShown(s: Sys, s': Sys, y: Layout, w: World)
    requires Inv(s) && Shows(s, y, w) && CollectStep(s, s') && y.classes <= s'.h.objs.Keys
    ensures Shows(s', y, w)
  {
    hide LevelOk, Logged, HeapOk, Statuses, IsRoot, Visited, NoDownwardClash, HeaderWord, SameLog;
    forall i | 0 <= i < |s.stack|
      ensures SameLog(s'.stack[i], s'.h, y, w.stack[i].log)
      ensures forall c :: c in y.classes ==> c in s'.h.addr && !NewObjectLogged(s'.stack[i], s'.h.addr[c])
    {
      LogCollected(s, s', y, i, w.stack[i].log);
    }
    KeptStatuses(s.h, s'.h, y, w);
    assert forall c :: c in y.classes ==> s'.h.objs[c] == s.h.objs[c];
    SameHeaders(s.h.objs, s'.h.objs, y);
    forall c | c in y.classes ensures c in s'.h.addr {
      InHeap(s'.h, c);
    }
  }

  lemma SameHeaders(objs: map<Id, Obj>, objs': map<Id, Obj>, y: Layout)
    requires y.classes <= objs.Keys && y.classes <= objs'.Keys && forall c :: c in y.classes ==> objs'[c] == objs[c]
    ensures forall c :: c in y.classes ==> HeaderWord(objs', StatusLoc(y, c)) == HeaderWord(objs, StatusLoc(y, c))
  {
  }

  lemma KeptStatuses(h: Heap, h': Heap, y: Layout, w: World)
    requires Statuses(h, y, w) && y.classes <= h'.objs.Keys && y.classes <= h.objs.Keys
    requires forall c :: c in y.classes ==> h'.objs[c] == h.objs[c]
    ensures Statuses(h', y, w)
  {
    forall c | c in y.classes ensures CellAt(h'.objs, StatusLoc(y, c)) == Field(Holding(Init.StatusOf(w, c))) {
      assert CellAt(h.objs, StatusLoc(y, c)) == Field(Holding(Init.StatusOf(w, c)));
    }
  }

  lemma LogCollected(s: Sys, s': Sys, y: Layout, i: int, log: map<Init.Class, Init.Status>)
    requires Inv(s) && CollectStep(s, s') && y.classes <= s'.h.objs.Keys && 0 <= i < |s.stack|
    requires HasClasses(s, y) && SameLog(s.stack[i], s.h, y, log)
    ensures SameLog(s'.stack[i], s'.h, y, log)
    ensures forall c :: c in y.classes ==> c in s'.h.addr && !NewObjectLogged(s'.stack[i], s'.h.addr[c])
  {
    assert LevelOk(s, i) && CollectTx(s, s', i);
    assert RootsKept(s.stack[i], s.h, s'.h);
    hide Logged, IsRoot, Visited, NoDownwardClash, TxOk, HeaderWord, Level, InternLevel, SnapshotOk;
    forall c | c in y.classes
      ensures Logged(s'.stack[i], s'.h, StatusLoc(y, c)) == Restores(log, c)
      ensures c in s'.h.addr && !NewObjectLogged(s'.stack[i], s'.h.addr[c])
    {
      LoggedCollected(s.stack[i], s'.stack[i], s.h, s'.h, StatusLoc(y, c));
    }
  }

  // --- Entering and leaving -----------------------------------------------------------------------------

  lemma EnterShown(s: Sys, s': Sys, y: Layout, w: World, strict: bool, root: Id)
    requires Shows(s, y, w) && EnterStep(s, s', strict, root)
    ensures Shows(s', y, Init.Enter(w, root))
  {
    var w' := Init.Enter(w, root);
    assert forall i :: 0 < i < |s'.stack| ==> s'.stack[i] == s.stack[i - 1] && w'.stack[i] == w.stack[i - 1];
    hide HeaderWord, CellAt;
    forall i | 0 <= i < |s'.stack| ensures SameLog(s'.stack[i], s'.h, y, w'.stack[i].log) {
      assert i > 0 ==> SameLog(s.stack[i - 1], s.h, y, w.stack[i - 1].log);
    }
    forall c | c in y.classes ensures Init.StatusOf(w', c) == Init.StatusOf(w, c) {
    }
  }

  lemma PoppedLogs(s: Sys, s': Sys, y: Layout, w: World, w': World)
    requires Inv(s) && Shows(s, y, w) && s.stack != [] && s'.stack == s.stack[1..] && w'.stack == w.stack[1..]
    requires Extends(s.h, s'.h)
    ensures HasClasses(s', y) && SameLogs(s', y, w')
  {
    hide Inv, Extends, Logged, HeaderWord, Statuses;
    forall i | 0 <= i < |s'.stack| ensures SameLog(s'.stack[i], s'.h, y, w'.stack[i].log) {
      LogsExtend(s, s'.h, y, i + 1, w.stack[i + 1].log);
    }
    forall c | c in y.classes
      ensures c in s'.h.objs && c in s'.h.addr && !HeaderWord(s'.h.objs, StatusLoc(y, c))
        && !s'.h.objs[c].shape.PrimArray?
      ensures forall i :: 0 <= i < |s'.stack| ==> !NewObjectLogged(s'.stack[i], s'.h.addr[c])
    {
      ClassStays(s.h, s'.h, y, c);
      forall i | 0 <= i < |s'.stack| ensures !NewObjectLogged(s'.stack[i], s'.h.addr[c]) {
        assert s'.stack[i] == s.stack[i + 1];
      }
    }
    forall c | c in y.classes ensures c in s'.h.objs.Keys {
      ClassStays(s.h, s'.h, y, c);
    }
  }

  lemma ClassStays(h: Heap, h': Heap, y: Layout, c: Id)
    requires Extends(h, h') && c in h.objs
    ensures c in h'.objs && c in h'.addr && h'.addr[c] == h.addr[c] && h'.objs[c].shape == h.objs[c].shape
    ensures HeaderWord(h'.objs, StatusLoc(y, c)) == HeaderWord(h.objs, StatusLoc(y, c))
  {
    assert SameLayout(h.objs[c], h'.objs[c]);
  }

  lemma ExitShown(s: Sys, s': Sys, y: Layout, w: World)
    requires Inv(s) && Shows(s, y, w) && ExitStep(s, s')
    ensures Shows(s', y, Init.Exit(w))
  {
    assert Extends(s.h, s'.h);
    PoppedLogs(s, s', y, w, Init.Exit(w));
    assert forall c :: Init.StatusOf(Init.Exit(w), c) == Init.StatusOf(w, c);
  }

  lemma UndoneStatuses(h: Heap, tx: Tx, y: Layout, w: World, w': World, log: map<Init.Class, Init.Status>)
    requires Statuses(h, y, w) && SameLog(tx, h, y, log) && w'.status == w.status + log
    requires forall c :: c in y.classes ==> !HeaderWord(h.objs, StatusLoc(y, c))
    ensures Statuses(Undone(h, tx), y, w')
  {
    hide Logged, Undone, HeaderWord;
    forall c | c in y.classes
      ensures CellAt(Undone(h, tx).objs, StatusLoc(y, c)) == Field(Holding(Init.StatusOf(w', c)))
    {
      UndoneCell(h, tx, StatusLoc(y, c));
    }
  }

  lemma RollbackShown(s: Sys, s': Sys, y: Layout, w: World)
    requires Inv(s) && Shows(s, y, w) && RollbackStep(s, s')
    ensures w.stack != [] && Shows(s', y, Init.Rollback(w))
  {
    assert LevelOk(s, 0);
    hide LevelOk, TxOk, HeapOk, Extends, Logged, Undone, HeaderWord, Statuses, SameLog, UndoAll, Changes;
    hide Leak, Unrestorable;
    UndoneExtends(s.h, s.stack[0]);
    var w' := Init.Rollback(w);
    PoppedLogs(s, s', y, w, w');
    UndoneStatuses(s.h, s.stack[0], y, w, w', w.stack[0].log);
  }

  // --- Runs ---------------------------------------------------------------------------------------------

  /** Every step of the transactions does to the statuses what class initialization takes it to do. */
  lemma StepShown(s: Sys, step: Step, s': Sys, y: Layout, w: World, st: Init.Status)
    requires Inv(s) && Shows(s, y, w) && Next(s, step, s') && Respects(y, step, s', st)
    ensures Shows(s', y, Effect(y, w, step, st))
  {
    hide Inv, Shows, WriteFieldStep, WriteElemStep, AllocStep, InternStep, CollectStep, EnterStep, ExitStep;
    hide RollbackStep;
    hide Init.SetStatus, Init.Rollback, Init.Enter, Init.Exit;
    match step
    case WriteField(id, off, v, vol) => FieldWriteShown(s, s', y, w, id, off, v, vol, st);
    case WriteElem(id, i, e, undef) => ElemWriteShown(s, s', y, w, id, i, e, undef);
    case Alloc(id, a, o, recorded) => AllocShown(s, s', y, w, id, a, o, recorded);
    case Intern(id, strong, insert) => InternShown(s, s', y, w, id, strong, insert);
    case Collect => CollectShown(s, s', y, w);
    case Enter(strict, root) => EnterShown(s, s', y, w, strict, root);
    case Exit => ExitShown(s, s', y, w);
    case RollbackAndExit => RollbackShown(s, s', y, w);
  }

  /** The statuses after the first `n` steps. */
  ghost function After(y: Layout, w: World, steps: seq<Step>, sts: seq<Init.Status>, n: nat): World
    requires n <= |steps| == |sts|
  {
    if n == 0 then w else Effect(y, After(y, w, steps, sts, n - 1), steps[n - 1], sts[n - 1])
  }

  /** Hence all of a run can be followed on statuses alone. */
  lemma {:induction false} RunShown(states: seq<Sys>, steps: seq<Step>, y: Layout, w: World, sts: seq<Init.Status>,
      n: nat)
    requires TransactionTheorems.IsRun(states, steps) && Shows(states[0], y, w) && n <= |steps| == |sts|
    requires forall i :: 0 <= i < |steps| ==> Respects(y, steps[i], states[i + 1], sts[i])
    ensures Shows(states[n], y, After(y, w, steps, sts, n))
  {
    hide Inv, Next, Shows, Effect, Respects;
    if n > 0 {
      RunShown(states, steps, y, w, sts, n - 1);
      TransactionTheorems.RunsKeepInvariant(states, steps, n - 1);
      StepShown(states[n - 1], steps[n - 1], states[n], y, After(y, w, steps, sts, n - 1), sts[n - 1]);
    }
  }

  /** Rolling back all transactions is rolling back all statuses. */
  lemma {:induction false} RollbackAllShown(s: Sys, y: Layout, w: World)
    requires Inv(s) && Shows(s, y, w)
    ensures RollbackAll(s).Some? ==> Shows(RollbackAll(s).value, y, Init.RollbackAll(w))
    decreases |s.stack|
  {
    assert |w.stack| == |s.stack|;
    hide Shows, Undone, Changes, UndoAll, Leak, LevelOk, HeapOk, Unrestorable, Init.Rollback;
    if s.stack != [] {
      match Rollback(s)
      case None =>
      case Some(s1) =>
        RollbackKeeps(s, s1);
        RollbackShown(s, s1, y, w);
        RollbackAllShown(s1, y, Init.Rollback(w));
    }
  }
}
