/** `Transaction` as an object: its fields, the recording methods, the root visits and the
    rollback loops, each tied to the functions on `Tx`. */
module Transactions {
  import opened Options
  import opened FieldValues
  import opened ManagedHeap
  import opened TransactionLog
  import opened InternTables
  import opened TransactionRuns
  import RootUpdates
  import TransactionRollback
  import TransactionSafety
  import Sets

  /** The part of the runtime a transaction reads and restores. */
  class ManagedRuntime {
    var heap: Heap
    var tables: Tables
    var active: bool

    constructor (heap: Heap, tables: Tables)
      ensures this.heap == heap && this.tables == tables && !active
    {
      this.heap, this.tables, active := heap, tables, false;
    }
  }

  class Transaction {
    const strict: bool
    var root: Addr
    var lastAllocated: Addr
    var objectLogs: map<Addr, ObjectLog>
    var arrayLogs: map<Addr, ArrayLog>
    var internLogs: seq<InternLog>
    var aborted: bool
    var rollingBack: bool

    function View(): Tx
      reads this
    {
      Tx(strict, root, lastAllocated, objectLogs, arrayLogs, internLogs, aborted, rollingBack)
    }

    constructor (strict: bool, root: Addr)
      ensures View() == NewTx(strict, root)
    {
      this.strict, this.root, lastAllocated := strict, root, NULL;
      objectLogs, arrayLogs, internLogs := map[], map[], [];
      aborted, rollingBack := false, false;
    }

    method RecordNewObject(a: Addr)
      modifies this
      ensures View() == TransactionLog.RecordNewObject(old(View()), a)
    {
      lastAllocated := a;
      objectLogs := objectLogs[a := ObjectLog(true, map[])];
    }

    method RecordNewArray(a: Addr, isObjectArray: bool)
      modifies this
      ensures View() == TransactionLog.RecordNewArray(old(View()), a, isObjectArray)
    {
      if isObjectArray {
        RecordNewObject(a);
        return;
      }
      lastAllocated := a;
      arrayLogs := arrayLogs[a := ArrayLog(true, map[])];
    }

    /** The seven `RecordWriteField` methods differ in the kind they pass on only. */
    method RecordWriteField(a: Addr, off: int, fv: FieldValue)
      modifies this
      ensures View() == TransactionLog.RecordWriteField(old(View()), a, off, fv)
    {
      if a != lastAllocated {
        var log := if a in objectLogs then objectLogs[a] else ObjectLog(false, map[]);
        if !log.isNew && off !in log.values {
          log := log.(values := log.values[off := fv]);
        }
        objectLogs := objectLogs[a := log];
      }
    }

    method RecordWriteArray(a: Addr, index: int, value: int)
      modifies this
      ensures View() == TransactionLog.RecordWriteArray(old(View()), a, index, value)
    {
      if a != lastAllocated {
        var log := if a in arrayLogs then arrayLogs[a] else ArrayLog(false, map[]);
        if !log.isNew && index !in log.values {
          log := log.(values := log.values[index := value]);
        }
        arrayLogs := arrayLogs[a := log];
      }
    }

    method LogInternedString(log: InternLog)
      modifies this
      ensures View() == RecordIntern(old(View()), log)
    {
      internLogs := [log] + internLogs;
    }

    // --- Root visits --------------------------------------------------------------------------

    /** The first loop of `VisitObjectLogs`: the references inside each log. */
    method VisitLoggedReferences(fwd: map<Addr, Addr>) returns (logs: map<Addr, ObjectLog>)
      ensures logs == VisitReferences(fwd, objectLogs)
    {
      logs := map[];
      var rest := objectLogs.Keys;
      while rest != {}
        invariant rest <= objectLogs.Keys
        invariant logs.Keys == objectLogs.Keys - rest
        invariant forall a :: a in logs ==> logs[a] == VisitObjectLog(fwd, objectLogs[a])
        decreases rest
      {
        Sets.NonEmpty(rest);
        var a :| a in rest;
        logs := logs[a := VisitObjectLog(fwd, objectLogs[a])];
        rest := rest - {a};
      }
      VisitedPointwise(fwd, objectLogs, logs);
    }

    method VisitInternStringLogs(fwd: map<Addr, Addr>)
      modifies this`internLogs
      ensures |internLogs| == |old(internLogs)|
      ensures forall i :: 0 <= i < |internLogs| ==> internLogs[i] == VisitIntern(fwd, old(internLogs)[i])
    {
      for i := 0 to |internLogs|
        invariant |internLogs| == |old(internLogs)|
        invariant forall j :: 0 <= j < i ==> internLogs[j] == VisitIntern(fwd, old(internLogs)[j])
        invariant forall j :: i <= j < |internLogs| ==> internLogs[j] == old(internLogs)[j]
      {
        internLogs := internLogs[i := VisitIntern(fwd, internLogs[i])];
      }
    }

    /** `VisitRoots`: completes if and only if neither log has a clash of moved keys. */
    method VisitRoots(fwd: map<Addr, Addr>) returns (ok: bool)
      requires InjectiveOn(fwd, objectLogs.Keys) && InjectiveOn(fwd, arrayLogs.Keys)
      modifies this
      ensures ok <==> NoDownwardClash(fwd, old(objectLogs).Keys) && NoDownwardClash(fwd, old(arrayLogs).Keys)
      ensures ok ==> Visited(fwd, old(View()), View())
    {
      root := Visit(fwd, root);
      lastAllocated := Visit(fwd, lastAllocated);
      var visited := VisitLoggedReferences(fwd);
      assert visited.Keys == objectLogs.Keys;
      var moving := RootUpdates.CollectMovingRoots(fwd, visited.Keys);
      var objectLogs' : map<Addr, ObjectLog>, arrayLogs' : map<Addr, ArrayLog>;
      ok, objectLogs' := RootUpdates.UpdateKeys(fwd, moving, visited);
      if !ok {
        return;
      }
      objectLogs := objectLogs';
      moving := RootUpdates.CollectMovingRoots(fwd, arrayLogs.Keys);
      ok, arrayLogs' := RootUpdates.UpdateKeys(fwd, moving, arrayLogs);
      if !ok {
        return;
      }
      arrayLogs := arrayLogs';
      VisitInternStringLogs(fwd);
    }

    // --- Rollback -----------------------------------------------------------------------------

    /** `ObjectLog::Undo`. */
    static method UndoObjectLog(rt: ManagedRuntime, a: Addr, log: ObjectLog)
      requires HeapOk(rt.heap) && ObjectLogOk(rt.heap, a, log)
      modifies rt`heap
      ensures FieldsUndone(old(rt.heap), rt.heap, a, log.values)
    {
      ghost var h0 := rt.heap;
      var obj :| obj in rt.heap.addr && rt.heap.addr[obj] == a;
      IdAtAddrOf(h0, obj);
      ghost var done: map<int, FieldValue> := map[];
      var rest := log.values.Keys;
      while rest != {}
        invariant rest <= log.values.Keys && SameFrame(h0, rt.heap)
        invariant done == map off | off in log.values && off !in rest :: log.values[off]
        invariant forall l :: CellAt(rt.heap.objs, l) == UndoneField(h0, a, done, l)
        decreases rest
      {
        Sets.NonEmpty(rest);
        var off :| off in rest;
        var fv := log.values[off];
        assert FieldValueOk(h0, obj, off, fv);
        rest := rest - {off};
        UndoFieldStep(h0, rt.heap, a, obj, done, off, fv);
        done := done[off := fv];
        assert done == map o | o in log.values && o !in rest :: log.values[o];
        if off == CLASS_OFFSET || (rt.heap.objs[obj].shape.IsArray() && off == LENGTH_OFFSET) {
          continue;
        }
        var v := UndoFieldWrite(rt.heap.addr, fv);
        rt.heap := SetField(rt.heap, obj, off, v);
      }
      assert done == log.values;
    }

    /** The value `ObjectLog::UndoFieldWrite` stores: the object at a logged address, or the
        logged number narrowed to the kind of the field. */
    static method UndoFieldWrite(addr: map<Id, Addr>, fv: FieldValue) returns (v: Value)
      requires forall i, j :: i in addr && j in addr && addr[i] == addr[j] ==> i == j
      requires fv.kind.KReference? ==> fv.value == NULL || (fv.value > 0 && IsAddress(addr, fv.value))
      ensures v == Decode(addr, fv)
    {
      if fv.kind.KReference? {
        if fv.value == NULL {
          v := Reference(NULL);
        } else {
          var obj :| obj in addr && addr[obj] == fv.value;
          v := Reference(obj);
        }
      } else {
        v := Scalar(fv.kind, Narrow(fv.kind, fv.value));
      }
    }

    /** `ArrayLog::Undo`. */
    static method UndoArrayLog(rt: ManagedRuntime, a: Addr, log: ArrayLog)
      requires HeapOk(rt.heap) && ArrayLogOk(rt.heap, a, log)
      modifies rt`heap
      ensures ElemsUndone(old(rt.heap), rt.heap, a, log.values)
    {
      ghost var h0 := rt.heap;
      var arr :| arr in rt.heap.addr && rt.heap.addr[arr] == a;
      IdAtAddrOf(h0, arr);
      var ty := rt.heap.objs[arr].shape.ty;
      ghost var done: map<int, int> := map[];
      var rest := log.values.Keys;
      while rest != {}
        invariant rest <= log.values.Keys && SameFrame(h0, rt.heap)
        invariant done == map i | i in log.values && i !in rest :: log.values[i]
        invariant forall l :: CellAt(rt.heap.objs, l) == UndoneElem(h0, a, done, l)
        decreases rest
      {
        Sets.NonEmpty(rest);
        var i :| i in rest;
        rest := rest - {i};
        UndoElemStep(h0, rt.heap, a, arr, done, i, log.values[i]);
        done := done[i := log.values[i]];
        assert done == map j | j in log.values && j !in rest :: log.values[j];
        rt.heap := SetElem(rt.heap, arr, i, NarrowElem(ty, log.values[i]));
      }
      assert done == log.values;
    }

    method UndoObjectModifications(rt: ManagedRuntime)
      requires HeapOk(rt.heap) && TxOk(View(), rt.heap)
      modifies this`objectLogs, rt`heap
      ensures HeapOk(rt.heap) && PartlyUndone(old(rt.heap), rt.heap, old(View()), old(objectLogs).Keys, {})
      ensures objectLogs == map[]
    {
      hide HeapOk, TxOk, ObjectLogOk, PartlyUndone, FieldsUndone;
      ghost var h0, tx := rt.heap, View();
      NoneUndone(h0, tx);
      var rest := objectLogs.Keys;
      ghost var done := {};
      while rest != {}
        invariant rest <= objectLogs.Keys && done == objectLogs.Keys - rest
        invariant View() == tx && HeapOk(rt.heap) && PartlyUndone(h0, rt.heap, tx, done, {})
        decreases rest
      {
        Sets.NonEmpty(rest);
        var a :| a in rest;
        UndoObjectStep(h0, rt.heap, tx, done, {}, a);
        ghost var h := rt.heap;
        UndoObjectLog(rt, a, objectLogs[a]);
        ObjectUndone(h0, h, rt.heap, tx, done, {}, a);
        done := done + {a};
        UndoneHeapOk(h0, rt.heap, tx, done, {});
        rest := rest - {a};
      }
      assert done == objectLogs.Keys;
      objectLogs := map[];
    }

    method UndoArrayModifications(rt: ManagedRuntime, ghost h0: Heap, ghost tx: Tx)
      requires HeapOk(h0) && TxOk(tx, h0) && tx.arrayLogs == arrayLogs
      requires HeapOk(rt.heap) && PartlyUndone(h0, rt.heap, tx, tx.objectLogs.Keys, {})
      modifies this`arrayLogs, rt`heap
      ensures HeapOk(rt.heap) && PartlyUndone(h0, rt.heap, tx, tx.objectLogs.Keys, tx.arrayLogs.Keys)
      ensures arrayLogs == map[]
    {
      hide HeapOk, TxOk, ArrayLogOk, PartlyUndone, ElemsUndone;
      var rest := arrayLogs.Keys;
      ghost var done := {};
      while rest != {}
        invariant arrayLogs == tx.arrayLogs && rest <= arrayLogs.Keys && done == arrayLogs.Keys - rest
        invariant HeapOk(rt.heap) && PartlyUndone(h0, rt.heap, tx, tx.objectLogs.Keys, done)
        decreases rest
      {
        Sets.NonEmpty(rest);
        var a :| a in rest;
        UndoArrayStep(h0, rt.heap, tx, tx.objectLogs.Keys, done, a);
        ghost var h := rt.heap;
        UndoArrayLog(rt, a, arrayLogs[a]);
        ArrayUndone(h0, h, rt.heap, tx, tx.objectLogs.Keys, done, a);
        done := done + {a};
        UndoneHeapOk(h0, rt.heap, tx, tx.objectLogs.Keys, done);
        rest := rest - {a};
      }
      assert done == arrayLogs.Keys;
      arrayLogs := map[];
    }

    /** `UndoInternStringTableModifications`, from the front of the list; `ok` is false if a
        string to be removed is not in its table, which is fatal. */
    method UndoInternStringTableModifications(rt: ManagedRuntime) returns (ok: bool)
      requires HeapOk(rt.heap)
      requires forall i :: 0 <= i < |internLogs| ==>
        internLogs[i].str != NULL && IsAddress(rt.heap.addr, internLogs[i].str)
      modifies this`internLogs, rt`tables
      ensures ok <==> UndoAll(old(rt.tables), Changes(rt.heap.addr, old(internLogs))).Some?
      ensures ok ==> UndoAll(old(rt.tables), Changes(rt.heap.addr, old(internLogs))) == Some(rt.tables)
      ensures ok ==> internLogs == []
    {
      ghost var changes := Changes(rt.heap.addr, internLogs);
      for i := 0 to |internLogs|
        invariant internLogs == old(internLogs)
        invariant UndoAll(old(rt.tables), changes) == UndoAll(rt.tables, changes[i..])
      {
        var s :| s in rt.heap.addr && rt.heap.addr[s] == internLogs[i].str;
        IdAtAddrOf(rt.heap, s);
        var log := internLogs[i];
        assert changes[i] == Change(s, log.strong, log.insert) && changes[i..][1..] == changes[i + 1..];
        if log.insert {
          if if log.strong then s !in rt.tables.strong else s !in rt.tables.weak {
            return false;
          }
          rt.tables := Remove(rt.tables, s, log.strong);
        } else {
          rt.tables := Insert(rt.tables, s, log.strong);
        }
      }
      internLogs := [];
      ok := true;
    }

    /** `Rollback`: afterwards the heap and the intern tables are as the records say, the logs
        are empty, and the transaction is no longer rolling back. */
    method Rollback(rt: ManagedRuntime) returns (ok: bool)
      requires HeapOk(rt.heap) && TxOk(View(), rt.heap) && !rt.active
      modifies this, rt
      ensures !rt.active && rt.heap == Undone(old(rt.heap), old(View()))
      ensures ok <==> UndoAll(old(rt.tables), Changes(old(rt.heap).addr, old(internLogs))).Some?
      ensures ok ==> UndoAll(old(rt.tables), Changes(old(rt.heap).addr, old(internLogs))) == Some(rt.tables)
      ensures ok ==>
        View() == old(View()).(objectLogs := map[], arrayLogs := map[], interns := [], rollingBack := false)
    {
      hide HeapOk, TxOk, Undone, PartlyUndone, UndoAll, Changes;
      ghost var h0 := rt.heap;
      WhileRollingBack(View(), h0);
      rollingBack := true;
      ghost var tx := View();
      UndoObjectModifications(rt);
      UndoArrayModifications(rt, h0, tx);
      UndoneEverywhere(h0, rt.heap, tx);
      ok := UndoInternStringTableModifications(rt);
      if ok {
        rollingBack := false;
      }
    }
  }

  lemma VisitedPointwise(fwd: map<Addr, Addr>, m: map<Addr, ObjectLog>, m': map<Addr, ObjectLog>)
    requires m'.Keys == m.Keys && forall a :: a in m' ==> m'[a] == VisitObjectLog(fwd, m[a])
    ensures m' == VisitReferences(fwd, m)
  {
    assert forall a :: a in m' ==> m'[a] == VisitReferences(fwd, m)[a];
  }

  ghost predicate SameFrame(h: Heap, h': Heap) {
    h'.addr == h.addr && h'.objs.Keys == h.objs.Keys && SameLayouts(h.objs, h'.objs)
  }

  /** What is at `l` once the given field records of the object at `a` are undone. */
  ghost function UndoneField(h: Heap, a: Addr, values: map<int, FieldValue>, l: Loc): Cell {
    if l.FieldAt? && l.id == IdAt(h.addr, a) && l.off in values && !HeaderWord(h.objs, l) && CellAt(h.objs, l) != Absent
    then Field(Decode(h.addr, values[l.off])) else CellAt(h.objs, l)
  }

  ghost function UndoneElem(h: Heap, a: Addr, values: map<int, int>, l: Loc): Cell {
    if l.ElemAt? && l.id == IdAt(h.addr, a) && l.id in h.objs && h.objs[l.id].shape.PrimArray? && l.index in values
       && CellAt(h.objs, l) != Absent
    then Element(NarrowElem(h.objs[l.id].shape.ty, values[l.index])) else CellAt(h.objs, l)
  }

  lemma UndoFieldStep(h0: Heap, h: Heap, a: Addr, obj: Id, done: map<int, FieldValue>, off: int, fv: FieldValue)
    requires SameFrame(h0, h) && obj in h0.objs && IdAt(h0.addr, a) == obj && off in h0.objs[obj].fields
    requires forall l :: CellAt(h.objs, l) == UndoneField(h0, a, done, l)
    ensures var h' := if HeaderWord(h0.objs, FieldAt(obj, off)) then h
                      else SetField(h, obj, off, Decode(h0.addr, fv));
            SameFrame(h0, h') && forall l :: CellAt(h'.objs, l) == UndoneField(h0, a, done[off := fv], l)
  {
    var header := HeaderWord(h0.objs, FieldAt(obj, off));
    var h' := if header then h else SetField(h, obj, off, Decode(h0.addr, fv));
    assert SameLayout(h0.objs[obj], h.objs[obj]);
    assert h'.objs[obj].fields.Keys == h.objs[obj].fields.Keys;
    forall l ensures CellAt(h'.objs, l) == UndoneField(h0, a, done[off := fv], l) {
      assert CellAt(h.objs, l) == UndoneField(h0, a, done, l);
    }
  }

  lemma UndoElemStep(h0: Heap, h: Heap, a: Addr, arr: Id, done: map<int, int>, i: int, u: int)
    requires SameFrame(h0, h) && arr in h0.objs && IdAt(h0.addr, a) == arr
    requires h0.objs[arr].shape.PrimArray? && i in h0.objs[arr].elems
    requires forall l :: CellAt(h.objs, l) == UndoneElem(h0, a, done, l)
    ensures var h' := SetElem(h, arr, i, NarrowElem(h0.objs[arr].shape.ty, u));
            SameFrame(h0, h') && forall l :: CellAt(h'.objs, l) == UndoneElem(h0, a, done[i := u], l)
  {
    var h' := SetElem(h, arr, i, NarrowElem(h0.objs[arr].shape.ty, u));
    assert SameLayout(h0.objs[arr], h.objs[arr]);
    assert h'.objs[arr].elems.Keys == h.objs[arr].elems.Keys;
    forall l ensures CellAt(h'.objs, l) == UndoneElem(h0, a, done[i := u], l) {
      assert CellAt(h.objs, l) == UndoneElem(h0, a, done, l);
    }
  }

  /** What is at `l` once the records of the given objects and arrays are undone. */
  ghost function UndoneUpTo(h: Heap, tx: Tx, objects: set<Addr>, arrays: set<Addr>, l: Loc): Cell {
    if CellAt(h.objs, l) == Absent || Logged(tx, h, l) == Absent || HeaderWord(h.objs, l) || l.id !in h.addr
    then CellAt(h.objs, l)
    else if h.addr[l.id] in (if l.FieldAt? then objects else arrays) then Logged(tx, h, l)
    else CellAt(h.objs, l)
  }

  /** The records of the given objects and arrays are undone, and no others. */
  ghost predicate PartlyUndone(h0: Heap, h: Heap, tx: Tx, objects: set<Addr>, arrays: set<Addr>) {
    SameFrame(h0, h) && forall l :: CellAt(h.objs, l) == UndoneUpTo(h0, tx, objects, arrays, l)
  }

  /** The given field records of the object at `a` are undone. */
  ghost predicate FieldsUndone(h: Heap, h': Heap, a: Addr, values: map<int, FieldValue>) {
    SameFrame(h, h') && forall l :: CellAt(h'.objs, l) == UndoneField(h, a, values, l)
  }

  ghost predicate ElemsUndone(h: Heap, h': Heap, a: Addr, values: map<int, int>) {
    SameFrame(h, h') && forall l :: CellAt(h'.objs, l) == UndoneElem(h, a, values, l)
  }

  lemma SameFrames(h0: Heap, h: Heap, h': Heap)
    requires SameFrame(h0, h) && SameFrame(h, h')
    ensures SameFrame(h0, h')
  {
    forall id | id in h0.objs && id in h'.objs ensures SameLayout(h0.objs[id], h'.objs[id]) {
      assert SameLayout(h0.objs[id], h.objs[id]) && SameLayout(h.objs[id], h'.objs[id]);
    }
  }

  lemma ObjectUndone(h0: Heap, h: Heap, h': Heap, tx: Tx, objects: set<Addr>, arrays: set<Addr>, a: Addr)
    requires HeapOk(h0) && HeapOk(h) && TxOk(tx, h0) && PartlyUndone(h0, h, tx, objects, arrays)
    requires a in tx.objectLogs && a !in objects && FieldsUndone(h, h', a, tx.objectLogs[a].values)
    ensures PartlyUndone(h0, h', tx, objects + {a}, arrays)
  {
    hide HeapOk, TxOk, UndoneUpTo, UndoneField, CellAt, SameLayouts;
    UndoObjectStep(h0, h, tx, objects, arrays, a);
    SameFrames(h0, h, h');
  }

  lemma ArrayUndone(h0: Heap, h: Heap, h': Heap, tx: Tx, objects: set<Addr>, arrays: set<Addr>, a: Addr)
    requires HeapOk(h0) && HeapOk(h) && TxOk(tx, h0) && PartlyUndone(h0, h, tx, objects, arrays)
    requires a in tx.arrayLogs && a !in arrays && ElemsUndone(h, h', a, tx.arrayLogs[a].values)
    ensures PartlyUndone(h0, h', tx, objects, arrays + {a})
  {
    hide HeapOk, TxOk, UndoneUpTo, UndoneElem, CellAt, SameLayouts;
    UndoArrayStep(h0, h, tx, objects, arrays, a);
    SameFrames(h0, h, h');
  }

  lemma NoneUndone(h: Heap, tx: Tx)
    ensures PartlyUndone(h, h, tx, {}, {})
  {
  }

  lemma UndoObjectStep(h0: Heap, h: Heap, tx: Tx, objects: set<Addr>, arrays: set<Addr>, a: Addr)
    requires HeapOk(h0) && HeapOk(h) && TxOk(tx, h0) && PartlyUndone(h0, h, tx, objects, arrays)
    requires a in tx.objectLogs && a !in objects
    ensures ObjectLogOk(h, a, tx.objectLogs[a])
    ensures forall l :: UndoneField(h, a, tx.objectLogs[a].values, l) == UndoneUpTo(h0, tx, objects + {a}, arrays, l)
  {
    var log := tx.objectLogs[a];
    assert ObjectLogOk(h0, a, log);
    AddrOfIdAt(h0, a);
    forall off | off in log.values ensures FieldValueOk(h, IdAt(h.addr, a), off, log.values[off]) {
      assert FieldValueOk(h0, IdAt(h0.addr, a), off, log.values[off]);
    }
    forall l ensures UndoneField(h, a, log.values, l) == UndoneUpTo(h0, tx, objects + {a}, arrays, l) {
      assert CellAt(h.objs, l) == UndoneUpTo(h0, tx, objects, arrays, l);
      if l.id in h0.objs {
        assert SameLayout(h0.objs[l.id], h.objs[l.id]);
      }
    }
  }

  lemma UndoArrayStep(h0: Heap, h: Heap, tx: Tx, objects: set<Addr>, arrays: set<Addr>, a: Addr)
    requires HeapOk(h0) && HeapOk(h) && TxOk(tx, h0) && PartlyUndone(h0, h, tx, objects, arrays)
    requires a in tx.arrayLogs && a !in arrays
    ensures ArrayLogOk(h, a, tx.arrayLogs[a])
    ensures forall l :: UndoneElem(h, a, tx.arrayLogs[a].values, l) == UndoneUpTo(h0, tx, objects, arrays + {a}, l)
  {
    var log := tx.arrayLogs[a];
    assert ArrayLogOk(h0, a, log);
    AddrOfIdAt(h0, a);
    assert SameLayout(h0.objs[IdAt(h0.addr, a)], h.objs[IdAt(h0.addr, a)]);
    forall l ensures UndoneElem(h, a, log.values, l) == UndoneUpTo(h0, tx, objects, arrays + {a}, l) {
      assert CellAt(h.objs, l) == UndoneUpTo(h0, tx, objects, arrays, l);
      if l.id in h0.objs {
        assert SameLayout(h0.objs[l.id], h.objs[l.id]);
      }
    }
  }

  lemma LoggedInRange(tx: Tx, h: Heap, l: Loc)
    requires HeapOk(h) && TxOk(tx, h) && l.id in h.objs
    ensures match Logged(tx, h, l)
            case Absent => true
            case Field(v) => l.FieldAt? && ValueOk(v, h.objs.Keys)
            case Element(e) => l.ElemAt? && h.objs[l.id].shape.PrimArray? && ElemInRange(h.objs[l.id].shape.ty, e)
  {
    var a := h.addr[l.id];
    IdAtAddrOf(h, l.id);
    if l.FieldAt? && a in tx.objectLogs && l.off in tx.objectLogs[a].values {
      assert ObjectLogOk(h, a, tx.objectLogs[a]);
      TransactionRollback.DecodeOk(h, l.id, l.off, tx.objectLogs[a].values[l.off]);
    }
  }

  lemma UndoneHeapOk(h0: Heap, h: Heap, tx: Tx, objects: set<Addr>, arrays: set<Addr>)
    requires HeapOk(h0) && TxOk(tx, h0) && PartlyUndone(h0, h, tx, objects, arrays)
    ensures HeapOk(h)
  {
    forall id | id in h.objs ensures ObjOk(h.objs[id], h.objs.Keys) {
      var o := h.objs[id];
      assert ObjOk(h0.objs[id], h0.objs.Keys) && SameLayout(h0.objs[id], o);
      forall off | off in o.fields ensures ValueOk(o.fields[off], h.objs.Keys) {
        var l := FieldAt(id, off);
        assert CellAt(h.objs, l) == UndoneUpTo(h0, tx, objects, arrays, l);
        LoggedInRange(tx, h0, l);
      }
      if o.shape.PrimArray? {
        forall i | i in o.elems ensures ElemInRange(o.shape.ty, o.elems[i]) {
          var l := ElemAt(id, i);
          assert CellAt(h.objs, l) == UndoneUpTo(h0, tx, objects, arrays, l);
          LoggedInRange(tx, h0, l);
        }
      }
    }
  }

  /** The flag changes nothing about the records. */
  lemma WhileRollingBack(tx: Tx, h: Heap)
    requires TxOk(tx, h)
    ensures var tx' := tx.(rollingBack := true);
      TxOk(tx', h) && Undone(h, tx') == Undone(h, tx) && Undone(h, tx).addr == h.addr
    ensures forall i :: 0 <= i < |tx.interns| ==> tx.interns[i].str != NULL && IsAddress(h.addr, tx.interns[i].str)
  {
    var tx' := tx.(rollingBack := true);
    assert forall l :: Logged(tx', h, l) == Logged(tx, h, l);
    hide Logged, TxOk;
    assert Undone(h, tx').objs == Undone(h, tx).objs by {
      forall id | id in h.objs ensures UndoneObj(h, tx', id) == UndoneObj(h, tx, id) {
        assert UndoneObj(h, tx', id).fields == UndoneObj(h, tx, id).fields;
        assert UndoneObj(h, tx', id).elems == UndoneObj(h, tx, id).elems;
      }
    }
  }

  /** Objects of the same layout with the same cells are the same. */
  lemma SameCellsSameObject(objs: map<Id, Obj>, objs': map<Id, Obj>, id: Id)
    requires id in objs && id in objs' && SameLayout(objs[id], objs'[id])
    requires forall off :: CellAt(objs, FieldAt(id, off)) == CellAt(objs', FieldAt(id, off))
    requires forall i :: CellAt(objs, ElemAt(id, i)) == CellAt(objs', ElemAt(id, i))
    ensures objs[id] == objs'[id]
  {
    var o, o' := objs[id], objs'[id];
    forall off | off in o.fields ensures o.fields[off] == o'.fields[off] {
      assert CellAt(objs, FieldAt(id, off)) == CellAt(objs', FieldAt(id, off));
    }
    forall i | i in o.elems ensures o.elems[i] == o'.elems[i] {
      assert CellAt(objs, ElemAt(id, i)) == CellAt(objs', ElemAt(id, i));
    }
    assert o.fields == o'.fields && o.elems == o'.elems;
  }

  lemma UndoneAt(h0: Heap, h: Heap, tx: Tx, l: Loc)
    requires HeapOk(h0) && TxOk(tx, h0) && PartlyUndone(h0, h, tx, tx.objectLogs.Keys, tx.arrayLogs.Keys)
    requires TransactionSafety.Extends(h0, Undone(h0, tx)) && Undone(h0, tx).objs.Keys == h0.objs.Keys
    ensures CellAt(h.objs, l) == CellAt(Undone(h0, tx).objs, l)
  {
    hide HeapOk, TxOk, Undone;
    assert CellAt(h.objs, l) == UndoneUpTo(h0, tx, tx.objectLogs.Keys, tx.arrayLogs.Keys, l);
    if CellAt(h0.objs, l) != Absent {
      UndoneCell(h0, tx, l);
    } else if l.id in h0.objs {
      assert SameLayout(h0.objs[l.id], Undone(h0, tx).objs[l.id]);
    }
  }

  lemma UndoneEverywhere(h0: Heap, h: Heap, tx: Tx)
    requires HeapOk(h0) && TxOk(tx, h0) && PartlyUndone(h0, h, tx, tx.objectLogs.Keys, tx.arrayLogs.Keys)
    ensures h == Undone(h0, tx)
  {
    hide HeapOk, TxOk, UndoneObj, CellAt, UndoneUpTo, SameLayout;
    var h' := Undone(h0, tx);
    TransactionRollback.UndoneExtends(h0, tx);
    forall l ensures CellAt(h.objs, l) == CellAt(h'.objs, l) {
      UndoneAt(h0, h, tx, l);
    }
    forall id | id in h.objs ensures h.objs[id] == h'.objs[id] {
      assert SameLayout(h0.objs[id], h.objs[id]) && SameLayout(h0.objs[id], h'.objs[id]);
      SameLayoutBoth(h0.objs[id], h.objs[id], h'.objs[id]);
      SameCellsSameObject(h.objs, h'.objs, id);
    }
    assert h.objs == h'.objs;
  }

  lemma SameLayoutBoth(o: Obj, a: Obj, b: Obj)
    requires SameLayout(o, a) && SameLayout(o, b)
    ensures SameLayout(a, b)
  {
  }
}
