/** Every step of a run keeps the invariant, and what that means for rollbacks. */
module TransactionSafety {
  import opened FieldValues
  import opened ManagedHeap
  import opened TransactionLog
  import opened InternTables
  import opened TransactionRuns

  // --- Steps that leave every address where it is ------------------------------------------------

  /** `h'` keeps every object of `h` in place, with its layout; contents may differ. */
  ghost predicate Extends(h: Heap, h': Heap) {
    && HeapOk(h) && HeapOk(h')
    && h.objs.Keys <= h'.objs.Keys
    && forall id :: id in h.objs ==>
         id in h'.objs && h'.addr[id] == h.addr[id] && SameLayout(h.objs[id], h'.objs[id])
  }

  lemma IdAtExtends(h: Heap, h': Heap, a: Addr)
    requires Extends(h, h')
    requires a == NULL || IsAddress(h.addr, a)
    ensures IdAt(h'.addr, a) == IdAt(h.addr, a)
    ensures a != NULL ==> IsAddress(h'.addr, a) && IdAt(h.addr, a) in h.objs
  {
    if a != NULL {
      AddrOfIdAt(h, a);
      assert h'.addr[IdAt(h.addr, a)] == a;
      IdAtAddrOf(h', IdAt(h.addr, a));
    }
  }

  lemma ObjectLogExtends(h: Heap, h': Heap, a: Addr, log: ObjectLog)
    requires Extends(h, h') && ObjectLogOk(h, a, log)
    ensures ObjectLogOk(h', a, log)
  {
    IdAtExtends(h, h', a);
    forall off | off in log.values
      ensures FieldValueOk(h', IdAt(h'.addr, a), off, log.values[off])
    {
      assert FieldValueOk(h, IdAt(h.addr, a), off, log.values[off]);
      if log.values[off].kind.KReference? {
        IdAtExtends(h, h', log.values[off].value);
      }
    }
  }

  lemma TxOkExtends(tx: Tx, h: Heap, h': Heap)
    requires Extends(h, h') && TxOk(tx, h)
    ensures TxOk(tx, h')
  {
    IdAtExtends(h, h', tx.root);
    IdAtExtends(h, h', tx.last);
    forall a | a in tx.objectLogs ensures ObjectLogOk(h', a, tx.objectLogs[a]) {
      ObjectLogExtends(h, h', a, tx.objectLogs[a]);
    }
    forall a | a in tx.arrayLogs ensures ArrayLogOk(h', a, tx.arrayLogs[a]) {
      assert ArrayLogOk(h, a, tx.arrayLogs[a]);
      IdAtExtends(h, h', a);
    }
    forall i | 0 <= i < |tx.interns|
      ensures tx.interns[i].str != NULL && IsAddress(h'.addr, tx.interns[i].str)
    {
      IdAtExtends(h, h', tx.interns[i].str);
    }
  }

  lemma LoggedExtends(tx: Tx, h: Heap, h': Heap, l: Loc)
    requires Extends(h, h') && TxOk(tx, h) && l.id in h.objs
    ensures Logged(tx, h', l) == Logged(tx, h, l)
  {
    var a := h.addr[l.id];
    IdAtAddrOf(h, l.id);
    if l.FieldAt? && a in tx.objectLogs && l.off in tx.objectLogs[a].values {
      assert ObjectLogOk(h, a, tx.objectLogs[a]);
      var fv := tx.objectLogs[a].values[l.off];
      assert FieldValueOk(h, IdAt(h.addr, a), l.off, fv);
      if fv.kind.KReference? {
        IdAtExtends(h, h', fv.value);
      }
    }
  }

  lemma ChangesExtends(tx: Tx, h: Heap, h': Heap)
    requires Extends(h, h') && TxOk(tx, h)
    ensures Changes(h'.addr, tx.interns) == Changes(h.addr, tx.interns)
    ensures Mentions(Changes(h.addr, tx.interns), h.objs.Keys)
  {
    forall i | 0 <= i < |tx.interns|
      ensures IdAt(h'.addr, tx.interns[i].str) == IdAt(h.addr, tx.interns[i].str)
      ensures IdAt(h.addr, tx.interns[i].str) in h.objs
    {
      IdAtExtends(h, h', tx.interns[i].str);
    }
  }

  /** A level whose own records did not change, over a heap that kept everything in place.
      The contents `next` may only differ from before at leaked locations. */
  lemma LevelExtends(tx: Tx, h: Heap, h': Heap, snap: Snapshot, snap': Snapshot, next: map<Id, Obj>,
      next': map<Id, Obj>, used: set<Id>)
    requires Extends(h, h') && TxOk(tx, h)
    requires Level(tx, h, snap, next)
    requires snap'.objs == snap.objs && snap'.written == snap.written && snap.leaked <= snap'.leaked
    requires snap.objs.Keys <= used && h'.objs.Keys * used <= h.objs.Keys
    requires forall l: Loc ::
      l.id in h.objs && CellAt(snap.objs, l) != Absent && l !in snap'.leaked && l !in snap.written ==>
        CellAt(next', l) == CellAt(next, l)
    ensures Level(tx, h', snap', next')
  {
    forall l ensures LevelAt(tx, h', snap', next', l) {
      assert LevelAt(tx, h, snap, next, l);
      if l.id in h'.objs && CellAt(snap.objs, l) != Absent {
        assert l.id in used;
        LoggedExtends(tx, h, h', l);
      }
    }
  }

  lemma SameSweep(weak: set<Id>, keys: set<Id>, keys': set<Id>, used: set<Id>)
    requires weak <= used && keys <= keys' && keys' * used <= keys
    ensures weak * keys' == weak * keys
  {
    forall x | x in weak * keys' ensures x in keys {
      assert x in keys' * used;
    }
  }

  lemma InternLevelExtends(tx: Tx, h: Heap, h': Heap, snap: Snapshot, next: Tables, used: set<Id>)
    requires Extends(h, h') && TxOk(tx, h)
    requires InternLevel(tx, h, snap, next)
    requires next.weak <= used && snap.tables.weak <= used
    requires h'.objs.Keys * used <= h.objs.Keys
    ensures InternLevel(tx, h', snap, next)
  {
    ChangesExtends(tx, h, h');
    SameSweep(next.weak, h.objs.Keys, h'.objs.Keys, used);
    SameSweep(snap.tables.weak, h.objs.Keys, h'.objs.Keys, used);
  }

  /** A level below the innermost one, across a step that only concerns the innermost one. */
  lemma OuterLevel(s: Sys, s': Sys, k: nat)
    requires Inv(s) && 0 < k < |s.stack| == |s'.stack| == |s'.snaps|
    requires Extends(s.h, s'.h) && s'.h.objs.Keys * s.used <= s.h.objs.Keys
    requires s.used <= s'.used
    requires s'.stack[k] == s.stack[k] && s'.snaps[k] == s.snaps[k]
    requires s'.snaps[k - 1].objs == s.snaps[k - 1].objs && s'.snaps[k - 1].tables == s.snaps[k - 1].tables
    ensures LevelOk(s', k)
  {
    assert LevelOk(s, k) && LevelOk(s, k - 1);
    TxOkExtends(s.stack[k], s.h, s'.h);
    var next := s.snaps[k - 1].objs;
    LevelExtends(s.stack[k], s.h, s'.h, s.snaps[k], s.snaps[k], next, next, s.used);
    InternLevelExtends(s.stack[k], s.h, s'.h, s.snaps[k], s.snaps[k - 1].tables, s.used);
  }

  // --- Writes -----------------------------------------------------------------------------------

  lemma SetFieldExtends(h: Heap, id: Id, off: int, v: Value)
    requires HeapOk(h) && id in h.objs && off in h.objs[id].fields && ValueOk(v, h.objs.Keys)
    ensures Extends(h, SetField(h, id, off, v))
    ensures SetField(h, id, off, v).objs.Keys == h.objs.Keys
  {
    var h' := SetField(h, id, off, v);
    assert h'.objs.Keys == h.objs.Keys;
    assert h'.objs[id].fields.Keys == h.objs[id].fields.Keys;
    assert ObjOk(h.objs[id], h.objs.Keys);
    assert ObjOk(h'.objs[id], h.objs.Keys);
  }

  lemma RecordFieldOk(tx: Tx, h: Heap, id: Id, off: int, fv: FieldValue)
    requires HeapOk(h) && TxOk(tx, h) && id in h.objs
    requires FieldValueOk(h, id, off, fv)
    ensures TxOk(RecordWriteField(tx, h.addr[id], off, fv), h)
  {
    var a := h.addr[id];
    var tx' := RecordWriteField(tx, a, off, fv);
    IdAtAddrOf(h, id);
    assert IsAddress(h.addr, a);
    if a != tx.last {
      assert a in tx.objectLogs ==> ObjectLogOk(h, a, tx.objectLogs[a]);
      assert ObjectLogOk(h, a, tx'.objectLogs[a]);
      assert forall b :: b in tx.objectLogs && b != a ==> tx'.objectLogs[b] == tx.objectLogs[b];
    }
  }

  /** The record appears where it is needed and missing, and nowhere else. */
  lemma LoggedAfterRecordField(tx: Tx, h: Heap, id: Id, off: int, fv: FieldValue, l: Loc)
    requires id in h.objs && id in h.addr && l.id in h.objs && l.id in h.addr
    requires l.id != id ==> h.addr[l.id] != h.addr[id]
    ensures var tx' := RecordWriteField(tx, h.addr[id], off, fv);
            && Logged(tx', h, l) ==
                 (if l == FieldAt(id, off) && Logged(tx, h, l) == Absent && ObjectNeedsRecords(tx, h.addr[id])
                  then Field(Decode(h.addr, fv)) else Logged(tx, h, l))
            && NewObjectLogged(tx', h.addr[l.id]) == NewObjectLogged(tx, h.addr[l.id])
            && NewArrayLogged(tx', h.addr[l.id]) == NewArrayLogged(tx, h.addr[l.id])
  {
  }

  /** Objects that are not flagged as new in either log are not the last allocated object. */
  lemma OldObjectNeedsRecords(tx: Tx, h: Heap, id: Id)
    requires HeapOk(h) && TxOk(tx, h) && id in h.objs
    requires !NewObjectLogged(tx, h.addr[id]) && !NewArrayLogged(tx, h.addr[id])
    ensures ObjectNeedsRecords(tx, h.addr[id]) && ArrayNeedsRecords(tx, h.addr[id])
  {
    IdAtAddrOf(h, id);
  }

  /** The record `was` at one location of the innermost transaction keeps its level, when the
      heap changes at that location only. */
  lemma RecordedLevelAt(tx: Tx, tx': Tx, h: Heap, h': Heap, snap: Snapshot, l0: Loc, l: Loc)
    requires TxOk(tx', h) && Extends(h, h') && h'.objs.Keys == h.objs.Keys
    requires LevelAt(tx, h, snap, h.objs, l)
    requires l != l0 ==> CellAt(h'.objs, l) == CellAt(h.objs, l)
    requires l.id in h.objs && CellAt(snap.objs, l) != Absent ==>
      && NewObjectLogged(tx', h.addr[l.id]) == NewObjectLogged(tx, h.addr[l.id])
      && NewArrayLogged(tx', h.addr[l.id]) == NewArrayLogged(tx, h.addr[l.id])
      && (l != l0 || l0 in snap.written ==> Logged(tx', h, l) == Logged(tx, h, l))
      && (l == l0 && l0 !in snap.written ==>
            Logged(tx', h, l) != Absent && Brings(CellAt(h.objs, l0), Logged(tx', h, l)))
    ensures LevelAt(tx', h', snap.(written := snap.written + {l0}), h'.objs, l)
  {
    if l.id in h'.objs && CellAt(snap.objs, l) != Absent {
      LoggedExtends(tx', h, h', l);
    }
  }

  lemma WriteFieldLevelAt(tx: Tx, tx': Tx, h: Heap, h': Heap, snap: Snapshot, id: Id, off: int, fv: FieldValue,
      v: Value, l: Loc)
    requires TxOk(tx, h) && TxOk(tx', h) && Extends(h, h') && LevelAt(tx, h, snap, h.objs, l)
    requires id in h.objs && off in h.objs[id].fields
    requires tx' == RecordWriteField(tx, h.addr[id], off, fv) && h' == SetField(h, id, off, v)
    requires Decode(h.addr, fv) == h.objs[id].fields[off]
    ensures LevelAt(tx', h', snap.(written := snap.written + {FieldAt(id, off)}), h'.objs, l)
  {
    var l0 := FieldAt(id, off);
    if l.id in h.objs && CellAt(snap.objs, l) != Absent {
      OldObjectNeedsRecords(tx, h, l.id);
      LoggedAfterRecordField(tx, h, id, off, fv, l);
    }
    assert h'.objs.Keys == h.objs.Keys;
    RecordedLevelAt(tx, tx', h, h', snap, l0, l);
  }

  /** The level of the innermost transaction across a recorded field write. */
  lemma WriteFieldLevel(tx: Tx, h: Heap, snap: Snapshot, id: Id, off: int, v: Value, vol: bool)
    requires HeapOk(h) && TxOk(tx, h) && Level(tx, h, snap, h.objs)
    requires id in h.objs && off in h.objs[id].fields && ValueOk(v, h.objs.Keys)
    requires ValueOk(h.objs[id].fields[off], h.objs.Keys)
    ensures var was := h.objs[id].fields[off];
            var tx' := RecordWriteField(tx, h.addr[id], off, FieldValue(Raw(h.addr, was), KindOf(was), vol));
            var h' := SetField(h, id, off, v);
            && TxOk(tx', h')
            && Level(tx', h', snap.(written := snap.written + {FieldAt(id, off)}), h'.objs)
  {
    var was := h.objs[id].fields[off];
    var fv := FieldValue(Raw(h.addr, was), KindOf(was), vol);
    var tx', h' := RecordWriteField(tx, h.addr[id], off, fv), SetField(h, id, off, v);
    DecodeRaw(h, was, vol);
    assert FieldValueOk(h, id, off, fv) by {
      if was.Reference? && was.target != NULL {
        assert IsAddress(h.addr, h.addr[was.target]);
      }
    }
    RecordFieldOk(tx, h, id, off, fv);
    SetFieldExtends(h, id, off, v);
    TxOkExtends(tx', h, h');
    forall l ensures LevelAt(tx', h', snap.(written := snap.written + {FieldAt(id, off)}), h'.objs, l) {
      WriteFieldLevelAt(tx, tx', h, h', snap, id, off, fv, v, l);
    }
  }

  lemma WriteFieldKeeps(s: Sys, s': Sys, id: Id, off: int, v: Value, vol: bool)
    requires Inv(s) && WriteFieldStep(s, s', id, off, v, vol)
    ensures Inv(s')
  {
    SetFieldExtends(s.h, id, off, v);
    forall k | 0 <= k < |s'.stack| ensures LevelOk(s', k) {
      assert LevelOk(s, k);
      if k == 0 {
        WriteFieldLevel(s.stack[0], s.h, s.snaps[0], id, off, v, vol);
        InternLevelExtends(s.stack[0], s.h, s'.h, s.snaps[0], s.tables, s.used);
      } else {
        OuterLevel(s, s', k);
      }
    }
  }

  lemma SetElemExtends(h: Heap, id: Id, i: int, e: Elem)
    requires HeapOk(h) && id in h.objs && h.objs[id].shape.PrimArray? && i in h.objs[id].elems
    requires ElemInRange(h.objs[id].shape.ty, e)
    ensures Extends(h, SetElem(h, id, i, e))
    ensures SetElem(h, id, i, e).objs.Keys == h.objs.Keys
  {
    var h' := SetElem(h, id, i, e);
    assert h'.objs.Keys == h.objs.Keys;
    assert h'.objs[id].elems.Keys == h.objs[id].elems.Keys;
    assert ObjOk(h.objs[id], h.objs.Keys);
    assert ObjOk(h'.objs[id], h.objs.Keys);
  }

  lemma RecordElemOk(tx: Tx, h: Heap, id: Id, i: int, u: int)
    requires HeapOk(h) && TxOk(tx, h) && id in h.objs
    requires h.objs[id].shape.PrimArray? && i in h.objs[id].elems
    ensures TxOk(RecordWriteArray(tx, h.addr[id], i, u), h)
  {
    var a := h.addr[id];
    var tx' := RecordWriteArray(tx, a, i, u);
    IdAtAddrOf(h, id);
    assert IsAddress(h.addr, a);
    if a != tx.last {
      assert a in tx.arrayLogs ==> ArrayLogOk(h, a, tx.arrayLogs[a]);
      assert ArrayLogOk(h, a, tx'.arrayLogs[a]);
      assert forall b :: b in tx.arrayLogs && b != a ==> tx'.arrayLogs[b] == tx.arrayLogs[b];
      hide HeapOk, ObjectLogOk, ArrayLogOk, IsAddress;
    }
  }

  lemma LoggedAfterRecordElem(tx: Tx, h: Heap, id: Id, i: int, u: int, l: Loc)
    requires id in h.objs && id in h.addr && l.id in h.objs && l.id in h.addr
    requires l.id != id ==> h.addr[l.id] != h.addr[id]
    requires h.objs[id].shape.PrimArray?
    ensures var tx' := RecordWriteArray(tx, h.addr[id], i, u);
            && Logged(tx', h, l) ==
                 (if l == ElemAt(id, i) && Logged(tx, h, l) == Absent && ArrayNeedsRecords(tx, h.addr[id])
                  then Element(NarrowElem(h.objs[id].shape.ty, u)) else Logged(tx, h, l))
            && NewObjectLogged(tx', h.addr[l.id]) == NewObjectLogged(tx, h.addr[l.id])
            && NewArrayLogged(tx', h.addr[l.id]) == NewArrayLogged(tx, h.addr[l.id])
  {
  }

  lemma WriteElemLevelAt(tx: Tx, tx': Tx, h: Heap, h': Heap, snap: Snapshot, id: Id, i: int, u: int, e: Elem, l: Loc)
    requires TxOk(tx, h) && TxOk(tx', h) && Extends(h, h') && LevelAt(tx, h, snap, h.objs, l)
    requires id in h.objs && h.objs[id].shape.PrimArray? && i in h.objs[id].elems
    requires tx' == RecordWriteArray(tx, h.addr[id], i, u) && h' == SetElem(h, id, i, e)
    requires Exact(h.objs[id].elems[i]) <==> NarrowElem(h.objs[id].shape.ty, u) == h.objs[id].elems[i]
    ensures LevelAt(tx', h', snap.(written := snap.written + {ElemAt(id, i)}), h'.objs, l)
  {
    hide ObjectLogOk, ArrayLogOk, LastOk, ObjOk, ValueOk;
    var l0 := ElemAt(id, i);
    if l.id in h.objs && CellAt(snap.objs, l) != Absent {
      OldObjectNeedsRecords(tx, h, l.id);
      LoggedAfterRecordElem(tx, h, id, i, u, l);
    }
    assert h'.objs.Keys == h.objs.Keys;
    RecordedLevelAt(tx, tx', h, h', snap, l0, l);
  }

  lemma WriteElemLevel(tx: Tx, h: Heap, snap: Snapshot, id: Id, i: int, e: Elem, undef: int)
    requires HeapOk(h) && TxOk(tx, h) && Level(tx, h, snap, h.objs)
    requires id in h.objs && h.objs[id].shape.PrimArray? && i in h.objs[id].elems && IsU64(undef)
    requires ElemInRange(h.objs[id].shape.ty, e) && ElemInRange(h.objs[id].shape.ty, h.objs[id].elems[i])
    ensures var tx' := RecordWriteArray(tx, h.addr[id], i, WidenElem(h.objs[id].elems[i], undef));
            var h' := SetElem(h, id, i, e);
            && TxOk(tx', h')
            && Level(tx', h', snap.(written := snap.written + {ElemAt(id, i)}), h'.objs)
  {
    var u := WidenElem(h.objs[id].elems[i], undef);
    var tx', h' := RecordWriteArray(tx, h.addr[id], i, u), SetElem(h, id, i, e);
    ElemRoundTrip(h.objs[id].shape.ty, h.objs[id].elems[i], undef);
    RecordElemOk(tx, h, id, i, u);
    SetElemExtends(h, id, i, e);
    TxOkExtends(tx', h, h');
    forall l ensures LevelAt(tx', h', snap.(written := snap.written + {ElemAt(id, i)}), h'.objs, l) {
      WriteElemLevelAt(tx, tx', h, h', snap, id, i, u, e, l);
    }
  }

  lemma WriteElemKeeps(s: Sys, s': Sys, id: Id, i: int, e: Elem, undef: int)
    requires Inv(s) && WriteElemStep(s, s', id, i, e, undef)
    ensures Inv(s')
  {
    SetElemExtends(s.h, id, i, e);
    forall k | 0 <= k < |s'.stack| ensures LevelOk(s', k) {
      assert LevelOk(s, k);
      if k == 0 {
        WriteElemLevel(s.stack[0], s.h, s.snaps[0], id, i, e, undef);
        InternLevelExtends(s.stack[0], s.h, s'.h, s.snaps[0], s.tables, s.used);
      } else {
        OuterLevel(s, s', k);
      }
    }
  }

  // --- Allocation -------------------------------------------------------------------------------

  lemma AllocExtends(s: Sys, s': Sys, id: Id, a: Addr, o: Obj, recorded: bool)
    requires Inv(s) && AllocStep(s, s', id, a, o, recorded)
    ensures Extends(s.h, s'.h) && s'.h.objs.Keys * s.used <= s.h.objs.Keys
    ensures IdAt(s'.h.addr, a) == id
  {
    var h, h' := s.h, s'.h;
    assert h'.objs.Keys == h.objs.Keys + {id};
    forall j | j in h'.objs ensures ObjOk(h'.objs[j], h'.objs.Keys) {
      if j != id {
        assert ObjOk(h.objs[j], h.objs.Keys);
      }
    }
    forall j | j in h.addr ensures h.addr[j] != a {
      assert h.addr[j] == a ==> IsAddress(h.addr, a);
    }
    assert HeapOk(h');
    IdAtAddrOf(h', id);
  }

  ghost predicate FlagsNew(tx: Tx, tx': Tx, shape: Shape, a: Addr) {
    tx' == if shape.IsArray() then RecordNewArray(tx, a, shape.ObjectArray?) else RecordNewObject(tx, a)
  }

  lemma RecordNewObjectOk(tx: Tx, h: Heap, id: Id)
    requires HeapOk(h) && TxOk(tx, h) && id in h.objs && !h.objs[id].shape.PrimArray?
    ensures TxOk(RecordNewObject(tx, h.addr[id]), h)
  {
    IdAtAddrOf(h, id);
    var a, tx' := h.addr[id], RecordNewObject(tx, h.addr[id]);
    assert ObjectLogOk(h, a, tx'.objectLogs[a]) by {
      assert IsAddress(h.addr, a);
    }
    assert forall b :: b in tx.objectLogs && b != a ==> tx'.objectLogs[b] == tx.objectLogs[b];
  }

  lemma RecordNewPrimArrayOk(tx: Tx, h: Heap, id: Id)
    requires HeapOk(h) && TxOk(tx, h) && id in h.objs && h.objs[id].shape.PrimArray?
    ensures TxOk(RecordNewArray(tx, h.addr[id], false), h)
  {
    IdAtAddrOf(h, id);
    var a, tx' := h.addr[id], RecordNewArray(tx, h.addr[id], false);
    assert ArrayLogOk(h, a, tx'.arrayLogs[a]) by {
      assert IsAddress(h.addr, a);
    }
    assert forall b :: b in tx.arrayLogs && b != a ==> tx'.arrayLogs[b] == tx.arrayLogs[b];
  }

  /** Flagging one object as new touches no other object's records. */
  lemma RecordNewElsewhere(tx: Tx, tx': Tx, h: Heap, shape: Shape, a: Addr, l: Loc)
    requires l.id in h.objs && l.id in h.addr && h.addr[l.id] != a && FlagsNew(tx, tx', shape, a)
    ensures Logged(tx', h, l) == Logged(tx, h, l)
    ensures NewObjectLogged(tx', h.addr[l.id]) == NewObjectLogged(tx, h.addr[l.id])
    ensures NewArrayLogged(tx', h.addr[l.id]) == NewArrayLogged(tx, h.addr[l.id])
  {
  }

  lemma AllocKeeps(s: Sys, s': Sys, id: Id, a: Addr, o: Obj, recorded: bool)
    requires Inv(s) && AllocStep(s, s', id, a, o, recorded)
    ensures Inv(s')
  {
    AllocExtends(s, s', id, a, o, recorded);
    forall k | 0 <= k < |s'.stack| ensures LevelOk(s', k) {
      assert LevelOk(s, k);
      if k > 0 {
        OuterLevel(s, s', k);
      } else {
        AllocFrontLevel(s, s', id, a, o, recorded);
      }
    }
  }

  lemma AllocLevelAt(tx: Tx, tx': Tx, h: Heap, h': Heap, snap: Snapshot, id: Id, l: Loc)
    requires Extends(h, h') && TxOk(tx, h) && LevelAt(tx, h, snap, h.objs, l)
    requires id !in snap.objs && id in h'.objs && h'.objs == h.objs[id := h'.objs[id]]
    requires tx' == tx || FlagsNew(tx, tx', h'.objs[id].shape, h'.addr[id])
    ensures LevelAt(tx', h', snap, h'.objs, l)
  {
    if l.id in h'.objs && CellAt(snap.objs, l) != Absent {
      LoggedExtends(tx, h, h', l);
      if tx' != tx {
        RecordNewElsewhere(tx, tx', h', h'.objs[id].shape, h'.addr[id], l);
      }
    }
  }

  /** The records of the innermost transaction, with the new object flagged or not. */
  lemma AllocRecords(tx: Tx, tx': Tx, h: Heap, h': Heap, id: Id)
    requires Extends(h, h') && TxOk(tx, h) && id in h'.objs
    requires tx' == tx || FlagsNew(tx, tx', h'.objs[id].shape, h'.addr[id])
    ensures TxOk(tx', h')
  {
    TxOkExtends(tx, h, h');
    hide TxOk, Extends;
    if tx' != tx {
      if h'.objs[id].shape.PrimArray? {
        RecordNewPrimArrayOk(tx, h', id);
      } else {
        RecordNewObjectOk(tx, h', id);
      }
    }
  }

  lemma AllocLevel(tx: Tx, tx': Tx, h: Heap, h': Heap, snap: Snapshot, id: Id)
    requires Extends(h, h') && TxOk(tx, h) && Level(tx, h, snap, h.objs)
    requires id !in snap.objs && id in h'.objs && h'.objs == h.objs[id := h'.objs[id]]
    requires tx' == tx || FlagsNew(tx, tx', h'.objs[id].shape, h'.addr[id])
    ensures Level(tx', h', snap, h'.objs)
  {
    hide LevelAt, TxOk, Extends;
    forall l ensures LevelAt(tx', h', snap, h'.objs, l) {
      AllocLevelAt(tx, tx', h, h', snap, id, l);
    }
  }

  lemma AllocFrontLevel(s: Sys, s': Sys, id: Id, a: Addr, o: Obj, recorded: bool)
    requires Inv(s) && AllocStep(s, s', id, a, o, recorded) && s.stack != []
    requires Extends(s.h, s'.h) && s'.h.objs.Keys * s.used <= s.h.objs.Keys
    ensures LevelOk(s', 0)
  {
    hide TxOk, Level, InternLevel, SameLayout, ObjOk;
    var tx, tx', h, h', snap := s.stack[0], s'.stack[0], s.h, s'.h, s.snaps[0];
    assert LevelOk(s, 0);
    assert s'.snaps[0] == snap && id !in snap.objs;
    AllocRecords(tx, tx', h, h', id);
    AllocLevel(tx, tx', h, h', snap, id);
    InternLevelExtends(tx, h, h', snap, s.tables, s.used);
    SameInterns(tx, tx', h', snap, s.tables);
  }

  lemma SameInterns(tx: Tx, tx': Tx, h: Heap, snap: Snapshot, next: Tables)
    requires InternLevel(tx, h, snap, next) && tx'.interns == tx.interns
    ensures InternLevel(tx', h, snap, next)
  {
  }

  // --- Interning --------------------------------------------------------------------------------

  /** The newest change is undone first, so what the log restores stays the same. */
  lemma InternRecorded(tx: Tx, tx': Tx, h: Heap, id: Id, strong: bool, insert: bool, t: Tables, snap: Snapshot)
    requires HeapOk(h) && id in h.objs && tx' == RecordIntern(tx, InternLog(h.addr[id], strong, insert))
    requires t.weak <= h.objs.Keys && Valid(t, Change(id, strong, insert)) && InternLevel(tx, h, snap, t)
    ensures InternLevel(tx', h, snap, Apply(t, Change(id, strong, insert)))
  {
    var c := Change(id, strong, insert);
    IdAtAddrOf(h, id);
    assert Changes(h.addr, tx'.interns) == [c] + Changes(h.addr, tx.interns);
    var t' := Apply(t, c);
    assert t'.weak <= h.objs.Keys;
    assert t.weak * h.objs.Keys == t.weak && t'.weak * h.objs.Keys == t'.weak;
    UndoAllAfterChange(t, c, Changes(h.addr, tx.interns));
  }

  lemma InternTx(tx: Tx, tx': Tx, h: Heap, id: Id, log: InternLog, snap: Snapshot)
    requires HeapOk(h) && TxOk(tx, h) && Level(tx, h, snap, h.objs) && id in h.objs
    requires log.str == h.addr[id] && tx' == RecordIntern(tx, log)
    ensures TxOk(tx', h) && Level(tx', h, snap, h.objs)
  {
    assert IsAddress(h.addr, h.addr[id]);
    hide HeapOk, ObjectLogOk, ArrayLogOk;
    forall l ensures LevelAt(tx', h, snap, h.objs, l) {
      assert LevelAt(tx, h, snap, h.objs, l);
      assert Logged(tx', h, l) == Logged(tx, h, l);
    }
  }

  lemma InternFrontLevel(s: Sys, s': Sys, id: Id, strong: bool, insert: bool)
    requires Inv(s) && InternStep(s, s', id, strong, insert) && s.stack != []
    ensures LevelOk(s', 0)
  {
    hide TxOk, HeapOk, Level, InternLevel, SameLayouts, SnapshotOk, Valid, Apply;
    assert LevelOk(s, 0);
    assert s'.snaps[0] == s.snaps[0] by {
      assert s.snaps[0].written + {} == s.snaps[0].written;
    }
    InternTx(s.stack[0], s'.stack[0], s.h, id, InternLog(s.h.addr[id], strong, insert), s.snaps[0]);
    InternRecorded(s.stack[0], s'.stack[0], s.h, id, strong, insert, s.tables, s.snaps[0]);
  }

  lemma InternKeeps(s: Sys, s': Sys, id: Id, strong: bool, insert: bool)
    requires Inv(s) && InternStep(s, s', id, strong, insert)
    ensures Inv(s')
  {
    forall k | 0 <= k < |s'.stack| ensures LevelOk(s', k) {
      assert LevelOk(s, k);
      if k == 0 {
        InternFrontLevel(s, s', id, strong, insert);
      } else {
        OuterLevel(s, s', k);
      }
    }
  }

  // --- Entering and committing ------------------------------------------------------------------

  lemma EnterFrontLevel(s: Sys, s': Sys, strict: bool, root: Id)
    requires Inv(s) && EnterStep(s, s', strict, root)
    ensures LevelOk(s', 0)
  {
    var tx, snap := s'.stack[0], s'.snaps[0];
    assert TxOk(tx, s'.h) by {
      assert root != NULL ==> IsAddress(s.h.addr, s.h.addr[root]);
    }
    forall l ensures LevelAt(tx, s'.h, snap, s'.h.objs, l) {
    }
    assert Changes(s'.h.addr, tx.interns) == [];
  }

  lemma EnterKeeps(s: Sys, s': Sys, strict: bool, root: Id)
    requires Inv(s) && EnterStep(s, s', strict, root)
    ensures Inv(s')
  {
    EnterFrontLevel(s, s', strict, root);
    forall k | 0 < k < |s'.stack| ensures LevelOk(s', k) {
      assert LevelOk(s, k - 1);
      assert s'.stack[k] == s.stack[k - 1] && s'.snaps[k] == s.snaps[k - 1];
      assert NextObjs(s', k) == NextObjs(s, k - 1) && NextTables(s', k) == NextTables(s, k - 1);
    }
  }

  /** The levels further out, when the innermost transaction goes away. */
  lemma PoppedLevel(s: Sys, s': Sys, k: nat)
    requires Inv(s) && 1 < k < |s.stack|
    requires |s'.stack| == |s'.snaps| == |s.stack| - 1
    requires Extends(s.h, s'.h) && s'.h.objs.Keys == s.h.objs.Keys && s'.used == s.used
    requires s'.stack[k - 1] == s.stack[k] && s'.snaps[k - 1] == s.snaps[k]
    requires s'.snaps[k - 2].objs == s.snaps[k - 1].objs && s'.snaps[k - 2].tables == s.snaps[k - 1].tables
    ensures LevelOk(s', k - 1)
  {
    assert LevelOk(s, k) && LevelOk(s, k - 1);
    TxOkExtends(s.stack[k], s.h, s'.h);
    var next := s.snaps[k - 1].objs;
    LevelExtends(s.stack[k], s.h, s'.h, s.snaps[k], s.snaps[k], next, next, s.used);
    InternLevelExtends(s.stack[k], s.h, s'.h, s.snaps[k], s.snaps[k - 1].tables, s.used);
  }

  /** The enclosing level, when the innermost transaction goes away: its `next` becomes the heap
      itself, which may differ from the inner snapshot only at the leaked locations and at those
      the enclosing transaction has recorded. */
  lemma EnclosingLevel(s: Sys, s': Sys)
    requires Inv(s) && |s.stack| > 1
    requires |s'.stack| == |s'.snaps| == |s.stack| - 1
    requires Extends(s.h, s'.h) && s'.h.objs.Keys == s.h.objs.Keys && s'.used == s.used
    requires s'.stack[0] == s.stack[1]
    requires s.snaps[1].leaked <= s'.snaps[0].leaked
    requires s'.snaps[0] == s.snaps[1].(leaked := s'.snaps[0].leaked, internsLeaked := s'.snaps[0].internsLeaked)
    requires forall l: Loc ::
      l.id in s.h.objs && CellAt(s.snaps[0].objs, l) != Absent && l !in s'.snaps[0].leaked + s.snaps[1].written ==>
        CellAt(s'.h.objs, l) == CellAt(s.snaps[0].objs, l)
    requires !s'.snaps[0].internsLeaked ==>
               !s.snaps[1].internsLeaked && Sweep(s'.tables, s.h.objs.Keys) == Sweep(s.snaps[0].tables, s.h.objs.Keys)
    ensures LevelOk(s', 0)
  {
    hide ObjectLogOk, ArrayLogOk, LastOk, Brings, Logged, ObjOk;
    assert LevelOk(s, 1) && LevelOk(s, 0);
    var tx, snap, snap', inner := s.stack[1], s.snaps[1], s'.snaps[0], s.snaps[0].objs;
    TxOkExtends(tx, s.h, s'.h);
    forall l: Loc | l.id in s.h.objs && CellAt(snap.objs, l) != Absent && l !in snap'.leaked && l !in snap.written
      ensures CellAt(s'.h.objs, l) == CellAt(inner, l)
    {
      assert l.id in inner && SameLayout(snap.objs[l.id], inner[l.id]);
      assert CellAt(inner, l) != Absent;
    }
    LevelExtends(tx, s.h, s'.h, snap, snap', inner, s'.h.objs, s.used);
    ChangesExtends(tx, s.h, s'.h);
  }

  lemma ExitKeeps(s: Sys, s': Sys)
    requires Inv(s) && ExitStep(s, s')
    ensures Inv(s')
  {
    assert Extends(s.h, s.h);
    assert LevelOk(s, 0);
    forall k | 0 <= k < |s'.stack| ensures LevelOk(s', k) {
      if k > 0 {
        PoppedLevel(s, s', k + 1);
      } else {
        forall l: Loc | l.id in s.h.objs && CellAt(s.snaps[0].objs, l) != Absent
          && l !in s'.snaps[0].leaked + s.snaps[1].written
          ensures CellAt(s'.h.objs, l) == CellAt(s.snaps[0].objs, l)
        {
          assert LevelAt(s.stack[0], s.h, s.snaps[0], s.h.objs, l);
        }
        assert s.stack[0].interns == [] ==> Changes(s.h.addr, s.stack[0].interns) == [];
        EnclosingLevel(s, s');
      }
    }
  }
}
