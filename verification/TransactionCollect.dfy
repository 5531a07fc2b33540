/** A moving collection keeps the meaning of every record: re-keyed logs and updated references
    denote the same objects as before. */
module TransactionCollect {
  import opened Options
  import opened FieldValues
  import opened ManagedHeap
  import opened TransactionLog
  import opened InternTables
  import opened TransactionRuns
  import opened TransactionSafety

  /** `h'` is what a collection leaves of `h`. */
  ghost predicate Collected(h: Heap, h': Heap) {
    && HeapOk(h) && HeapOk(h')
    && h'.objs.Keys <= h.objs.Keys
    && forall id :: id in h'.objs ==> h'.objs[id] == h.objs[id]
  }

  /** A visited root denotes the object it denoted before. */
  lemma VisitKeepsIdentity(h: Heap, h': Heap, a: Addr)
    requires Collected(h, h') && IsAddress(h.addr, a) && a != NULL && IdAt(h.addr, a) in h'.objs
    ensures Visit(Forwarding(h, h'), a) == h'.addr[IdAt(h.addr, a)]
    ensures IsAddress(h'.addr, Visit(Forwarding(h, h'), a))
    ensures IdAt(h'.addr, Visit(Forwarding(h, h'), a)) == IdAt(h.addr, a)
  {
    var id := IdAt(h.addr, a);
    AddrOfIdAt(h, a);
    assert id in h.addr && h.addr[id] == a && a in h.addr.Values;
    IdAtAddrOf(h', id);
  }

  lemma VisitNull(h: Heap, h': Heap)
    requires Collected(h, h')
    ensures Visit(Forwarding(h, h'), NULL) == NULL
  {
  }

  ghost predicate RootsKept(tx: Tx, h: Heap, h': Heap) {
    forall a :: IsRoot(tx, a) ==> IdAt(h.addr, a) in h'.objs
  }

  lemma KeyIsRoot(tx: Tx, h: Heap, h': Heap, a: Addr)
    requires Collected(h, h') && TxOk(tx, h) && RootsKept(tx, h, h')
    requires a in tx.objectLogs || a in tx.arrayLogs
    ensures IsAddress(h.addr, a) && a != NULL && IdAt(h.addr, a) in h'.objs
  {
    assert a in tx.objectLogs ==> ObjectLogOk(h, a, tx.objectLogs[a]);
    assert a in tx.arrayLogs ==> ArrayLogOk(h, a, tx.arrayLogs[a]);
    assert a != NULL;
    assert IsRoot(tx, a);
  }

  /** The entry of a surviving object moves with it, and no other entry takes its place. */
  lemma EntryMoves<V>(tx: Tx, h: Heap, h': Heap, m: map<Addr, V>, m': map<Addr, V>, id: Id)
    requires Collected(h, h') && TxOk(tx, h) && RootsKept(tx, h, h')
    requires forall a :: a in m ==> a in tx.objectLogs || a in tx.arrayLogs
    requires Rekeyed(Forwarding(h, h'), m, m')
    requires id in h'.objs
    ensures h.addr[id] in m <==> h'.addr[id] in m'
    ensures h.addr[id] in m ==> m'[h'.addr[id]] == m[h.addr[id]]
  {
    var fwd, a, a' := Forwarding(h, h'), h.addr[id], h'.addr[id];
    IdAtAddrOf(h, id);
    IdAtAddrOf(h', id);
    if a in m {
      KeyIsRoot(tx, h, h', a);
      VisitKeepsIdentity(h, h', a);
    }
    if a' in m' {
      assert MovedFrom(fwd, m.Keys, a');
      var b :| b in m && Visit(fwd, b) == a';
      KeyIsRoot(tx, h, h', b);
      VisitKeepsIdentity(h, h', b);
      AddrOfIdAt(h, b);
      assert b == a;
    }
  }

  lemma DecodeVisited(tx: Tx, h: Heap, h': Heap, b: Addr, off: int)
    requires Collected(h, h') && TxOk(tx, h) && RootsKept(tx, h, h')
    requires b in tx.objectLogs && off in tx.objectLogs[b].values
    ensures var fv := tx.objectLogs[b].values[off];
            Decode(h'.addr, VisitField(Forwarding(h, h'), fv)) == Decode(h.addr, fv)
  {
    var fv := tx.objectLogs[b].values[off];
    assert ObjectLogOk(h, b, tx.objectLogs[b]);
    assert FieldValueOk(h, IdAt(h.addr, b), off, fv);
    if fv.kind.KReference? && fv.value != NULL {
      assert LoggedReference(tx, b, off, fv.value);
      assert IsRoot(tx, fv.value);
      VisitKeepsIdentity(h, h', fv.value);
      AddrOfIdAt(h, fv.value);
      assert Visit(Forwarding(h, h'), fv.value) > 0;
    }
  }

  /** What a rollback would store at a surviving location is the same before and after. */
  lemma LoggedCollected(tx: Tx, tx': Tx, h: Heap, h': Heap, l: Loc)
    requires Collected(h, h') && TxOk(tx, h) && RootsKept(tx, h, h')
    requires Visited(Forwarding(h, h'), tx, tx')
    requires l.id in h'.objs
    ensures Logged(tx', h', l) == Logged(tx, h, l)
    ensures NewObjectLogged(tx', h'.addr[l.id]) == NewObjectLogged(tx, h.addr[l.id])
    ensures NewArrayLogged(tx', h'.addr[l.id]) == NewArrayLogged(tx, h.addr[l.id])
  {
    hide HeapOk, TxOk, RootsKept, Forwarding, Rekeyed, VisitField, Decode;
    var fwd := Forwarding(h, h');
    InPlace(h, h', l.id);
    var m := VisitReferences(fwd, tx.objectLogs);
    EntryMoves(tx, h, h', m, tx'.objectLogs, l.id);
    EntryMoves(tx, h, h', tx.arrayLogs, tx'.arrayLogs, l.id);
    var a := h.addr[l.id];
    if l.FieldAt? && a in tx.objectLogs && l.off in tx.objectLogs[a].values {
      DecodeVisited(tx, h, h', a, l.off);
    }
  }

  lemma InPlace(h: Heap, h': Heap, id: Id)
    requires Collected(h, h') && id in h'.objs
    ensures id in h.objs && id in h.addr && id in h'.addr
  {
  }

  lemma ObjectLogCollected(tx: Tx, h: Heap, h': Heap, b: Addr)
    requires Collected(h, h') && TxOk(tx, h) && RootsKept(tx, h, h') && b in tx.objectLogs
    ensures ObjectLogOk(h', Visit(Forwarding(h, h'), b), VisitObjectLog(Forwarding(h, h'), tx.objectLogs[b]))
  {
    var fwd, log := Forwarding(h, h'), tx.objectLogs[b];
    assert ObjectLogOk(h, b, log);
    KeyIsRoot(tx, h, h', b);
    VisitKeepsIdentity(h, h', b);
    var log' := VisitObjectLog(fwd, log);
    assert log.isNew ==> log'.values == map[];
    forall off | off in log'.values ensures FieldValueOk(h', IdAt(h.addr, b), off, log'.values[off]) {
      var fv := log.values[off];
      assert FieldValueOk(h, IdAt(h.addr, b), off, fv);
      if fv.kind.KReference? && fv.value != NULL {
        assert LoggedReference(tx, b, off, fv.value);
        assert IsRoot(tx, fv.value);
        VisitKeepsIdentity(h, h', fv.value);
      }
    }
  }

  lemma ArrayLogCollected(tx: Tx, h: Heap, h': Heap, b: Addr)
    requires Collected(h, h') && TxOk(tx, h) && RootsKept(tx, h, h') && b in tx.arrayLogs
    ensures ArrayLogOk(h', Visit(Forwarding(h, h'), b), tx.arrayLogs[b])
  {
    assert ArrayLogOk(h, b, tx.arrayLogs[b]);
    KeyIsRoot(tx, h, h', b);
    VisitKeepsIdentity(h, h', b);
  }

  lemma LastCollected(tx: Tx, tx': Tx, h: Heap, h': Heap)
    requires Collected(h, h') && TxOk(tx, h) && RootsKept(tx, h, h')
    requires Visited(Forwarding(h, h'), tx, tx')
    ensures LastOk(tx', h')
    ensures tx'.root == NULL || IsAddress(h'.addr, tx'.root)
  {
    VisitNull(h, h');
    if tx.root != NULL {
      assert IsRoot(tx, tx.root);
      VisitKeepsIdentity(h, h', tx.root);
    }
    if tx.last != NULL {
      assert IsRoot(tx, tx.last);
      VisitKeepsIdentity(h, h', tx.last);
      AddrOfIdAt(h, tx.last);
      LoggedCollected(tx, tx', h, h', FieldAt(IdAt(h.addr, tx.last), 0));
    }
  }

  lemma InternCollected(tx: Tx, h: Heap, h': Heap, i: nat)
    requires Collected(h, h') && TxOk(tx, h) && RootsKept(tx, h, h') && i < |tx.interns|
    ensures var a' := Visit(Forwarding(h, h'), tx.interns[i].str);
            && IdAt(h'.addr, a') == IdAt(h.addr, tx.interns[i].str)
            && IdAt(h.addr, tx.interns[i].str) in h'.objs
            && a' != NULL && IsAddress(h'.addr, a')
  {
    assert IsRoot(tx, tx.interns[i].str);
    VisitKeepsIdentity(h, h', tx.interns[i].str);
  }

  lemma ChangesCollected(tx: Tx, interns': seq<InternLog>, h: Heap, h': Heap)
    requires Collected(h, h') && TxOk(tx, h) && RootsKept(tx, h, h')
    requires |interns'| == |tx.interns|
    requires forall i :: 0 <= i < |tx.interns| ==> interns'[i] == VisitIntern(Forwarding(h, h'), tx.interns[i])
    ensures Changes(h'.addr, interns') == Changes(h.addr, tx.interns)
    ensures Mentions(Changes(h.addr, tx.interns), h'.objs.Keys)
    ensures forall i :: 0 <= i < |interns'| ==> interns'[i].str != NULL && IsAddress(h'.addr, interns'[i].str)
  {
    forall i: nat | i < |tx.interns|
      ensures Changes(h'.addr, interns')[i] == Changes(h.addr, tx.interns)[i]
      ensures Changes(h.addr, tx.interns)[i].str in h'.objs
      ensures interns'[i].str != NULL && IsAddress(h'.addr, interns'[i].str)
    {
      InternCollected(tx, h, h', i);
    }
  }

  lemma TxCollected(tx: Tx, tx': Tx, h: Heap, h': Heap)
    requires Collected(h, h') && TxOk(tx, h) && RootsKept(tx, h, h')
    requires Visited(Forwarding(h, h'), tx, tx')
    ensures TxOk(tx', h')
  {
    var fwd := Forwarding(h, h');
    LastCollected(tx, tx', h, h');
    ChangesCollected(tx, tx'.interns, h, h');
    var m := VisitReferences(fwd, tx.objectLogs);
    forall a | a in tx'.objectLogs ensures ObjectLogOk(h', a, tx'.objectLogs[a]) {
      assert MovedFrom(fwd, m.Keys, a);
      var b :| b in tx.objectLogs && Visit(fwd, b) == a;
      ObjectLogCollected(tx, h, h', b);
    }
    forall a | a in tx'.arrayLogs ensures ArrayLogOk(h', a, tx'.arrayLogs[a]) {
      assert MovedFrom(fwd, tx.arrayLogs.Keys, a);
      var b :| b in tx.arrayLogs && Visit(fwd, b) == a;
      ArrayLogCollected(tx, h, h', b);
    }
  }

  lemma LevelCollected(tx: Tx, tx': Tx, h: Heap, h': Heap, snap: Snapshot, next: map<Id, Obj>, next': map<Id, Obj>)
    requires Collected(h, h') && TxOk(tx, h) && RootsKept(tx, h, h')
    requires Visited(Forwarding(h, h'), tx, tx')
    requires Level(tx, h, snap, next)
    requires forall l: Loc :: l.id in h'.objs ==> CellAt(next', l) == CellAt(next, l)
    ensures Level(tx', h', snap, next')
  {
    forall l ensures LevelAt(tx', h', snap, next', l) {
      assert LevelAt(tx, h, snap, next, l);
      if l.id in h'.objs {
        LoggedCollected(tx, tx', h, h', l);
      }
    }
  }

  /** The tables a log restores, once everything outside `alive'` has been swept as well. */
  lemma UndoAfterSweep(log: seq<Change>, next: Tables, next': Tables, restored: Tables, alive: set<Id>, alive': set<Id>)
    requires Mentions(log, alive') && alive' <= alive
    requires UndoAll(Sweep(next, alive), log) == Some(Sweep(restored, alive))
    requires Sweep(next', alive') == Sweep(next, alive')
    ensures UndoAll(Sweep(next', alive'), log) == Some(Sweep(restored, alive'))
  {
    SweepThenUndo(Sweep(next, alive), log, alive');
    assert next.weak * alive * alive' == next.weak * alive';
    assert restored.weak * alive * alive' == restored.weak * alive';
  }

  lemma InternLevelCollected(tx: Tx, tx': Tx, h: Heap, h': Heap, snap: Snapshot, next: Tables, next': Tables)
    requires Collected(h, h')
    requires InternLevel(tx, h, snap, next)
    requires Changes(h'.addr, tx'.interns) == Changes(h.addr, tx.interns)
    requires Mentions(Changes(h.addr, tx.interns), h'.objs.Keys)
    requires Sweep(next', h'.objs.Keys) == Sweep(next, h'.objs.Keys)
    ensures InternLevel(tx', h', snap, next')
  {
    if !snap.internsLeaked {
      UndoAfterSweep(Changes(h.addr, tx.interns), next, next', snap.tables, h.objs.Keys, h'.objs.Keys);
    }
  }

  lemma CollectRecords(s: Sys, s': Sys, k: nat)
    requires Inv(s) && CollectStep(s, s') && k < |s.stack|
    ensures TxOk(s'.stack[k], s'.h)
    ensures Level(s'.stack[k], s'.h, s'.snaps[k], NextObjs(s', k))
  {
    hide Level, InternLevel, SnapshotOk, TxOk, HeapOk, IsRoot, Visited, NoDownwardClash, SameLayouts, Sweep;
    assert LevelOk(s, k) && CollectTx(s, s', k);
    assert RootsKept(s.stack[k], s.h, s'.h);
    TxCollected(s.stack[k], s'.stack[k], s.h, s'.h);
    LevelCollected(s.stack[k], s'.stack[k], s.h, s'.h, s.snaps[k], NextObjs(s, k), NextObjs(s', k));
  }

  lemma CollectInterns(s: Sys, s': Sys, k: nat)
    requires Inv(s) && CollectStep(s, s') && k < |s.stack|
    ensures InternLevel(s'.stack[k], s'.h, s'.snaps[k], NextTables(s', k))
  {
    hide Level, ObjectLogsVisited, Rekeyed, SnapshotOk, ObjectLogOk, ArrayLogOk, LastOk, HeapOk;
    assert LevelOk(s, k) && CollectTx(s, s', k);
    assert RootsKept(s.stack[k], s.h, s'.h);
    assert Sweep(NextTables(s', k), s'.h.objs.Keys) == Sweep(NextTables(s, k), s'.h.objs.Keys) by {
      assert s.tables.weak * s'.h.objs.Keys * s'.h.objs.Keys == s.tables.weak * s'.h.objs.Keys;
    }
    ChangesCollected(s.stack[k], s'.stack[k].interns, s.h, s'.h);
    InternLevelCollected(s.stack[k], s'.stack[k], s.h, s'.h, s.snaps[k], NextTables(s, k), NextTables(s', k));
  }

  lemma CollectLevel(s: Sys, s': Sys, k: nat)
    requires Inv(s) && CollectStep(s, s') && k < |s.stack|
    ensures LevelOk(s', k)
  {
    CollectRecords(s, s', k);
    CollectInterns(s, s', k);
    assert LevelOk(s, k) && CollectTx(s, s', k);
  }

  lemma CollectKeeps(s: Sys, s': Sys)
    requires Inv(s) && CollectStep(s, s')
    ensures Inv(s')
  {
    forall k | 0 <= k < |s'.stack| ensures LevelOk(s', k) {
      CollectLevel(s, s', k);
    }
  }
}
