/** What a rollback restores. */
module TransactionRollback {
  import opened Options
  import opened FieldValues
  import opened ManagedHeap
  import opened TransactionLog
  import opened InternTables
  import opened TransactionRuns
  import opened TransactionSafety

  lemma DecodeOk(h: Heap, id: Id, off: int, fv: FieldValue)
    requires HeapOk(h) && FieldValueOk(h, id, off, fv)
    ensures ValueOk(Decode(h.addr, fv), h.objs.Keys)
  {
    if fv.kind.KReference? {
      AddrOfIdAt(h, fv.value);
    }
  }

  lemma UndoneObjOk(h: Heap, tx: Tx, id: Id)
    requires HeapOk(h) && TxOk(tx, h) && id in h.objs
    ensures ObjOk(UndoneObj(h, tx, id), h.objs.Keys)
    ensures SameLayout(h.objs[id], UndoneObj(h, tx, id))
  {
    var o, o', a := h.objs[id], UndoneObj(h, tx, id), h.addr[id];
    assert ObjOk(o, h.objs.Keys);
    IdAtAddrOf(h, id);
    forall off | off in o'.fields ensures ValueOk(o'.fields[off], h.objs.Keys) {
      if a in tx.objectLogs && off in tx.objectLogs[a].values {
        assert ObjectLogOk(h, a, tx.objectLogs[a]);
        DecodeOk(h, id, off, tx.objectLogs[a].values[off]);
      }
    }
  }

  lemma UndoneExtends(h: Heap, tx: Tx)
    requires HeapOk(h) && TxOk(tx, h)
    ensures Extends(h, Undone(h, tx)) && Undone(h, tx).objs.Keys == h.objs.Keys
  {
    var h' := Undone(h, tx);
    assert h'.objs.Keys == h.objs.Keys;
    forall id | id in h.objs
      ensures ObjOk(h'.objs[id], h'.objs.Keys) && SameLayout(h.objs[id], h'.objs[id])
    {
      UndoneObjOk(h, tx, id);
    }
  }

  lemma {:induction false} UndoAllWithin(t: Tables, log: seq<Change>, ids: set<Id>)
    requires Mentions(log, ids) && t.strong <= ids && t.weak <= ids
    ensures UndoAll(t, log).Some? ==> UndoAll(t, log).value.strong <= ids && UndoAll(t, log).value.weak <= ids
    decreases |log|
  {
    if log != [] {
      assert log[0].str in ids;
      match Undo(t, log[0])
      case None =>
      case Some(t') => UndoAllWithin(t', log[1..], ids);
    }
  }

  /** Rolling back the innermost transaction, at one location that existed when it was entered
      and that nothing changed behind its log. Unless it is a header word, the location gets
      back the value it had at entry if and only if it was not written or its value is one the
      records stand for exactly; fields and integral elements always are. */
  lemma RollbackRestores(s: Sys, l: Loc)
    requires Inv(s) && s.stack != []
    requires l.id in s.h.objs && CellAt(s.snaps[0].objs, l) != Absent && l !in s.snaps[0].leaked
    requires !HeaderWord(s.snaps[0].objs, l)
    ensures CellAt(Undone(s.h, s.stack[0]).objs, l) == CellAt(s.snaps[0].objs, l)
       <==> l !in s.snaps[0].written || ExactCell(CellAt(s.snaps[0].objs, l))
  {
    assert LevelOk(s, 0);
    assert LevelAt(s.stack[0], s.h, s.snaps[0], s.h.objs, l);
    assert SameLayout(s.snaps[0].objs[l.id], s.h.objs[l.id]);
    UndoneCell(s.h, s.stack[0], l);
  }

  /** Outside the locations a rollback cannot restore, the innermost snapshot is back. */
  lemma RollbackRestoresSnapshot(s: Sys, l: Loc)
    requires Inv(s) && s.stack != []
    requires l.id in s.h.objs && CellAt(s.snaps[0].objs, l) != Absent
    requires l !in s.snaps[0].leaked + Unrestorable(s.snaps[0])
    ensures CellAt(Undone(s.h, s.stack[0]).objs, l) == CellAt(s.snaps[0].objs, l)
  {
    if HeaderWord(s.snaps[0].objs, l) {
      assert LevelOk(s, 0);
      assert LevelAt(s.stack[0], s.h, s.snaps[0], s.h.objs, l);
      assert SameLayout(s.snaps[0].objs[l.id], s.h.objs[l.id]);
      UndoneCell(s.h, s.stack[0], l);
    } else {
      RollbackRestores(s, l);
    }
  }

  /** Undoing the interning of the innermost transaction is not fatal exactly if every string it
      is to remove from a table is there by then, and what it leaves. If no interning leaked, that is so and both tables
      are back, except for weak entries whose strings have died. */
  lemma RollbackRestoresTables(s: Sys)
    requires Inv(s) && s.stack != []
    ensures Rollback(s).Some? <==> Undoable(s.tables, Changes(s.h.addr, s.stack[0].interns))
    ensures Rollback(s).Some? ==> var log := Changes(s.h.addr, s.stack[0].interns);
      forall c :: InTable(Rollback(s).value.tables, c) <==> PresentAfter(s.tables, log, c, |log|)
    ensures !s.snaps[0].internsLeaked ==>
              Rollback(s).Some? && Rollback(s).value.tables == Sweep(s.snaps[0].tables, s.h.objs.Keys)
    ensures Rollback(s).Some? ==>
              && Rollback(s).value.tables.strong <= s.h.objs.Keys
              && Rollback(s).value.tables.weak <= s.h.objs.Keys
  {
    UndoSucceedsExactlyWhen(s.tables, Changes(s.h.addr, s.stack[0].interns));
    hide Undoable, PresentAfter;
    assert LevelOk(s, 0);
    assert Extends(s.h, s.h);
    ChangesExtends(s.stack[0], s.h, s.h);
    UndoAllWithin(s.tables, Changes(s.h.addr, s.stack[0].interns), s.h.objs.Keys);
    assert s.tables.weak * s.h.objs.Keys == s.tables.weak;
  }

  lemma RollbackKeeps(s: Sys, s': Sys)
    requires Inv(s) && RollbackStep(s, s')
    ensures Inv(s')
    ensures s'.h.objs.Keys == s.h.objs.Keys && s'.h.addr == s.h.addr && SameLayouts(s.h.objs, s'.h.objs)
  {
    assert LevelOk(s, 0);
    UndoneExtends(s.h, s.stack[0]);
    RollbackRestoresTables(s);
    forall k | 0 <= k < |s'.stack| ensures LevelOk(s', k) {
      if k > 0 {
        PoppedLevel(s, s', k + 1);
      } else {
        forall l: Loc | l.id in s.h.objs && CellAt(s.snaps[0].objs, l) != Absent
          && l !in s'.snaps[0].leaked + s.snaps[1].written
          ensures CellAt(s'.h.objs, l) == CellAt(s.snaps[0].objs, l)
        {
          RollbackRestoresSnapshot(s, l);
        }
        assert !s'.snaps[0].internsLeaked ==>
          Sweep(s'.tables, s.h.objs.Keys) == Sweep(s.snaps[0].tables, s.h.objs.Keys) by {
          var w := s.snaps[0].tables.weak;
          assert w * s.h.objs.Keys * s.h.objs.Keys == w * s.h.objs.Keys;
        }
        EnclosingLevel(s, s');
      }
    }
  }

  /** What rolling back these transactions does not restore, when `lost` is what the ones inside
      them did not: what a transaction has not recorded by itself, what leaked before it did, and
      what its records do not restore, header words and inexact float elements. */
  ghost function LostFrom(lost: set<Loc>, snaps: seq<Snapshot>): set<Loc>
    decreases |snaps|
  {
    if snaps == [] then lost
    else LostFrom(snaps[0].leaked + Unrestorable(snaps[0]) + (lost - snaps[0].written), snaps[1..])
  }

  ghost function Lost(snaps: seq<Snapshot>): set<Loc> {
    LostFrom({}, snaps)
  }

  ghost predicate InternsLeaked(snaps: seq<Snapshot>) {
    exists k :: 0 <= k < |snaps| && snaps[k].internsLeaked
  }

  lemma LostAfterRollback(snaps: seq<Snapshot>, interns: bool)
    requires |snaps| > 1
    ensures Lost(Leak(snaps[1..], snaps[0].leaked + Unrestorable(snaps[0]), interns)) == Lost(snaps)
  {
    var leaks := snaps[0].leaked + Unrestorable(snaps[0]);
    var outer, outer' := snaps[1..], Leak(snaps[1..], leaks, interns);
    assert outer'[1..] == outer[1..];
    assert Unrestorable(outer'[0]) == Unrestorable(outer[0]);
    var lost := outer[0].leaked + Unrestorable(outer[0]) + (leaks - outer[0].written);
    assert outer'[0].leaked + Unrestorable(outer'[0]) + ({} - outer'[0].written) == lost;
    assert snaps[0].leaked + Unrestorable(snaps[0]) + ({} - snaps[0].written) == leaks;
    assert Lost(snaps) == LostFrom(leaks, outer) == LostFrom(lost, outer[1..]);
  }

  lemma LastRollback(s: Sys)
    requires Inv(s) && |s.stack| == 1
    ensures forall l: Loc :: l.id in s.h.objs && CellAt(s.snaps[0].objs, l) != Absent && l !in Lost(s.snaps) ==>
              CellAt(Undone(s.h, s.stack[0]).objs, l) == CellAt(s.snaps[0].objs, l)
  {
    var lost := s.snaps[0].leaked + Unrestorable(s.snaps[0]) + ({} - s.snaps[0].written);
    assert s.snaps[1..] == [] && Lost(s.snaps) == LostFrom(lost, []) == lost;
    forall l: Loc | l.id in s.h.objs && CellAt(s.snaps[0].objs, l) != Absent && l !in Lost(s.snaps)
      ensures CellAt(Undone(s.h, s.stack[0]).objs, l) == CellAt(s.snaps[0].objs, l)
    {
      RollbackRestoresSnapshot(s, l);
    }
  }

  /** What undoing the records of a transaction makes of `c` at a location. */
  ghost function Overwritten(tx: Tx, h: Heap, l: Loc, c: Cell): Cell {
    if Logged(tx, h, l) != Absent && !HeaderWord(h.objs, l) then Logged(tx, h, l) else c
  }

  /** The same for all of these transactions, innermost first. */
  ghost function Left(stack: seq<Tx>, h: Heap, l: Loc, c: Cell): Cell
    decreases |stack|
  {
    if stack == [] then c
    else Left(stack[1..], h, l, Overwritten(stack[0], h, l, c))
  }

  /** Records are read the same way as long as objects stay where they are. */
  lemma {:induction false} LeftExtends(stack: seq<Tx>, h: Heap, h': Heap, l: Loc, c: Cell)
    requires Extends(h, h') && l.id in h.objs && forall i :: 0 <= i < |stack| ==> TxOk(stack[i], h)
    ensures Left(stack, h', l, c) == Left(stack, h, l, c)
    decreases |stack|
  {
    hide Logged, TxOk;
    if stack != [] {
      LoggedExtends(stack[0], h, h', l);
      SameHeader(h, h', l);
      LeftExtends(stack[1..], h, h', l, Overwritten(stack[0], h, l, c));
    }
  }

  lemma SameHeader(h: Heap, h': Heap, l: Loc)
    requires Extends(h, h') && l.id in h.objs
    ensures HeaderWord(h'.objs, l) == HeaderWord(h.objs, l)
  {
    assert SameLayout(h.objs[l.id], h'.objs[l.id]);
  }

  lemma OneLessLeft(s: Sys, s1: Sys, l: Loc)
    requires Inv(s) && RollbackStep(s, s1) && CellAt(s.h.objs, l) != Absent
    ensures CellAt(s1.h.objs, l) != Absent
    ensures Left(s1.stack, s1.h, l, CellAt(s1.h.objs, l)) == Left(s.stack, s.h, l, CellAt(s.h.objs, l))
  {
    forall i | 0 <= i < |s.stack| ensures TxOk(s.stack[i], s.h) {
      assert LevelOk(s, i);
    }
    hide LevelOk, HeapOk, TxOk, Logged, Undone, UndoAll, Changes, Leak, Unrestorable, Extends, HeaderWord, Left;
    UndoneExtends(s.h, s.stack[0]);
    UndoneCell(s.h, s.stack[0], l);
    var c := CellAt(s1.h.objs, l);
    LeftExtends(s1.stack, s.h, s1.h, l, c);
    LeftIs(s.stack, s.h, l, CellAt(s.h.objs, l));
  }

  lemma LeftIs(stack: seq<Tx>, h: Heap, l: Loc, c: Cell)
    ensures stack != [] ==> Left(stack, h, l, c) == Left(stack[1..], h, l, Overwritten(stack[0], h, l, c))
    ensures stack == [] ==> Left(stack, h, l, c) == c
  {
  }

  /** What every location of a live object holds once everything is rolled back. */
  lemma {:induction false} RollbackAllLeaves(s: Sys, l: Loc)
    requires Inv(s) && CellAt(s.h.objs, l) != Absent
    ensures RollbackAll(s).Some? ==>
      CellAt(RollbackAll(s).value.h.objs, l) == Left(s.stack, s.h, l, CellAt(s.h.objs, l))
    decreases |s.stack|
  {
    hide LevelOk, HeapOk, Undone, Unrestorable, UndoAll, Changes, CellAt, Left, Leak;
    LeftIs(s.stack, s.h, l, CellAt(s.h.objs, l));
    if s.stack != [] {
      match Rollback(s)
      case None =>
      case Some(s1) =>
        RollbackKeeps(s, s1);
        OneLessLeft(s, s1, l);
        RollbackAllLeaves(s1, l);
    }
  }

  /** `RollbackAllTransactions` ends with no transaction left and the active flag cleared. Every
      location of every live object of the outermost snapshot that is not lost has the value it
      had when the outermost transaction was entered. */
  lemma {:induction false} RollbackAllKeeps(s: Sys)
    requires Inv(s) && s.stack != []
    ensures RollbackAll(s).Some? ==>
      var s', outermost := RollbackAll(s).value, s.snaps[|s.snaps| - 1];
      && Inv(s')
      && s'.stack == [] && !s'.active
      && s'.h.objs.Keys == s.h.objs.Keys && s'.h.addr == s.h.addr
      && SameLayouts(s.h.objs, s'.h.objs)
      && forall l: Loc :: l.id in s.h.objs && CellAt(outermost.objs, l) != Absent && l !in Lost(s.snaps) ==>
           CellAt(s'.h.objs, l) == CellAt(outermost.objs, l)
    decreases |s.stack|
  {
    hide LevelOk, HeapOk, Undone, Unrestorable, Lost, UndoAll, Changes, CellAt, SameLayout;
    match Rollback(s)
    case None =>
    case Some(s1) =>
      RollbackKeeps(s, s1);
      if s1.stack == [] {
        LastRollback(s);
      } else {
        RollbackAllKeeps(s1);
        LostAfterRollback(s.snaps, s.snaps[0].internsLeaked);
        assert s1.snaps[|s1.snaps| - 1].objs == s.snaps[|s.snaps| - 1].objs;
        LayoutsCompose(s.h.objs, s1.h.objs, RollbackAll(s1));
      }
  }

  /** What `RollbackAllTransactions` does to the heap: every location of a live object holds what the
      records leave there. So a location of the outermost snapshot is restored exactly if it is not
      lost, or its value from then is left there all the same. */
  lemma RollbackAllRestores(s: Sys)
    requires Inv(s) && s.stack != []
    ensures RollbackAll(s).Some? ==>
      var s', outermost := RollbackAll(s).value, s.snaps[|s.snaps| - 1];
      && Inv(s')
      && s'.stack == [] && !s'.active
      && s'.h.objs.Keys == s.h.objs.Keys && s'.h.addr == s.h.addr
      && SameLayouts(s.h.objs, s'.h.objs)
      && (forall l: Loc :: CellAt(s.h.objs, l) != Absent ==>
            CellAt(s'.h.objs, l) == Left(s.stack, s.h, l, CellAt(s.h.objs, l)))
      && (forall l: Loc :: l.id in s.h.objs && CellAt(outermost.objs, l) != Absent ==>
            (CellAt(s'.h.objs, l) == CellAt(outermost.objs, l)
             <==> l !in Lost(s.snaps) || Left(s.stack, s.h, l, CellAt(s.h.objs, l)) == CellAt(outermost.objs, l)))
  {
    hide LevelOk, HeapOk, Lost, RollbackAll, CellAt, Left, SameLayouts;
    RollbackAllKeeps(s);
    if RollbackAll(s).Some? {
      forall l: Loc | CellAt(s.h.objs, l) != Absent
        ensures CellAt(RollbackAll(s).value.h.objs, l) == Left(s.stack, s.h, l, CellAt(s.h.objs, l))
      {
        RollbackAllLeaves(s, l);
      }
      forall l: Loc | l.id in s.h.objs && CellAt(s.snaps[|s.snaps| - 1].objs, l) != Absent
        ensures CellAt(s.h.objs, l) != Absent
      {
        OutermostIsLive(s, l);
      }
    }
  }

  /** Live objects still have the locations they had when the outermost transaction was entered. */
  lemma OutermostIsLive(s: Sys, l: Loc)
    requires Inv(s) && s.stack != [] && l.id in s.h.objs && CellAt(s.snaps[|s.snaps| - 1].objs, l) != Absent
    ensures CellAt(s.h.objs, l) != Absent
  {
    assert LevelOk(s, |s.stack| - 1);
    assert SameLayout(s.snaps[|s.snaps| - 1].objs[l.id], s.h.objs[l.id]);
  }

  lemma LayoutsCompose(objs: map<Id, Obj>, objs1: map<Id, Obj>, r: Option<Sys>)
    requires SameLayouts(objs, objs1) && objs1.Keys == objs.Keys
    requires r.Some? ==> SameLayouts(objs1, r.value.h.objs)
    ensures r.Some? ==> SameLayouts(objs, r.value.h.objs)
  {
    if r.Some? {
      var objs2 := r.value.h.objs;
      forall id | id in objs && id in objs2 ensures SameLayout(objs[id], objs2[id]) {
        assert SameLayout(objs[id], objs1[id]) && SameLayout(objs1[id], objs2[id]);
      }
    }
  }

  /** The recorded interning of all transactions, newest first. */
  ghost function AllChanges(addr: map<Id, Addr>, stack: seq<Tx>): seq<Change>
    decreases |stack|
  {
    if stack == [] then [] else Changes(addr, stack[0].interns) + AllChanges(addr, stack[1..])
  }

  lemma {:induction false} RollbackAllTables(s: Sys)
    requires |s.snaps| == |s.stack| && s.active == (s.stack != [])
    ensures UndoAll(s.tables, AllChanges(s.h.addr, s.stack))
         == match RollbackAll(s) case None => None case Some(s') => Some(s'.tables)
    decreases |s.stack|
  {
    hide Changes, UndoAll, UndoneObj, Unrestorable;
    if s.active {
      UndoAllAppend(s.tables, Changes(s.h.addr, s.stack[0].interns), AllChanges(s.h.addr, s.stack[1..]));
      match Rollback(s)
      case None =>
      case Some(s1) => RollbackAllTables(s1);
    } else {
      assert UndoAll(s.tables, []) == Some(s.tables) by {
        EmptyUndo(s.tables);
      }
    }
  }

  lemma EmptyUndo(t: Tables)
    ensures UndoAll(t, []) == Some(t)
  {
  }

  /** A string that is still in a table once everything is rolled back: the oldest record about it,
      of any transaction, is a removal, or there is none and it is there already. */
  ghost predicate StaysInterned(s: Sys, c: Change) {
    var log := AllChanges(s.h.addr, s.stack);
    PresentAfter(s.tables, log, c, |log|)
  }

  /** `RollbackAllTransactions` is not fatal exactly if every string that some transaction is to
      remove from a table is there by then; and what it leaves in the tables. */
  lemma RollbackAllPossible(s: Sys)
    requires |s.snaps| == |s.stack| && s.active == (s.stack != [])
    ensures RollbackAll(s).Some? <==> Undoable(s.tables, AllChanges(s.h.addr, s.stack))
    ensures RollbackAll(s).Some? ==> forall c :: InTable(RollbackAll(s).value.tables, c) <==> StaysInterned(s, c)
  {
    hide RollbackAll, UndoAll, PresentAfter, Undoable, InTable, AllChanges;
    var log := AllChanges(s.h.addr, s.stack);
    RollbackAllTables(s);
    UndoSucceedsExactlyWhen(s.tables, log);
    if RollbackAll(s).Some? {
      forall c ensures InTable(RollbackAll(s).value.tables, c) <==> StaysInterned(s, c) {
        assert InTable(UndoAll(s.tables, log).value, c) <==> PresentAfter(s.tables, log, c, |log|);
      }
    }
  }

  /** What `RollbackAllTransactions` does to the intern tables. If no interning leaked anywhere, it is
      never fatal and restores those of the outermost snapshot, less the weak entries that have
      died. */
  lemma RollbackAllRestoresTables(s: Sys)
    requires Inv(s) && s.stack != []
    ensures RollbackAll(s).Some? <==> Undoable(s.tables, AllChanges(s.h.addr, s.stack))
    ensures RollbackAll(s).Some? ==> forall c :: InTable(RollbackAll(s).value.tables, c) <==> StaysInterned(s, c)
    ensures !InternsLeaked(s.snaps) ==>
      RollbackAll(s).Some? && RollbackAll(s).value.tables == Sweep(s.snaps[|s.snaps| - 1].tables, s.h.objs.Keys)
  {
    RollbackAllPossible(s);
    hide Inv, RollbackAll, InternsLeaked, Undoable, AllChanges, StaysInterned, InTable;
    if !InternsLeaked(s.snaps) {
      NothingLeaked(s);
    }
  }

  lemma {:induction false} NothingLeaked(s: Sys)
    requires Inv(s) && s.stack != [] && !InternsLeaked(s.snaps)
    ensures RollbackAll(s).Some?
    ensures RollbackAll(s).value.tables == Sweep(s.snaps[|s.snaps| - 1].tables, s.h.objs.Keys)
    decreases |s.stack|
  {
    RollbackRestoresTables(s);
    var s1 := Rollback(s).value;
    RollbackKeeps(s, s1);
    if s1.stack != [] {
      assert forall k :: 0 <= k < |s1.snaps| ==> s1.snaps[k].internsLeaked == s.snaps[k + 1].internsLeaked;
      NothingLeaked(s1);
    }
  }
}
