/** `AotClassLinker`'s stack of transactions and the mutator's operations under it. Every method
    performs exactly one step of a run, so that what holds of all runs holds of all sequences of
    calls. */
module AotClassLinkers {
  import opened Options
  import opened FieldValues
  import opened ManagedHeap
  import opened TransactionLog
  import opened InternTables
  import opened TransactionRuns
  import opened Transactions
  import TransactionRollback
  import TransactionSafety
  import TransactionTheorems
  import opened TransactionCollect

  ghost function Views(ts: seq<Transaction>): (r: seq<Tx>)
    reads ts
    ensures |r| == |ts| && forall i :: 0 <= i < |ts| ==> r[i] == ts[i].View()
  {
    if ts == [] then [] else [ts[0].View()] + Views(ts[1..])
  }

  ghost predicate Distinct(ts: seq<Transaction>) {
    forall i, j :: 0 <= i < j < |ts| ==> ts[i] != ts[j]
  }

  /** The recording the interpreter does after an allocation. */
  method RecordAllocation(transaction: Transaction, a: Addr, shape: Shape) returns (ghost tx: Tx)
    modifies transaction
    ensures transaction.View() == tx
    ensures tx == if shape.IsArray() then RecordNewArray(old(transaction.View()), a, shape.ObjectArray?)
                  else RecordNewObject(old(transaction.View()), a)
  {
    if shape.IsArray() {
      transaction.RecordNewArray(a, shape.ObjectArray?);
    } else {
      transaction.RecordNewObject(a);
    }
    tx := transaction.View();
  }

  class AotClassLinker {
    const rt: ManagedRuntime
    var transactions: seq<Transaction>
    ghost var snaps: seq<Snapshot>
    ghost var used: set<Id>

    ghost function State(): Sys
      reads this, rt, transactions
    {
      Sys(rt.heap, rt.tables, Views(transactions), snaps, rt.active, used)
    }

    ghost predicate Valid()
      reads this, rt, transactions
    {
      Distinct(transactions) && Inv(State())
    }

    constructor (rt: ManagedRuntime)
      requires HeapOk(rt.heap) && !rt.active
      requires rt.tables.strong <= rt.heap.objs.Keys && rt.tables.weak <= rt.heap.objs.Keys
      ensures Valid() && this.rt == rt && TransactionTheorems.Start(State())
    {
      this.rt, transactions, snaps, used := rt, [], [], rt.heap.objs.Keys;
    }

    /** The flag agrees with the stack whenever no method is running. */
    method IsActiveTransaction() returns (active: bool)
      requires Valid()
      ensures active <==> transactions != [] && !transactions[0].rollingBack
    {
      active := rt.active;
      if active {
        FrontTransaction(State());
      }
    }

    method EnterTransactionMode(strict: bool, root: Id)
      requires Valid() && (root == NULL || root in rt.heap.objs)
      modifies this, rt`active
      ensures Valid() && EnterStep(old(State()), State(), strict, root)
      ensures fresh(transactions[0]) && transactions[1..] == old(transactions)
    {
      hide Inv, Views, HeapOk, NewTx;
      ghost var s := State();
      ShapeOfState(s);
      var transaction := new Transaction(strict, AddrOf(rt.heap.addr, root));
      transactions := [transaction] + transactions;
      snaps := [Snapshot(rt.heap.objs, rt.tables, {}, {}, false)] + snaps;
      rt.active := true;
      assert transactions[1..] == old(transactions);
      assert Views(transactions) == [NewTx(strict, AddrOf(rt.heap.addr, root))] + s.stack;
      TransactionSafety.EnterKeeps(s, State(), strict, root);
    }

    method ExitTransactionMode()
      requires Valid() && transactions != []
      modifies this, rt`active
      ensures Valid() && ExitStep(old(State()), State())
      ensures transactions == old(transactions)[1..]
    {
      hide Inv, Views, HeapOk;
      ghost var s := State();
      ShapeOfState(s);
      ghost var inner := snaps[0];
      snaps := Leak(snaps[1..], inner.written + inner.leaked, inner.internsLeaked || transactions[0].internLogs != []);
      transactions := transactions[1..];
      if transactions == [] {
        rt.active := false;
      }
      assert Views(transactions) == s.stack[1..];
      TransactionSafety.ExitKeeps(s, State());
    }

    method RollbackAndExitTransactionMode() returns (ok: bool)
      requires Valid() && transactions != []
      modifies this, rt, transactions[0]
      ensures ok <==> Rollback(old(State())).Some?
      ensures ok <==> Undoable(old(rt.tables), Changes(old(rt.heap.addr), old(transactions[0].internLogs)))
      ensures ok ==> Valid() && RollbackStep(old(State()), State())
      ensures ok ==> transactions == old(transactions)[1..]
    {
      hide Inv, HeapOk, TxOk, Undone, Unrestorable, Views, Undoable, Leak, Changes, UndoAll, Rollback, Distinct;
      ghost var s := State();
      ShapeOfState(s);
      FrontTransaction(s);
      OtherTransactions(transactions);
      rt.active := false;
      ghost var rest := Views(transactions[1..]);
      RollbackPossible(s);
      ok := transactions[0].Rollback(rt);
      if !ok {
        return;
      }
      ghost var inner := snaps[0];
      snaps := Leak(snaps[1..], inner.leaked + Unrestorable(inner), inner.internsLeaked);
      transactions := transactions[1..];
      if transactions != [] {
        rt.active := true;
      }
      RollbackIs(s, State());
      TransactionRollback.RollbackKeeps(s, State());
    }

    /** `RollbackAllTransactions` terminates with no transaction left, and everything that is not
        lost is as it was when the outermost transaction was entered. */
    method RollbackAllTransactions() returns (ok: bool)
      requires Valid()
      modifies this, rt, transactions
      ensures RollbackAll(old(State())) == if ok then Some(State()) else None
      ensures ok <==>
        Undoable(old(rt.tables), TransactionRollback.AllChanges(old(rt.heap.addr), old(Views(transactions))))
      ensures ok ==> Valid() && transactions == [] && !rt.active
      ensures ok && old(transactions) != [] ==>
        var outermost := old(snaps)[|old(snaps)| - 1];
        forall l: Loc ::
          l.id in old(rt.heap).objs && CellAt(outermost.objs, l) != Absent
          && l !in TransactionRollback.Lost(old(snaps)) ==>
            CellAt(rt.heap.objs, l) == CellAt(outermost.objs, l)
      ensures ok ==> forall l: Loc :: CellAt(old(rt.heap).objs, l) != Absent ==>
        CellAt(rt.heap.objs, l)
        == TransactionRollback.Left(old(Views(transactions)), old(rt.heap), l, CellAt(old(rt.heap).objs, l))
    {
      hide Inv, HeapOk, Rollback, RollbackAll, RollbackStep, Views, Undoable, Distinct, CellAt;
      hide TransactionRollback.Left, TransactionRollback.Lost, TransactionRollback.AllChanges;
      ghost var s := State();
      ShapeOfState(s);
      TransactionRollback.RollbackAllPossible(s);
      while rt.active
        invariant Valid() && |snaps| == |transactions| && rt.active == (transactions != [])
        invariant RollbackAll(State()) == RollbackAll(s)
        invariant |transactions| <= |old(transactions)|
        invariant transactions == old(transactions)[|old(transactions)| - |transactions|..]
        decreases |transactions|
      {
        ghost var before := State();
        RollbackAllIs(before);
        ok := RollbackAndExitTransactionMode();
        if !ok {
          return;
        }
        ShapeOfState(State());
        StepOfRollback(before, State());
      }
      RollbackAllIs(State());
      ok := true;
      if old(transactions) != [] {
        TransactionRollback.RollbackAllRestores(s);
      } else {
        RollbackAllIs(s);
        NothingToRollBack(s);
      }
    }

    // --- The mutator --------------------------------------------------------------------------

    /** `SetField…` under the current mode: the old value is recorded before it is overwritten. */
    method WriteField(id: Id, off: int, v: Value, vol: bool)
      requires Valid() && id in rt.heap.objs && off in rt.heap.objs[id].fields && ValueOk(v, rt.heap.objs.Keys)
      modifies this, rt, transactions
      ensures Valid() && WriteFieldStep(old(State()), State(), id, off, v, vol)
      ensures transactions == old(transactions)
    {
      hide Inv, Views, HeapOk, TransactionLog.RecordWriteField, SetField;
      ghost var s := State();
      ShapeOfState(s);
      ContentsOk(rt.heap, id);
      var was := rt.heap.objs[id].fields[off];
      if rt.active {
        var fv := FieldValue(Raw(rt.heap.addr, was), KindOf(was), vol);
        transactions[0].RecordWriteField(rt.heap.addr[id], off, fv);
        snaps := snaps[0 := snaps[0].(written := snaps[0].written + {FieldAt(id, off)})];
        assert Views(transactions) == s.stack[0 := TransactionLog.RecordWriteField(s.stack[0], s.h.addr[id], off, fv)];
      }
      rt.heap := SetField(rt.heap, id, off, v);
      assert WriteFieldStep(s, State(), id, off, v, vol);
      TransactionSafety.WriteFieldKeeps(s, State(), id, off, v, vol);
    }

    /** `PrimitiveArray::SetWithoutChecks`. */
    method WriteElem(id: Id, i: int, e: Elem, undef: int)
      requires Valid() && IsU64(undef) && id in rt.heap.objs && rt.heap.objs[id].shape.PrimArray?
        && i in rt.heap.objs[id].elems
      requires ElemInRange(rt.heap.objs[id].shape.ty, e)
      modifies this, rt, transactions
      ensures Valid() && WriteElemStep(old(State()), State(), id, i, e, undef)
      ensures transactions == old(transactions)
    {
      hide Inv, Views, HeapOk;
      ghost var s := State();
      ShapeOfState(s);
      ContentsOk(rt.heap, id);
      if rt.active {
        var u := WidenElem(rt.heap.objs[id].elems[i], undef);
        transactions[0].RecordWriteArray(rt.heap.addr[id], i, u);
        snaps := snaps[0 := snaps[0].(written := snaps[0].written + {ElemAt(id, i)})];
        assert Views(transactions) == s.stack[0 := TransactionLog.RecordWriteArray(s.stack[0], s.h.addr[id], i, u)];
      }
      rt.heap := SetElem(rt.heap, id, i, e);
      assert WriteElemStep(s, State(), id, i, e, undef);
      TransactionSafety.WriteElemKeeps(s, State(), id, i, e, undef);
    }

    /** Allocation by the interpreter, which tells the transaction. */
    method NewObject(id: Id, a: Addr, o: Obj)
      requires Valid() && id != NULL && id !in used && a != NULL && IsU64(a) && !IsAddress(rt.heap.addr, a)
      requires id !in rt.heap.objs && ObjOk(o, rt.heap.objs.Keys + {id})
      modifies this, rt, transactions
      ensures Valid() && AllocStep(old(State()), State(), id, a, o, true)
      ensures transactions == old(transactions)
    {
      hide Inv, Views, HeapOk, ObjOk, RecordNewArray, RecordNewObject, ValueOk;
      ghost var s := State();
      ShapeOfState(s);
      if rt.active {
        ghost var front := RecordAllocation(transactions[0], a, o.shape);
        assert snaps[0].(written := snaps[0].written + {}) == snaps[0];
        assert Views(transactions) == s.stack[0 := front];
      }
      rt.heap := Heap(rt.heap.objs[id := o], rt.heap.addr[id := a]);
      used := used + {id};
      assert AllocStep(s, State(), id, a, o, true);
      TransactionSafety.AllocKeeps(s, State(), id, a, o, true);
    }

    /** `InternTable::InsertStrong`, `InsertWeak`, `RemoveWeak` and the recording of a strong
        removal: the change is recorded and then made. */
    method ChangeInternTable(id: Id, strong: bool, insert: bool)
      requires Valid() && id in rt.heap.objs && InternTables.Valid(rt.tables, Change(id, strong, insert))
      modifies this, rt, transactions
      ensures Valid() && InternStep(old(State()), State(), id, strong, insert)
      ensures transactions == old(transactions)
    {
      hide Inv, Views, HeapOk, InternTables.Valid, Apply;
      ghost var s := State();
      ShapeOfState(s);
      if rt.active {
        transactions[0].LogInternedString(InternLog(rt.heap.addr[id], strong, insert));
        assert snaps[0].(written := snaps[0].written + {}) == snaps[0];
        assert Views(transactions) == s.stack[0 := transactions[0].View()];
      }
      rt.tables := Apply(rt.tables, Change(id, strong, insert));
      assert InternStep(s, State(), id, strong, insert);
      TransactionSafety.InternKeeps(s, State(), id, strong, insert);
    }

    /** Every transaction on the stack updates its records. */
    method VisitTransactionRoots(fwd: map<Addr, Addr>) returns (ok: bool)
      requires Distinct(transactions)
      requires forall k :: 0 <= k < |transactions| ==> KeysInjective(fwd, transactions[k].View())
      modifies transactions
      ensures ok <==> NoClashes(fwd, old(Views(transactions)))
      ensures ok ==> forall k :: 0 <= k < |transactions| ==>
        Visited(fwd, old(Views(transactions))[k], transactions[k].View())
    {
      hide Views, Visited, NoDownwardClash, InjectiveOn;
      ghost var stack := Views(transactions);
      for k := 0 to |transactions|
        invariant forall j :: 0 <= j < k ==> NoClash(fwd, stack[j]) && Visited(fwd, stack[j], transactions[j].View())
        invariant forall j :: k <= j < |transactions| ==>
          transactions[j].View() == stack[j] && KeysInjective(fwd, stack[j])
      {
        assert transactions[k].View() == stack[k];
        ok := transactions[k].VisitRoots(fwd);
        assert ok <==> NoClash(fwd, stack[k]);
        if !ok {
          assert !NoClashes(fwd, stack);
          return;
        }
      }
      ok := true;
    }

    /** The collector keeps every root the transactions report. */
    ghost predicate CollectionLeaves(h: Heap, fwd: map<Addr, Addr>)
      reads this, rt, transactions
    {
      && Collected(rt.heap, h)
      && (forall k :: 0 <= k < |transactions| ==> RootsKept(transactions[k].View(), rt.heap, h))
      && rt.tables.strong <= h.objs.Keys
      && fwd == Forwarding(rt.heap, h)
    }

    /** A collection that leaves the heap `h`: it completes if and only if no log has a clash. */
    method CollectGarbage(h: Heap, fwd: map<Addr, Addr>) returns (ok: bool)
      requires Valid() && CollectionLeaves(h, fwd)
      modifies rt, transactions
      ensures ok <==> NoClashes(fwd, old(Views(transactions)))
      ensures ok ==> Valid() && CollectStep(old(State()), State())
    {
      hide LevelOk, Visited, NoDownwardClash, IsRoot, Views, HeapOk, InjectiveOn;
      ghost var s := State();
      forall k | 0 <= k < |transactions| ensures KeysInjective(fwd, transactions[k].View()) {
        ForwardingInjective(s, h, k);
      }
      ok := VisitTransactionRoots(fwd);
      if ok {
        rt.heap := h;
        rt.tables := Sweep(rt.tables, h.objs.Keys);
        CollectedStep(s, State());
        CollectKeeps(s, State());
      }
    }
  }

  /** The transactions below the innermost one are others. */
  lemma OtherTransactions(ts: seq<Transaction>)
    requires ts != [] && Distinct(ts)
    ensures ts[0] !in ts[1..] && Distinct(ts[1..]) && Views(ts)[0] == ts[0].View() && Views(ts)[1..] == Views(ts[1..])
  {
  }

  lemma RollbackAllIs(s: Sys)
    requires |s.snaps| == |s.stack| && s.active == (s.stack != [])
    ensures !s.active ==> RollbackAll(s) == Some(s)
    ensures s.active ==> match Rollback(s)
      case None => RollbackAll(s) == None
      case Some(s') => |s'.snaps| == |s'.stack| && s'.active == (s'.stack != []) && RollbackAll(s) == RollbackAll(s')
  {
  }

  lemma StepOfRollback(s: Sys, s': Sys)
    requires RollbackStep(s, s')
    ensures s.stack != [] && |s.snaps| == |s.stack| && Rollback(s) == Some(s')
  {
  }

  lemma NothingToRollBack(s: Sys)
    requires s.stack == []
    ensures forall l, c :: TransactionRollback.Left(s.stack, s.h, l, c) == c
  {
  }

  lemma RollbackPossible(s: Sys)
    requires s.stack != [] && |s.snaps| == |s.stack|
    ensures var log := Changes(s.h.addr, s.stack[0].interns);
      && (Rollback(s).Some? <==> UndoAll(s.tables, log).Some?)
      && (UndoAll(s.tables, log).Some? <==> Undoable(s.tables, log))
  {
    UndoSucceedsExactlyWhen(s.tables, Changes(s.h.addr, s.stack[0].interns));
  }

  lemma RollbackIs(s: Sys, s': Sys)
    requires s.stack != [] && |s.snaps| == |s.stack|
    requires UndoAll(s.tables, Changes(s.h.addr, s.stack[0].interns)) == Some(s'.tables)
    requires s'.h == Undone(s.h, s.stack[0]) && s'.stack == s.stack[1..] && s'.active == (s.stack[1..] != [])
    requires s'.snaps == Leak(s.snaps[1..], s.snaps[0].leaked + Unrestorable(s.snaps[0]), s.snaps[0].internsLeaked)
    requires s'.used == s.used
    ensures RollbackStep(s, s')
  {
  }

  ghost predicate KeysInjective(fwd: map<Addr, Addr>, tx: Tx) {
    InjectiveOn(fwd, tx.objectLogs.Keys) && InjectiveOn(fwd, tx.arrayLogs.Keys)
  }

  ghost predicate NoClashes(fwd: map<Addr, Addr>, stack: seq<Tx>) {
    forall k :: 0 <= k < |stack| ==> NoClash(fwd, stack[k])
  }

  lemma CollectedStep(s: Sys, s': Sys)
    requires Collected(s.h, s'.h) && |s'.stack| == |s.stack|
      && s' == s.(h := s'.h, stack := s'.stack, tables := s'.tables)
    requires forall k :: 0 <= k < |s.stack| ==> RootsKept(s.stack[k], s.h, s'.h)
    requires s.tables.strong <= s'.h.objs.Keys && s'.tables == Sweep(s.tables, s'.h.objs.Keys)
    requires NoClashes(Forwarding(s.h, s'.h), s.stack)
    requires forall k :: 0 <= k < |s.stack| ==> Visited(Forwarding(s.h, s'.h), s.stack[k], s'.stack[k])
    ensures CollectStep(s, s')
  {
    hide HeapOk, Visited, NoDownwardClash, IsRoot, Forwarding;
    forall k | 0 <= k < |s.stack| ensures CollectTx(s, s', k) {
      assert NoClash(Forwarding(s.h, s'.h), s.stack[k]);
    }
    forall k, a | 0 <= k < |s.stack| && IsRoot(s.stack[k], a) ensures IdAt(s.h.addr, a) in s'.h.objs {
      assert RootsKept(s.stack[k], s.h, s'.h);
    }
  }

  /** Neither log of the transaction has a moved key landing on a smaller moved key. */
  ghost predicate NoClash(fwd: map<Addr, Addr>, tx: Tx) {
    NoDownwardClash(fwd, tx.objectLogs.Keys) && NoDownwardClash(fwd, tx.arrayLogs.Keys)
  }

  lemma ContentsOk(h: Heap, id: Id)
    requires HeapOk(h) && id in h.objs
    ensures id in h.addr && ObjOk(h.objs[id], h.objs.Keys)
  {
  }

  lemma ShapeOfState(s: Sys)
    requires Inv(s)
    ensures HeapOk(s.h) && s.h.addr.Keys == s.h.objs.Keys
    ensures |s.snaps| == |s.stack| && s.active == (s.stack != [])
  {
  }

  lemma TransactionOk(s: Sys, k: nat)
    requires Inv(s) && k < |s.stack|
    ensures TxOk(s.stack[k], s.h)
  {
    assert LevelOk(s, k);
  }

  lemma FrontTransaction(s: Sys)
    requires Inv(s) && s.stack != []
    ensures HeapOk(s.h) && TxOk(s.stack[0], s.h) && !s.stack[0].rollingBack
  {
    assert LevelOk(s, 0);
  }

  /** Different keys of a log go to different addresses. */
  lemma ForwardingInjective(s: Sys, h': Heap, k: nat)
    requires Inv(s) && k < |s.stack| && Collected(s.h, h') && RootsKept(s.stack[k], s.h, h')
    ensures KeysInjective(Forwarding(s.h, h'), s.stack[k])
  {
    hide LevelOk, HeapOk, ObjectLogOk, ArrayLogOk, Forwarding;
    assert TxOk(s.stack[k], s.h) by {
      TransactionOk(s, k);
    }
    var fwd, tx := Forwarding(s.h, h'), s.stack[k];
    forall a, b | (a in tx.objectLogs || a in tx.arrayLogs) && (b in tx.objectLogs || b in tx.arrayLogs)
      ensures Visit(fwd, a) == Visit(fwd, b) ==> a == b
    {
      KeyIsRoot(tx, s.h, h', a);
      KeyIsRoot(tx, s.h, h', b);
      if Visit(fwd, a) == Visit(fwd, b) {
        SameObjectSameAddress(s.h, h', a, b);
      }
    }
  }

  lemma SameObjectSameAddress(h: Heap, h': Heap, a: Addr, b: Addr)
    requires Collected(h, h') && a != NULL && b != NULL && IsAddress(h.addr, a) && IsAddress(h.addr, b)
    requires IdAt(h.addr, a) in h'.objs && IdAt(h.addr, b) in h'.objs
    requires Visit(Forwarding(h, h'), a) == Visit(Forwarding(h, h'), b)
    ensures a == b
  {
    VisitKeepsIdentity(h, h', a);
    VisitKeepsIdentity(h, h', b);
    AddrOfIdAt(h, a);
    AddrOfIdAt(h, b);
  }
}
