/** What holds of every run. */
module TransactionTheorems {
  import opened FieldValues
  import opened ManagedHeap
  import opened TransactionLog
  import opened InternTables
  import opened TransactionRuns
  import opened TransactionSafety
  import opened TransactionRollback
  import opened TransactionCollect

  /** A consistent heap and intern tables, with no transaction entered. */
  ghost predicate Start(s: Sys) {
    && HeapOk(s.h)
    && s.h.objs.Keys <= s.used
    && s.tables.strong <= s.h.objs.Keys && s.tables.weak <= s.h.objs.Keys
    && s.stack == [] && s.snaps == [] && !s.active
  }

  ghost predicate IsRun(states: seq<Sys>, steps: seq<Step>) {
    && |states| == |steps| + 1
    && Start(states[0])
    && forall i :: 0 <= i < |steps| ==> Next(states[i], steps[i], states[i + 1])
  }

  lemma StepKeepsInvariant(s: Sys, step: Step, s': Sys)
    requires Inv(s) && Next(s, step, s')
    ensures Inv(s')
  {
    hide Inv, WriteFieldStep, WriteElemStep, AllocStep, InternStep, CollectStep, EnterStep, ExitStep, RollbackStep;
    match step
    case WriteField(id, off, v, vol) => WriteFieldKeeps(s, s', id, off, v, vol);
    case WriteElem(id, i, e, undef) => WriteElemKeeps(s, s', id, i, e, undef);
    case Alloc(id, a, o, recorded) => AllocKeeps(s, s', id, a, o, recorded);
    case Intern(id, strong, insert) => InternKeeps(s, s', id, strong, insert);
    case Collect => CollectKeeps(s, s');
    case Enter(strict, root) => EnterKeeps(s, s', strict, root);
    case Exit => ExitKeeps(s, s');
    case RollbackAndExit => RollbackKeeps(s, s');
  }

  /** Every reachable state satisfies the invariant: in particular the active flag is set exactly
      while a transaction is on the stack, and every transaction's records are consistent with
      the heap and with the snapshot taken when it was entered. */
  lemma {:induction false} RunsKeepInvariant(states: seq<Sys>, steps: seq<Step>, n: nat)
    requires IsRun(states, steps) && n <= |steps|
    ensures Inv(states[n])
  {
    if n > 0 {
      RunsKeepInvariant(states, steps, n - 1);
      StepKeepsInvariant(states[n - 1], steps[n - 1], states[n]);
    }
  }

  // --- One transaction --------------------------------------------------------------------------

  /** The location a step writes. */
  function Target(step: Step): set<Loc> {
    match step
    case WriteField(id, off, _, _) => {FieldAt(id, off)}
    case WriteElem(id, i, _, _) => {ElemAt(id, i)}
    case _ => {}
  }

  function Targets(steps: seq<Step>): set<Loc> {
    if steps == [] then {} else Targets(steps[..|steps| - 1]) + Target(steps[|steps| - 1])
  }

  /** A run that enters one transaction and then writes, allocates, interns and collects. */
  ghost predicate OneTransaction(states: seq<Sys>, steps: seq<Step>) {
    && IsRun(states, steps)
    && steps != [] && steps[0].Enter?
    && forall i :: 0 < i < |steps| ==> !steps[i].Enter? && !steps[i].Exit? && !steps[i].RollbackAndExit?
  }

  lemma {:induction false} OneSnapshot(states: seq<Sys>, steps: seq<Step>, n: nat)
    requires OneTransaction(states, steps) && 1 <= n <= |steps|
    ensures |states[n].stack| == |states[n].snaps| == 1
    ensures states[n].snaps[0] == Snapshot(states[0].h.objs, states[0].tables, Targets(steps[..n]), {}, false)
  {
    if n == 1 {
      assert Next(states[0], steps[0], states[1]);
      assert steps[..1] == [steps[0]] && Targets([steps[0]]) == Targets([]) + {} by { assert [steps[0]][..0] == []; }
    } else {
      OneSnapshot(states, steps, n - 1);
      assert Next(states[n - 1], steps[n - 1], states[n]);
      assert steps[..n][..n - 1] == steps[..n - 1];
    }
  }

  /** Rollback exactness. Whatever one transaction did, and however often objects were moved in
      the meantime, its rollback is possible and gives every live object that existed before the
      transaction the contents it had then: every field except the class word and the length of
      an array, and every primitive array element, with the one exception that a written
      floating-point element comes back if and only if it held a non-negative whole number. The
      intern tables are back as well, less the weak entries that have died. */
  lemma OneTransactionRollback(states: seq<Sys>, steps: seq<Step>, l: Loc)
    requires OneTransaction(states, steps)
    ensures var s0, s := states[0], states[|steps|];
      && Inv(s) && s.stack != []
      && Rollback(s).Some?
      && var s' := Rollback(s).value;
      && s'.stack == [] && !s'.active && s'.h.addr == s.h.addr
      && s'.tables == Sweep(s0.tables, s.h.objs.Keys)
      && (l.id in s.h.objs && CellAt(s0.h.objs, l) != Absent && !HeaderWord(s0.h.objs, l) ==>
            (CellAt(s'.h.objs, l) == CellAt(s0.h.objs, l)
             <==> l !in Targets(steps) || ExactCell(CellAt(s0.h.objs, l))))
  {
    var s := states[|steps|];
    RunsKeepInvariant(states, steps, |steps|);
    OneSnapshot(states, steps, |steps|);
    assert steps[..|steps|] == steps;
    RollbackRestoresTables(s);
    if l.id in s.h.objs && CellAt(states[0].h.objs, l) != Absent && !HeaderWord(states[0].h.objs, l) {
      RollbackRestores(s, l);
    }
  }

  // --- Nested transactions ----------------------------------------------------------------------

  /** A run that enters an outermost transaction and has not left it yet. */
  ghost predicate Within(states: seq<Sys>, steps: seq<Step>) {
    && IsRun(states, steps)
    && steps != [] && steps[0].Enter?
    && forall i :: 0 < i < |states| ==> states[i].stack != []
  }

  lemma {:induction false} OutermostSnapshot(states: seq<Sys>, steps: seq<Step>, n: nat)
    requires Within(states, steps) && 1 <= n <= |steps|
    ensures |states[n].stack| == |states[n].snaps|
    ensures var snaps := states[n].snaps;
            && snaps[|snaps| - 1].objs == states[0].h.objs
            && snaps[|snaps| - 1].tables == states[0].tables
  {
    assert Next(states[n - 1], steps[n - 1], states[n]);
    if n > 1 {
      OutermostSnapshot(states, steps, n - 1);
    }
  }

  /** However transactions nested, committed and rolled back, `RollbackAllTransactions` is possible
      exactly if no removal from an intern table misses its string. It ends with an empty stack and
      a cleared active flag, and every location of every live object holds what the records leave
      there. One that existed before the outermost transaction has its value from then exactly if it
      is not lost, or that value is left there all the same. It is lost if a nested transaction
      committed a write to it before any enclosing one recorded it, or it is a written header word
      or inexact float element. */
  lemma NestedRollback(states: seq<Sys>, steps: seq<Step>)
    requires Within(states, steps)
    ensures var s0, s := states[0], states[|steps|];
      && Inv(s) && s.stack != []
      && (RollbackAll(s).Some? <==> Undoable(s.tables, AllChanges(s.h.addr, s.stack)))
      && (!InternsLeaked(s.snaps) ==>
            RollbackAll(s).Some? && RollbackAll(s).value.tables == Sweep(s0.tables, s.h.objs.Keys))
      && (RollbackAll(s).Some? ==>
            var s' := RollbackAll(s).value;
            && s'.stack == [] && !s'.active
            && s'.h.objs.Keys == s.h.objs.Keys && s'.h.addr == s.h.addr
            && (forall l: Loc :: CellAt(s.h.objs, l) != Absent ==>
                  CellAt(s'.h.objs, l) == Left(s.stack, s.h, l, CellAt(s.h.objs, l)))
            && (forall l: Loc :: l.id in s.h.objs && CellAt(s0.h.objs, l) != Absent ==>
                  (CellAt(s'.h.objs, l) == CellAt(s0.h.objs, l)
                   <==> l !in Lost(s.snaps) || Left(s.stack, s.h, l, CellAt(s.h.objs, l)) == CellAt(s0.h.objs, l))))
  {
    hide *;
    WithinIsRun(states, steps);
    var s := states[|steps|];
    RunsKeepInvariant(states, steps, |steps|);
    OutermostSnapshot(states, steps, |steps|);
    RollbackAllRestores(s);
    RollbackAllRestoresTables(s);
  }

  lemma WithinIsRun(states: seq<Sys>, steps: seq<Step>)
    requires Within(states, steps)
    ensures IsRun(states, steps) && |states| == |steps| + 1 && steps != [] && states[|steps|].stack != []
  {
  }

  // --- Objects allocated in a transaction -------------------------------------------------------

  /** `id` refers to `t` through a field. */
  ghost predicate RefersTo(objs: map<Id, Obj>, id: Id, off: int, t: Id) {
    CellAt(objs, FieldAt(id, off)) == Field(Reference(t)) && t != NULL
  }

  /** A path of references, none of them through a field in `lost`. */
  ghost predicate IsPath(objs: map<Id, Obj>, lost: set<Loc>, path: seq<Id>) {
    && path != []
    && (|path| > 1 ==>
          && (exists off :: RefersTo(objs, path[0], off, path[1]) && FieldAt(path[0], off) !in lost)
          && IsPath(objs, lost, path[1..]))
  }

  ghost predicate Closed(objs: map<Id, Obj>) {
    forall id :: id in objs ==> ObjOk(objs[id], objs.Keys)
  }

  /** Every field both heaps have holds the same, if it is not in `lost`. */
  ghost predicate AgreeOnFields(before: map<Id, Obj>, after: map<Id, Obj>, lost: set<Loc>) {
    forall id, off :: id in before && id in after && FieldAt(id, off) !in lost ==>
      CellAt(after, FieldAt(id, off)) == CellAt(before, FieldAt(id, off))
  }

  lemma {:induction false} PathStays(before: map<Id, Obj>, after: map<Id, Obj>, lost: set<Loc>, path: seq<Id>)
    requires Closed(before) && Closed(after) && AgreeOnFields(before, after, lost)
    requires IsPath(after, lost, path) && path[0] in before && path[0] in after
    ensures path[|path| - 1] in before
    decreases |path|
  {
    if |path| > 1 {
      var off :| RefersTo(after, path[0], off, path[1]) && FieldAt(path[0], off) !in lost;
      assert CellAt(before, FieldAt(path[0], off)) == Field(Reference(path[1]));
      assert ObjOk(before[path[0]], before.Keys) && ObjOk(after[path[0]], after.Keys);
      PathStays(before, after, lost, path[1..]);
    }
  }

  /** Objects allocated since the outermost transaction was entered cannot be reached from the
      objects that existed before, once everything is rolled back, so there was no need to keep
      records for them. The only exception are paths through a lost field. */
  lemma NewObjectsUnreachable(states: seq<Sys>, steps: seq<Step>, path: seq<Id>)
    requires Within(states, steps) && |states[|steps|].snaps| == |states[|steps|].stack| && states[|steps|].active
    requires RollbackAll(states[|steps|]).Some?
    requires IsPath(RollbackAll(states[|steps|]).value.h.objs, Lost(states[|steps|].snaps), path)
    requires path[0] in states[0].h.objs && path[0] in states[|steps|].h.objs
    ensures path[|path| - 1] in states[0].h.objs
  {
    hide Next, HeaderWord, CellAt, Lost, RollbackAll, InternsLeaked, Sweep, ObjOk, SameLayouts, IsPath, LevelOk;
    var s0, s := states[0], states[|steps|];
    var s' := RollbackAll(s).value;
    NestedRollback(states, steps);
    OutermostSnapshot(states, steps, |steps|);
    RollbackAllRestores(s);
    OutermostLayouts(s);
    AgreementAfterRollback(s0.h.objs, s.h.objs, s'.h.objs, Lost(s.snaps));
    PathStays(s0.h.objs, s'.h.objs, Lost(s.snaps), path);
  }

  /** Nor is any of them left in an intern table, exactly if for each of them and each table the
      oldest record is an insertion, or there is none and it is not there. It is so if no committed
      nested transaction interned. */
  lemma NewStringsNotInterned(states: seq<Sys>, steps: seq<Step>)
    requires Within(states, steps) && |states[|steps|].snaps| == |states[|steps|].stack| && states[|steps|].active
    ensures var s0, s := states[0], states[|steps|];
      && (RollbackAll(s).Some? ==>
            var t := RollbackAll(s).value.tables;
            (t.strong <= s0.h.objs.Keys && t.weak <= s0.h.objs.Keys
             <==> forall c: Change :: c.str !in s0.h.objs ==> !StaysInterned(s, c)))
      && (!InternsLeaked(s.snaps) ==>
            && RollbackAll(s).Some?
            && forall c: Change :: c.str !in s0.h.objs ==> !StaysInterned(s, c))
  {
    hide Next, RollbackAll, InternsLeaked, Inv, HeapOk, CellAt, Lost, StaysInterned, Undoable, AllChanges;
    NestedRollback(states, steps);
    var s0, s := states[0], states[|steps|];
    RollbackAllPossible(s);
    if RollbackAll(s).Some? {
      WithinExactlyWhen(RollbackAll(s).value.tables, s0.h.objs.Keys);
    }
  }

  lemma WithinExactlyWhen(t: Tables, ids: set<Id>)
    ensures t.strong <= ids && t.weak <= ids <==> forall c: Change :: c.str !in ids ==> !InTable(t, c)
  {
    if forall c: Change :: c.str !in ids ==> !InTable(t, c) {
      forall x | x in t.strong ensures x in ids {
        assert InTable(t, Change(x, true, true));
      }
      forall x | x in t.weak ensures x in ids {
        assert InTable(t, Change(x, false, true));
      }
    }
  }

  lemma OutermostLayouts(s: Sys)
    requires Inv(s) && s.stack != []
    ensures SameLayouts(s.snaps[|s.snaps| - 1].objs, s.h.objs)
  {
    assert LevelOk(s, |s.stack| - 1);
  }

  lemma AgreementAfterRollback(before: map<Id, Obj>, during: map<Id, Obj>, after: map<Id, Obj>, lost: set<Loc>)
    requires SameLayouts(before, during) && SameLayouts(during, after) && after.Keys == during.Keys
    requires forall l: Loc :: l.id in during && CellAt(before, l) != Absent && l !in lost ==>
               CellAt(after, l) == CellAt(before, l)
    ensures AgreeOnFields(before, after, lost)
  {
    forall id, off | id in before && id in after && FieldAt(id, off) !in lost
      ensures CellAt(after, FieldAt(id, off)) == CellAt(before, FieldAt(id, off))
    {
      assert SameLayout(before[id], during[id]) && SameLayout(during[id], after[id]);
    }
  }
}
