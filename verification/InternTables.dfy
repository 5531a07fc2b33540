/** The strong and weak intern tables, their recorded changes, and the undoing of those changes
    from the newest to the oldest. */
module InternTables {
  import opened Options

  datatype Tables = Tables(strong: set<int>, weak: set<int>)

  /** One recorded change: an insertion into, or a removal from, one of the two tables. */
  datatype Change = Change(str: int, strong: bool, insert: bool)

  predicate InTable(t: Tables, c: Change) {
    if c.strong then c.str in t.strong else c.str in t.weak
  }

  function Insert(t: Tables, s: int, strong: bool): Tables {
    if strong then t.(strong := t.strong + {s}) else t.(weak := t.weak + {s})
  }

  function Remove(t: Tables, s: int, strong: bool): Tables {
    if strong then t.(strong := t.strong - {s}) else t.(weak := t.weak - {s})
  }

  /** The intern table inserts only what is missing and removes only what is present. */
  predicate Valid(t: Tables, c: Change) {
    InTable(t, c) != c.insert
  }

  function Apply(t: Tables, c: Change): Tables {
    if c.insert then Insert(t, c.str, c.strong) else Remove(t, c.str, c.strong)
  }

  /** `InternStringLog::Undo`. Removing a string that is not in the table is fatal. */
  function Undo(t: Tables, c: Change): Option<Tables> {
    if c.insert then
      if InTable(t, c) then Some(Remove(t, c.str, c.strong)) else None
    else Some(Insert(t, c.str, c.strong))
  }

  /** `UndoInternStringTableModifications`: the log is walked from its front. */
  function UndoAll(t: Tables, log: seq<Change>): Option<Tables>
    decreases |log|
  {
    if log == [] then Some(t)
    else match Undo(t, log[0])
      case None => None
      case Some(t') => UndoAll(t', log[1..])
  }

  /** The tables after making the changes in order. */
  function Run(t: Tables, changes: seq<Change>): Tables {
    if changes == [] then t else Apply(Run(t, Init(changes)), Last(changes))
  }

  predicate AllValid(t: Tables, changes: seq<Change>) {
    changes == [] || (AllValid(t, Init(changes)) && Valid(Run(t, Init(changes)), Last(changes)))
  }

  /** The log after recording the changes in order, each pushed to the front. */
  function LogOf(changes: seq<Change>): seq<Change> {
    if changes == [] then [] else [Last(changes)] + LogOf(Init(changes))
  }

  function Init(changes: seq<Change>): (r: seq<Change>)
    requires changes != []
  {
    changes[..|changes| - 1]
  }

  function Last(changes: seq<Change>): (c: Change)
    requires changes != []
  {
    changes[|changes| - 1]
  }

  lemma UndoApply(t: Tables, c: Change)
    requires Valid(t, c)
    ensures Undo(Apply(t, c), c) == Some(t)
  {
    assert t.strong + {c.str} - {c.str} == if c.str in t.strong then t.strong - {c.str} else t.strong;
    assert t.weak + {c.str} - {c.str} == if c.str in t.weak then t.weak - {c.str} else t.weak;
    assert c.str in t.strong ==> t.strong - {c.str} + {c.str} == t.strong;
    assert c.str in t.weak ==> t.weak - {c.str} + {c.str} == t.weak;
  }

  /** Undoing the log restores both tables exactly, for every sequence of valid changes. */
  lemma {:induction false} UndoRestoresTables(t: Tables, changes: seq<Change>)
    requires AllValid(t, changes)
    ensures UndoAll(Run(t, changes), LogOf(changes)) == Some(t)
    decreases |changes|
  {
    if changes != [] {
      UndoRestoresTables(t, Init(changes));
      UndoAllAfterChange(Run(t, Init(changes)), Last(changes), LogOf(Init(changes)));
    }
  }

  // --- Exactly when undoing is possible, and what it leaves ---------------------------------------

  /** Both records are about the same string in the same table. */
  predicate SameEntry(c: Change, d: Change) {
    c.str == d.str && c.strong == d.strong
  }

  /** Among the newest `n` records, the oldest one about the string and table of `c`, or -1. Records
      are newest first, so for `c == log[n]` it is the nearest newer record of the same entry. */
  function Nearest(log: seq<Change>, c: Change, n: int): (j: int)
    requires 0 <= n <= |log|
    ensures -1 <= j < n
    ensures j >= 0 ==> SameEntry(log[j], c)
    ensures forall i :: j < i < n ==> !SameEntry(log[i], c)
    decreases n
  {
    if n == 0 then -1
    else if SameEntry(log[n - 1], c) then n - 1
    else Nearest(log, c, n - 1)
  }

  /** Whether the string of `c` is in its table once the newest `n` records are undone: their oldest
      record about it is a removal, or there is none and it is there now. */
  predicate PresentAfter(t: Tables, log: seq<Change>, c: Change, n: int)
    requires 0 <= n <= |log|
  {
    var j := Nearest(log, c, n);
    if j < 0 then InTable(t, c) else !log[j].insert
  }

  /** For every recorded insertion, the nearest newer record about the same string and table is a
      removal, or there is none and the string is in that table. */
  ghost predicate Undoable(t: Tables, log: seq<Change>) {
    forall i :: 0 <= i < |log| && log[i].insert ==> PresentAfter(t, log, log[i], i)
  }

  /** What the first record does for all older ones. */
  lemma PresentAfterFirst(t: Tables, t': Tables, log: seq<Change>, c: Change, n: int)
    requires 0 < n <= |log| && Undo(t, log[0]) == Some(t')
    ensures PresentAfter(t, log, c, n) <==> PresentAfter(t', log[1..], c, n - 1)
  {
    var j, j' := Nearest(log, c, n), Nearest(log[1..], c, n - 1);
    assert j' >= 0 ==> log[1..][j'] == log[j' + 1];
    assert j > 0 ==> log[1..][j - 1] == log[j];
    assert j' == if j > 0 then j - 1 else -1;
  }

  /** Undoing a log, on any tables, succeeds exactly if no removal misses its string; then a string
      is in a table exactly if its oldest record is a removal, or it has none and was there. */
  lemma {:induction false} UndoSucceedsExactlyWhen(t: Tables, log: seq<Change>)
    ensures UndoAll(t, log).Some? <==> Undoable(t, log)
    ensures UndoAll(t, log).Some? ==>
      forall c :: InTable(UndoAll(t, log).value, c) <==> PresentAfter(t, log, c, |log|)
    decreases |log|
  {
    hide PresentAfter, InTable, Insert, Remove;
    if log == [] {
      forall c ensures InTable(t, c) <==> PresentAfter(t, log, c, 0) {
        NothingUndone(t, log, c);
      }
    } else {
      NothingUndone(t, log, log[0]);
      match Undo(t, log[0])
      case None =>
      case Some(t') =>
        var rest := log[1..];
        UndoSucceedsExactlyWhen(t', rest);
        forall c, n | 0 < n <= |log| ensures PresentAfter(t, log, c, n) <==> PresentAfter(t', rest, c, n - 1) {
          PresentAfterFirst(t, t', log, c, n);
        }
        forall i | 0 < i < |log| && log[i].insert ensures rest[i - 1].insert && rest[i - 1] == log[i] {
        }
        forall i | 0 <= i < |rest| && rest[i].insert ensures log[i + 1].insert && rest[i] == log[i + 1] {
        }
    }
  }

  lemma NothingUndone(t: Tables, log: seq<Change>, c: Change)
    ensures PresentAfter(t, log, c, 0) <==> InTable(t, c)
  {
  }

  /** Undoing two logs one after the other. */
  lemma {:induction false} UndoAllAppend(t: Tables, log: seq<Change>, older: seq<Change>)
    ensures UndoAll(t, log + older)
         == match UndoAll(t, log) case None => None case Some(t') => UndoAll(t', older)
    decreases |log|
  {
    if log == [] {
      assert log + older == older;
    } else {
      assert (log + older)[0] == log[0] && (log + older)[1..] == log[1..] + older;
      match Undo(t, log[0])
      case None =>
      case Some(t') => UndoAllAppend(t', log[1..], older);
    }
  }

  /** Every string that the changes left in a table, as in `after`, is in that table of `t'`. */
  ghost predicate StillThere(after: Tables, t': Tables, changes: seq<Change>) {
    forall i :: 0 <= i < |changes| && InTable(after, changes[i]) ==> InTable(t', changes[i])
  }

  /** Undoing the log on some other tables `t'` runs into the fatal removal unless every string
      that the changes touched and left in a table is still in that table. */
  lemma {:induction false} UndoOnOtherTables(t: Tables, changes: seq<Change>, t': Tables)
    requires AllValid(t, changes)
    ensures UndoAll(t', LogOf(changes)).Some? <==> StillThere(Run(t, changes), t', changes)
    decreases |changes|
  {
    if changes != [] {
      var c, init := Last(changes), Init(changes);
      assert LogOf(changes)[0] == c && LogOf(changes)[1..] == LogOf(init) && changes == init + [c];
      hide LogOf, StillThere, InTable, Apply, Insert, Remove;
      match Undo(t', c)
      case None => MissingNow(Run(t, init), t', init, c);
      case Some(t'') =>
        UndoOnOtherTables(t, init, t'');
        OneLessToFind(Run(t, init), t', t'', init, c);
    }
  }

  lemma MissingNow(before: Tables, t': Tables, init: seq<Change>, c: Change)
    requires Undo(t', c).None?
    ensures !StillThere(Apply(before, c), t', init + [c])
  {
    assert (init + [c])[|init|] == c;
  }

  lemma OneLessToFind(before: Tables, t': Tables, t'': Tables, init: seq<Change>, c: Change)
    requires Valid(before, c) && Undo(t', c) == Some(t'')
    ensures StillThere(before, t'', init) <==> StillThere(Apply(before, c), t', init + [c])
  {
    var all, after := init + [c], Apply(before, c);
    assert InTable(after, c) ==> InTable(t', c);
    hide InTable, Apply, Undo, Valid;
    forall i | 0 <= i < |init|
      ensures (InTable(before, init[i]) ==> InTable(t'', init[i]))
         <==> (InTable(after, all[i]) ==> InTable(t', all[i]))
    {
      OneMoreUndone(before, t', t'', c, init[i]);
    }
    assert all[|init|] == c;
    if StillThere(after, t', all) {
      forall i | 0 <= i < |init| && InTable(before, init[i]) ensures InTable(t'', init[i]) {
        assert all[i] == init[i];
      }
    }
  }

  /** Undoing one change asks the same of every other string as before. */
  lemma OneMoreUndone(before: Tables, t': Tables, t'': Tables, c: Change, d: Change)
    requires Valid(before, c) && Undo(t', c) == Some(t'')
    ensures (InTable(before, d) ==> InTable(t'', d)) <==> (InTable(Apply(before, c), d) ==> InTable(t', d))
  {
  }

  /** One more change on top of a log keeps what the log restores. */
  lemma UndoAllAfterChange(t: Tables, c: Change, log: seq<Change>)
    requires Valid(t, c)
    ensures UndoAll(Apply(t, c), [c] + log) == UndoAll(t, log)
  {
    UndoApply(t, c);
    assert ([c] + log)[1..] == log;
  }

  /** A sweep drops dead weak entries. */
  function Sweep(t: Tables, alive: set<int>): Tables {
    t.(weak := t.weak * alive)
  }

  ghost predicate Mentions(log: seq<Change>, ids: set<int>) {
    forall i :: 0 <= i < |log| ==> log[i].str in ids
  }

  /** Undoing commutes with a sweep, as long as the logged strings stay alive. */
  lemma {:induction false} SweepThenUndo(t: Tables, log: seq<Change>, alive: set<int>)
    requires Mentions(log, alive)
    ensures UndoAll(Sweep(t, alive), log)
         == match UndoAll(t, log) case None => None case Some(t') => Some(Sweep(t', alive))
    decreases |log|
  {
    if log != [] {
      var c := log[0];
      assert c.str in alive;
      match Undo(t, c)
      case None =>
      case Some(t') =>
        assert Undo(Sweep(t, alive), c) == Some(Sweep(t', alive)) by {
          assert t.weak * alive - {c.str} == (t.weak - {c.str}) * alive;
          assert t.weak * alive + {c.str} == (t.weak + {c.str}) * alive;
        }
        SweepThenUndo(t', log[1..], alive);
    }
  }

  /** Nested transactions do not share this law. An outer transaction interns `s` weakly, a
      nested one promotes it to strong and commits, taking its log with it; the outer rollback
      then tries to remove `s` from the weak table, which is fatal. */
  lemma CommittedPromotionIsFatal(t: Tables, s: int)
    requires s !in t.strong && s !in t.weak
    ensures var outer := [Change(s, false, true)];
            var nested := [Change(s, false, false), Change(s, true, true)];
            && AllValid(t, outer)
            && AllValid(Run(t, outer), nested)
            && UndoAll(Run(Run(t, outer), nested), LogOf(outer)) == None
  {
    var outer := [Change(s, false, true)];
    var nested := [Change(s, false, false), Change(s, true, true)];
    assert Init(outer) == [] && Init(nested) == [nested[0]] && Init([nested[0]]) == [];
    assert Run(t, []) == t && AllValid(t, []);
    var t1 := Run(t, outer);
    assert t1 == Apply(t, outer[0]);
    assert Run(t1, []) == t1 && AllValid(t1, []);
    var t2 := Run(t1, [nested[0]]);
    assert t2 == Apply(t1, nested[0]) && AllValid(t1, [nested[0]]);
    var t3 := Run(t1, nested);
    assert !InTable(t3, outer[0]) && LogOf(outer)[0] == outer[0];
  }
}
