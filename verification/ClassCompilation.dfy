/** The compiler driver on top of strict-mode initialization: one attempt per class, committed as a
    whole or rolled back as a whole, and what a whole compilation keeps. */
module ClassCompilation {
  import opened ClassInitialization
  import opened StrictMode

  /** What the driver does for one class: enter a transaction, initialize, and leave it or roll
      everything back. */
  function CompileClass(h: Hierarchy, w: World, k: Class, s: Script): World {
    var o := InitializeClass(h, Enter(w, k), k, s);
    if o.ok then Exit(o.w) else RollbackAll(o.w)
  }

  datatype Attempt = Attempt(klass: Class, script: Script)

  function CompileAll(h: Hierarchy, w: World, attempts: seq<Attempt>): World
    decreases |attempts|
  {
    if attempts == [] then w
    else CompileAll(h, CompileClass(h, w, attempts[0].klass, attempts[0].script), attempts[1..])
  }

  /** Between attempts: no transaction, nothing half done, superclasses initialized first. */
  ghost predicate Settled(h: Hierarchy, w: World) {
    && w.stack == []
    && Consistent(h, w)
    && forall c :: !StatusOf(w, c).Initializing?
  }

  /** What an attempt should leave: it ends outside any transaction; no rollback takes an
      initialization back, neither one from before nor one committed during the attempt; everything
      else is as it was, the class itself included if the attempt fails. */
  ghost predicate SafeAttempt(h: Hierarchy, w: World, k: Class, s: Script) {
    var o, w' := InitializeClass(h, Enter(w, k), k, s), CompileClass(h, w, k, s);
    && Settled(h, w')
    && (forall c :: StatusOf(w, c).Initialized? ==> StatusOf(o.w, c).Initialized?)
    && (forall c :: StatusOf(w', c) == if StatusOf(o.w, c).Initialized? then Initialized else StatusOf(w, c))
    && (if o.ok then StatusOf(w', k).Initialized? else StatusOf(w', k) == StatusOf(w, k))
  }

  /** In some attempt an initializer catches a failure and then completes. */
  predicate SomeCareless(h: Hierarchy, w: World, attempts: seq<Attempt>)
    decreases |attempts|
  {
    attempts != [] && var a := attempts[0];
      Careless(h, Enter(w, a.klass), a.klass, a.script)
        || SomeCareless(h, CompileClass(h, w, a.klass, a.script), attempts[1..])
  }

  ghost predicate AllSafe(h: Hierarchy, w: World, attempts: seq<Attempt>)
    decreases |attempts|
  {
    attempts != [] ==> var a := attempts[0];
      SafeAttempt(h, w, a.klass, a.script) && AllSafe(h, CompileClass(h, w, a.klass, a.script), attempts[1..])
  }

  // --- One attempt ----------------------------------------------------------------------------------

  lemma EnteredForDriver(h: Hierarchy, w: World, k: Class)
    requires Settled(h, w)
    ensures Enter(w, k).stack == [Tx(k, map[], false)] && Consistent(h, Enter(w, k))
    ensures forall c :: StatusOf(Enter(w, k), c) == StatusOf(w, c)
  {
  }

  /** The driver's own transaction stays outermost and records nothing. */
  lemma OwnTransaction(w1: World, w2: World, k: Class)
    requires w1.stack == [Tx(k, map[], false)] && Frame(w1, w2)
    ensures w2.stack != [] && w2.stack[Extra(w1, w2)].log == map[]
    ensures forall i, c :: 0 <= i < |w2.stack| && c in w2.stack[i].log ==>
      i < Extra(w1, w2) && !w2.stack[i].log[c].Initialized?
  {
    assert Kept(w1, w2, 0);
    forall i, c | 0 <= i < |w2.stack| && c in w2.stack[i].log
      ensures i < Extra(w1, w2) && !w2.stack[i].log[c].Initialized?
    {
      assert i < Extra(w1, w2) ==> New(w1, w2, i, c);
    }
  }

  /** Rolling back everything takes an initialization back exactly where a transaction records it. */
  lemma RolledBack(w1: World, w2: World, k: Class, c: Class)
    requires w1.stack == [Tx(k, map[], false)] && Frame(w1, w2)
    ensures RollbackAll(w2).stack == []
    ensures StatusOf(w2, c).Initialized? ==>
      (StatusOf(RollbackAll(w2), c).Initialized? <==> forall i :: !Records(w1, w2, i, c))
    ensures !StatusOf(w2, c).Initialized? && Undoes(w1, w2) ==> StatusOf(RollbackAll(w2), c) == StatusOf(w1, c)
  {
    OwnTransaction(w1, w2, k);
    RollbackAllRestored(w2, c);
    var n, st := Extra(w1, w2), StatusOf(w2, c);
    hide StatusOf, RollbackAll, Restored;
    assert |w2.stack| == n + 1;
    if st.Initialized? {
      if i :| Records(w1, w2, i, c) {
        RestoredRecorded(w2.stack, n + 1, c, st);
      } else {
        forall i | 0 <= i < n + 1 ensures c !in w2.stack[i].log {
          assert !Records(w1, w2, i, c);
        }
        RestoredUnrecorded(w2.stack, n + 1, c, st);
      }
    } else if Undoes(w1, w2) {
      assert c !in w2.stack[n].log;
      RestoredFurther(w2.stack[n..n + 1], 1, w2.stack, n, c, st);
      RestoredUnrecorded(w2.stack[n..n + 1], 1, c, Restored(w2.stack, n, c, st));
    }
  }

  lemma CarefulIsSafe(h: Hierarchy, w: World, k: Class, s: Script)
    requires Settled(h, w) && !Careless(h, Enter(w, k), k, s)
    ensures SafeAttempt(h, w, k, s)
  {
    EnteredForDriver(h, w, k);
    var w1 := Enter(w, k);
    InitializationFrame(h, w1, k, s);
    InitializationClean(h, w1, k, s);
    var o, w' := InitializeClass(h, w1, k, s), CompileClass(h, w, k, s);
    forall c
      ensures StatusOf(w, c).Initialized? ==> StatusOf(o.w, c).Initialized?
      ensures StatusOf(w', c) == if StatusOf(o.w, c).Initialized? then Initialized else StatusOf(w, c)
    {
      if o.ok {
        assert StatusOf(w', c) == StatusOf(o.w, c) == Restored(o.w.stack, 0, c, StatusOf(o.w, c));
      } else {
        RolledBack(w1, o.w, k, c);
      }
    }
    if o.ok {
      SuccessInitializes(h, w1, k, s);
    } else {
      RolledBack(w1, o.w, k, k);
      FailedIsNotInitialized(h, w1, k, s);
    }
    assert forall c :: StatusOf(w', c).Initialized? <==> StatusOf(o.w, c).Initialized?;
    assert Consistent(h, o.w);
  }

  lemma FailedIsNotInitialized(h: Hierarchy, w: World, k: Class, s: Script)
    requires !InitializeClass(h, w, k, s).ok
    ensures !StatusOf(InitializeClass(h, w, k, s).w, k).Initialized?
  {
  }

  lemma CarelessIsUnsafe(h: Hierarchy, w: World, k: Class, s: Script)
    requires Settled(h, w) && Careless(h, Enter(w, k), k, s)
    ensures !SafeAttempt(h, w, k, s)
  {
    EnteredForDriver(h, w, k);
    var w1 := Enter(w, k);
    InitializationFrame(h, w1, k, s);
    CarelessExposes(h, w1, k, s);
    var o, w' := InitializeClass(h, w1, k, s), CompileClass(h, w, k, s);
    var i, c :| Records(w1, o.w, i, c);
    if o.ok {
      assert |w'.stack| == |o.w.stack| - 1 > 0;
    } else {
      RolledBack(w1, o.w, k, c);
      assert !StatusOf(w', c).Initialized?;
    }
  }

  /** An attempt is safe exactly if no initializer catches a failure and then completes. */
  lemma AttemptIsSafe(h: Hierarchy, w: World, k: Class, s: Script)
    requires Settled(h, w)
    ensures SafeAttempt(h, w, k, s) <==> !Careless(h, Enter(w, k), k, s)
  {
    if Careless(h, Enter(w, k), k, s) {
      CarelessIsUnsafe(h, w, k, s);
    } else {
      CarefulIsSafe(h, w, k, s);
    }
  }

  /** The driver's rollback takes back a class that is initialized exactly if there is a rollback, and
      an initializer catches a failure and then completes. */
  lemma RollbackTakesBack(h: Hierarchy, w: World, k: Class, s: Script)
    requires Settled(h, w)
    ensures var o, w' := InitializeClass(h, Enter(w, k), k, s), CompileClass(h, w, k, s);
      (exists c :: StatusOf(o.w, c).Initialized? && !StatusOf(w', c).Initialized?)
      <==> !o.ok && Careless(h, Enter(w, k), k, s)
  {
    EnteredForDriver(h, w, k);
    var w1 := Enter(w, k);
    InitializationFrame(h, w1, k, s);
    var o, w' := InitializeClass(h, w1, k, s), CompileClass(h, w, k, s);
    if o.ok {
      assert forall c :: StatusOf(w', c) == StatusOf(o.w, c);
    } else if Careless(h, w1, k, s) {
      CarelessExposes(h, w1, k, s);
      var i, c :| Records(w1, o.w, i, c);
      RolledBack(w1, o.w, k, c);
      assert StatusOf(o.w, c).Initialized? && !StatusOf(w', c).Initialized?;
    } else {
      InitializationClean(h, w1, k, s);
      forall c | StatusOf(o.w, c).Initialized? ensures StatusOf(w', c).Initialized? {
        RolledBack(w1, o.w, k, c);
      }
    }
  }

  /** A whole compilation consists of safe attempts exactly if no initializer, in any of them,
      catches a failure and then completes. Then initialized classes stay initialized, and always
      have initialized superclasses. */
  lemma {:induction false} CompilationIsSafe(h: Hierarchy, w: World, attempts: seq<Attempt>)
    requires Settled(h, w)
    ensures AllSafe(h, w, attempts) <==> !SomeCareless(h, w, attempts)
    ensures AllSafe(h, w, attempts) ==>
      && Settled(h, CompileAll(h, w, attempts))
      && forall c :: StatusOf(w, c).Initialized? ==> StatusOf(CompileAll(h, w, attempts), c).Initialized?
    decreases |attempts|
  {
    hide InitializeClass, CompileClass, Careless, StatusOf;
    if attempts != [] {
      var a := attempts[0];
      AttemptIsSafe(h, w, a.klass, a.script);
      var w' := CompileClass(h, w, a.klass, a.script);
      if SafeAttempt(h, w, a.klass, a.script) {
        assert forall c :: StatusOf(w, c).Initialized? ==> StatusOf(w', c).Initialized?;
        CompilationIsSafe(h, w', attempts[1..]);
      }
    }
  }

  // --- When an initializer does catch a failure -------------------------------------------------

  const X: Class := 0
  const A: Class := 1
  const B: Class := 2
  const SUB: Class := 3

  /** `SUB` extends `A`. */
  const EXAMPLE := Hierarchy(map[SUB := A], {}, {})

  const THROWS := Script(Unverifiable, Done, Done, true)
  const RETURNS := Script(Unverifiable, Done, Done, false)
  const CATCHES := Script(Unverifiable, Done, Request(B, THROWS, true, Done), false)

  /** The initializer of `X` first uses `A`, whose initializer catches the failure of `B`; then it
      uses `SUB`, and throws. */
  const SCENARIO := Script(Unverifiable, Done, Request(A, CATCHES, false, Request(SUB, RETURNS, false, Done)), true)

  lemma SimpleFailure(w: World, k: Class)
    requires StatusOf(w, k).Verified? && k !in EXAMPLE.super
    ensures InitializeClass(EXAMPLE, w, k, THROWS)
         == Outcome(World(w.status[k := Initializing][k := Erroneous],
                          [Tx(k, map[k := Verified], false)] + w.stack), false)
  {
    var w1 := SetStatus(Enter(w, k), k, Initializing);
    assert w1 == World(w.status[k := Initializing], [Tx(k, map[k := Verified], false)] + w.stack);
  }

  /** `A` succeeds, but the transaction that leaves is that of `B`: the one of `A` stays. */
  lemma CaughtFailureLeavesTransaction(w: World)
    requires StatusOf(w, A).Verified? && StatusOf(w, B).Verified?
    ensures var o := InitializeClass(EXAMPLE, w, A, CATCHES);
      && o.ok
      && o.w == World(w.status[A := Initializing][B := Initializing][B := Erroneous][A := Initialized],
                      [Tx(A, map[A := Verified], false)] + w.stack)
  {
    var w1 := World(w.status[A := Initializing], [Tx(A, map[A := Verified], false)] + w.stack);
    Entering(w, A);
    SimpleFailure(w1, B);
    hide SetStatus, StatusOf;
    var w2 := InitializeClass(EXAMPLE, w1, B, THROWS).w;
    assert RunRequests(EXAMPLE, w1, CATCHES.body, true) == Outcome(w2, true);
    SettingTwice(w2, A, Initialized);
    var w3 := SetStatus(w2, A, Initialized);
    assert LinkerInitializeClass(EXAMPLE, Enter(w, A), A, CATCHES) == Outcome(w3, true);
    assert w3.stack[1..] == w1.stack;
  }

  /** The class is marked as initializing in its own new transaction. */
  lemma Entering(w: World, k: Class)
    ensures SetStatus(Enter(w, k), k, Initializing)
      == World(w.status[k := Initializing], [Tx(k, map[k := StatusOf(w, k)], false)] + w.stack)
    ensures StatusOf(Enter(w, k), k) == StatusOf(w, k)
  {
  }

  lemma SettingTwice(w: World, k: Class, st: Status)
    requires w.stack != []
    ensures SetStatus(w, k, st).status == w.status[k := st]
    ensures SetStatus(w, k, st).stack[1..] == w.stack[1..] && |SetStatus(w, k, st).stack| == |w.stack|
  {
  }

  lemma SimpleSuccess(w: World, k: Class)
    requires StatusOf(w, k).Verified? && k in EXAMPLE.super && StatusOf(w, EXAMPLE.super[k]).Initialized?
    ensures InitializeClass(EXAMPLE, w, k, RETURNS)
      == Outcome(World(w.status[k := Initializing][k := Initialized], w.stack), true)
  {
    var w1 := SetStatus(Enter(w, k), k, Initializing);
    assert w1 == World(w.status[k := Initializing], [Tx(k, map[k := Verified], false)] + w.stack);
    var w2 := SetStatus(w1, k, Initialized);
    assert LinkerInitializeClass(EXAMPLE, Enter(w, k), k, RETURNS) == Outcome(w2, true);
    assert w2.stack[1..] == w.stack;
  }

  /** How far the scenario gets before the driver rolls back. */
  lemma ScenarioFails(w0: World, w1: World)
    requires w0 == Enter(World(map[], []), X) && w1 == SetStatus(Enter(w0, X), X, Initializing)
    ensures var o := InitializeClass(EXAMPLE, w0, X, SCENARIO);
      && !o.ok
      && StatusOf(o.w, SUB).Initialized? && StatusOf(o.w, A).Initialized?
      && o.w.stack == [Tx(A, map[A := Verified, X := Initializing], false),
                       Tx(X, map[X := Verified], false),
                       Tx(X, map[], false)]
  {
    assert w1 == World(map[X := Initializing], [Tx(X, map[X := Verified], false), Tx(X, map[], false)]);
    CaughtFailureLeavesTransaction(w1);
    var w2 := InitializeClass(EXAMPLE, w1, A, CATCHES).w;
    SimpleSuccess(w2, SUB);
    var w3 := InitializeClass(EXAMPLE, w2, SUB, RETURNS).w;
    var rest := SCENARIO.body.rest;
    assert RunRequests(EXAMPLE, w2, rest, true) == Outcome(w3, true);
    assert RunRequests(EXAMPLE, w1, SCENARIO.body, true) == Outcome(w3, true);
    assert w3.stack[0] == Tx(A, map[A := Verified], false);
    assert LinkerInitializeClass(EXAMPLE, Enter(w0, X), X, SCENARIO) == Outcome(SetStatus(w3, X, Erroneous), false);
  }

  /** Safety does fail when a failure is caught: after the attempt below the subclass is
      initialized and its superclass is not. */
  lemma CaughtFailureBreaksSafety()
    ensures var w := World(map[], []);
      && Settled(EXAMPLE, w)
      && StatusOf(CompileClass(EXAMPLE, w, X, SCENARIO), SUB).Initialized?
      && StatusOf(CompileClass(EXAMPLE, w, X, SCENARIO), A).Verified?
      && !Consistent(EXAMPLE, CompileClass(EXAMPLE, w, X, SCENARIO))
      && Careless(EXAMPLE, Enter(w, X), X, SCENARIO)
  {
    hide InitializeClass, Careless;
    var w0 := Enter(World(map[], []), X);
    ScenarioFails(w0, SetStatus(Enter(w0, X), X, Initializing));
    var w4 := InitializeClass(EXAMPLE, w0, X, SCENARIO).w;
    var w5 := Rollback(w4);
    var w6 := Rollback(w5);
    assert RollbackAll(w4) == RollbackAll(w5) == RollbackAll(w6) == Rollback(w6);
    assert EXAMPLE.super[SUB] == A;
    AttemptIsSafe(EXAMPLE, World(map[], []), X, SCENARIO);
  }
}
