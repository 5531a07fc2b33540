/** What an initialization in strict mode leaves behind, whatever the class initializers do, and
    exactly when a rollback of it would take an initialization back. */
module StrictMode {
  import opened ClassInitialization

  /** Every initialized class, interfaces aside, has an initialized superclass. */
  ghost predicate Consistent(h: Hierarchy, w: World) {
    forall k :: StatusOf(w, k).Initialized? && HasSuper(h, k) ==> StatusOf(w, h.super[k]).Initialized?
  }

  /** How many transactions there are more than before. */
  function Extra(w: World, w': World): int {
    |w'.stack| - |w.stack|
  }

  // --- What always holds --------------------------------------------------------------------------

  /** A transaction that was there before kept its records; an abort is never taken back. */
  predicate Kept(w: World, w': World, i: int)
    requires 0 <= i < |w.stack| <= |w'.stack|
  {
    var t, t' := w.stack[i], w'.stack[Extra(w, w') + i];
    t'.root == t.root && t'.log == t.log && (t.aborted ==> t'.aborted)
  }

  /** What an additional transaction records was still to be initialized before, is no longer so,
      and was not initialized when it was recorded. */
  predicate New(w: World, w': World, i: int, c: Class)
    requires 0 <= i < |w'.stack|
  {
    var log := w'.stack[i].log;
    c in log ==> !log[c].Initialized? && StatusOf(w, c).Verified? && !StatusOf(w', c).Verified?
  }

  /** A class leaves the status `Verified` once. */
  ghost predicate Progress(w: World, w': World) {
    forall c :: !StatusOf(w, c).Verified? ==> StatusOf(w', c) == StatusOf(w, c)
  }

  ghost predicate Frame(w: World, w': World) {
    && |w.stack| <= |w'.stack|
    && (forall i {:trigger Kept(w, w', i)} :: 0 <= i < |w.stack| ==> Kept(w, w', i))
    && (forall i, c {:trigger New(w, w', i, c)} :: 0 <= i < Extra(w, w') ==> New(w, w', i, c))
    && Progress(w, w')
  }

  // --- What decides whether a rollback is safe ------------------------------------------------------

  /** The status of a class after rolling back the innermost `n` transactions. */
  function Restored(stack: seq<Tx>, n: int, c: Class, st: Status): Status
    requires 0 <= n <= |stack|
    decreases n
  {
    if n == 0 then st
    else Restored(stack[1..], n - 1, c, if c in stack[0].log then stack[0].log[c] else st)
  }

  /** An additional transaction records a class that is initialized now. */
  ghost predicate Records(w: World, w': World, i: int, c: Class) {
    0 <= i < Extra(w, w') && i < |w'.stack| && c in w'.stack[i].log && StatusOf(w', c).Initialized?
  }

  ghost predicate Exposed(w: World, w': World) {
    exists i, c :: Records(w, w', i, c)
  }

  /** Rolling back the additional transactions restores whatever has not become initialized. */
  ghost predicate Undoes(w: World, w': World)
    requires |w.stack| <= |w'.stack|
  {
    forall c :: !StatusOf(w', c).Initialized? ==> Restored(w'.stack, Extra(w, w'), c, StatusOf(w', c)) == StatusOf(w, c)
  }

  /** What was left behind can be rolled back without taking an initialization back, and initialized
      classes have initialized superclasses if they had before. */
  ghost predicate Clean(h: Hierarchy, w: World, w': World) {
    |w.stack| <= |w'.stack| && !Exposed(w, w') && Undoes(w, w') && (Consistent(h, w) ==> Consistent(h, w'))
  }

  // --- Restored ---------------------------------------------------------------------------------------

  /** Rolling back further, from transactions that kept their records. */
  lemma {:induction false} RestoredFurther(stack: seq<Tx>, n: int, stack': seq<Tx>, m: int, c: Class, st: Status)
    requires 0 <= n <= |stack| && 0 <= m && m + n <= |stack'|
    requires forall i :: 0 <= i < n ==> stack'[m + i].log == stack[i].log
    ensures Restored(stack', m + n, c, st) == Restored(stack, n, c, Restored(stack', m, c, st))
    decreases m, n
  {
    if m > 0 {
      RestoredFurther(stack, n, stack'[1..], m - 1, c, if c in stack'[0].log then stack'[0].log[c] else st);
    } else if n > 0 {
      RestoredFurther(stack[1..], n - 1, stack'[1..], 0, c, if c in stack[0].log then stack[0].log[c] else st);
    }
  }

  lemma {:induction false} RestoredUnrecorded(stack: seq<Tx>, n: int, c: Class, st: Status)
    requires 0 <= n <= |stack| && forall i :: 0 <= i < n ==> c !in stack[i].log
    ensures Restored(stack, n, c, st) == st
    decreases n
  {
    if n > 0 {
      RestoredUnrecorded(stack[1..], n - 1, c, st);
    }
  }

  lemma {:induction false} RestoredRecorded(stack: seq<Tx>, n: int, c: Class, st: Status)
    requires 0 <= n <= |stack|
    requires forall i :: 0 <= i < n && c in stack[i].log ==> !stack[i].log[c].Initialized?
    ensures (exists i :: 0 <= i < n && c in stack[i].log) || !st.Initialized? ==>
      !Restored(stack, n, c, st).Initialized?
    decreases n
  {
    if n > 0 {
      RestoredRecorded(stack[1..], n - 1, c, if c in stack[0].log then stack[0].log[c] else st);
      if c !in stack[0].log {
        forall i | 0 <= i < n && c in stack[i].log ensures c in stack[1..][i - 1].log {
        }
      }
    }
  }

  lemma {:induction false} RollbackAllRestored(w: World, c: Class)
    ensures RollbackAll(w).stack == []
    ensures StatusOf(RollbackAll(w), c) == Restored(w.stack, |w.stack|, c, StatusOf(w, c))
    decreases |w.stack|
  {
    if w.stack != [] {
      RollbackAllRestored(Rollback(w), c);
    }
  }

  // --- One after the other ------------------------------------------------------------------------

  lemma FrameTransitive(a: World, b: World, c: World)
    requires Frame(a, b) && Frame(b, c)
    ensures Frame(a, c)
  {
    var m := Extra(b, c);
    forall i | 0 <= i < |a.stack| ensures Kept(a, c, i) {
      assert Kept(a, b, i) && Kept(b, c, Extra(a, b) + i);
    }
    forall i, k | 0 <= i < Extra(a, c) ensures New(a, c, i, k) {
      if i < m {
        assert New(b, c, i, k);
      } else {
        assert New(a, b, i - m, k) && Kept(b, c, i - m);
      }
    }
  }

  lemma ExposedFurther(a: World, b: World, c: World)
    requires Exposed(a, b) && Frame(b, c)
    ensures Exposed(a, c)
  {
    var i, k :| Records(a, b, i, k);
    assert Kept(b, c, i);
    assert Records(a, c, Extra(b, c) + i, k);
  }

  lemma ExposedByNext(a: World, b: World, c: World)
    requires |a.stack| <= |b.stack| && Exposed(b, c)
    ensures Exposed(a, c)
  {
    var i, k :| Records(b, c, i, k);
    assert Records(a, c, i, k);
  }

  lemma CleanTransitive(h: Hierarchy, a: World, b: World, c: World)
    requires Frame(a, b) && Clean(h, a, b) && Frame(b, c) && Clean(h, b, c)
    ensures Clean(h, a, c)
  {
    hide Consistent;
    var m := Extra(b, c);
    forall i, k ensures !Records(a, c, i, k) {
      if 0 <= i < m {
        assert !Records(b, c, i, k);
      } else if m <= i < Extra(a, c) {
        assert Kept(b, c, i - m) && New(a, b, i - m, k) && !Records(a, b, i - m, k);
      }
    }
    forall k | !StatusOf(c, k).Initialized?
      ensures Restored(c.stack, Extra(a, c), k, StatusOf(c, k)) == StatusOf(a, k)
    {
      assert Restored(c.stack, m, k, StatusOf(c, k)) == StatusOf(b, k);
      assert !StatusOf(b, k).Initialized?;
      forall i | 0 <= i < Extra(a, b) ensures c.stack[m + i].log == b.stack[i].log {
        assert Kept(b, c, i);
      }
      RestoredFurther(b.stack, Extra(a, b), c.stack, m, k, StatusOf(c, k));
    }
  }

  // --- One attempt ----------------------------------------------------------------------------------

  /** Entering a transaction for a class and marking the class as initializing. */
  ghost predicate Entered(w0: World, k: Class, w1: World) {
    StatusOf(w0, k).Verified? && w1 == SetStatus(Enter(w0, k), k, Initializing)
  }

  lemma EnteredIs(w0: World, k: Class, w1: World)
    requires Entered(w0, k, w1)
    ensures w1.stack == [Tx(k, map[k := Verified], false)] + w0.stack
    ensures forall c :: StatusOf(w1, c) == if c == k then Initializing else StatusOf(w0, c)
  {
  }

  /** The end of an attempt: what marking the class changes about the stack. */
  lemma Marked(w0: World, k: Class, w1: World, w2: World, st: Status)
    requires Entered(w0, k, w1) && Frame(w1, w2)
    ensures StatusOf(w2, k).Initializing?
    ensures var w3 := SetStatus(w2, k, st);
      && |w3.stack| == |w2.stack| && w3.stack[1..] == w2.stack[1..]
      && w3.stack[0].root == w2.stack[0].root && w3.stack[0].aborted == w2.stack[0].aborted
      && w3.stack[0].log == (if Extra(w1, w2) == 0 then w2.stack[0].log else w2.stack[0].log[k := Initializing])
      && (forall c :: StatusOf(w3, c) == if c == k then st else StatusOf(w2, c))
      && w2.stack[Extra(w1, w2)].log == map[k := Verified]
  {
    EnteredIs(w0, k, w1);
    assert StatusOf(w1, k).Initializing? && Kept(w1, w2, 0);
    if Extra(w1, w2) > 0 {
      assert New(w1, w2, 0, k);
    }
  }

  lemma FailureFrame(w0: World, k: Class, w1: World, w2: World)
    requires Entered(w0, k, w1) && Frame(w1, w2)
    ensures Frame(w0, SetStatus(w2, k, Erroneous))
  {
    EnteredIs(w0, k, w1);
    Marked(w0, k, w1, w2, Erroneous);
    var w3, n := SetStatus(w2, k, Erroneous), Extra(w1, w2);
    hide SetStatus, StatusOf;
    forall i | 0 <= i < |w0.stack| ensures Kept(w0, w3, i) {
      assert Kept(w1, w2, i + 1);
      assert w3.stack[n + 1 + i] == w3.stack[1..][n + i] == w2.stack[1..][n + i];
    }
    forall i, c | 0 <= i < n + 1 ensures New(w0, w3, i, c) {
      if i < n {
        assert New(w1, w2, i, c);
      }
      if i > 0 {
        assert w3.stack[i] == w3.stack[1..][i - 1] == w2.stack[1..][i - 1];
      }
    }
  }

  lemma SuccessFrame(w0: World, k: Class, w1: World, w2: World)
    requires Entered(w0, k, w1) && Frame(w1, w2)
    ensures Frame(w0, Exit(SetStatus(w2, k, Initialized)))
    ensures Extra(w0, Exit(SetStatus(w2, k, Initialized))) == Extra(w1, w2)
  {
    EnteredIs(w0, k, w1);
    Marked(w0, k, w1, w2, Initialized);
    var w3, n := Exit(SetStatus(w2, k, Initialized)), Extra(w1, w2);
    assert w3.stack == w2.stack[1..];
    assert forall c :: StatusOf(w3, c) == StatusOf(SetStatus(w2, k, Initialized), c);
    hide SetStatus, StatusOf, Exit;
    forall i | 0 <= i < |w0.stack| ensures Kept(w0, w3, i) {
      assert Kept(w1, w2, i + 1);
    }
    forall i, c | 0 <= i < n ensures New(w0, w3, i, c) {
      if i + 1 < n {
        assert New(w1, w2, i + 1, c);
      }
    }
  }

  lemma {:induction false} RestoredLast(stack: seq<Tx>, n: int, c: Class, st: Status)
    requires 0 < n <= |stack| && c in stack[n - 1].log
    ensures Restored(stack, n, c, st) == stack[n - 1].log[c]
    decreases n
  {
    if n > 1 {
      RestoredLast(stack[1..], n - 1, c, if c in stack[0].log then stack[0].log[c] else st);
    }
  }

  /** The classes the innermost `n` transactions were entered for. */
  function Roots(stack: seq<Tx>, n: int): seq<Class>
    requires 0 <= n <= |stack|
  {
    if n == 0 then [] else Roots(stack, n - 1) + [stack[n - 1].root]
  }

  /** The attempt's own transaction is still there, under the ones left inside it. */
  ghost predicate OneMoreRoot(w0: World, w1: World, w2: World, w3: World, k: Class) {
    && |w1.stack| <= |w2.stack| && |w0.stack| <= |w3.stack|
    && Extra(w0, w3) == Extra(w1, w2) + 1
    && Roots(w3.stack, Extra(w0, w3)) == Roots(w2.stack, Extra(w1, w2)) + [k]
  }

  lemma {:induction false} SameRoots(stack: seq<Tx>, stack': seq<Tx>, n: int)
    requires 0 <= n <= |stack| && n <= |stack'| && forall i :: 0 <= i < n ==> stack'[i].root == stack[i].root
    ensures Roots(stack', n) == Roots(stack, n)
    decreases n
  {
    if n > 0 {
      SameRoots(stack, stack', n - 1);
    }
  }

  lemma OwnRoot(w0: World, k: Class, w1: World, w2: World, st: Status)
    requires Entered(w0, k, w1) && Frame(w1, w2)
    ensures OneMoreRoot(w0, w1, w2, SetStatus(w2, k, st), k)
  {
    EnteredIs(w0, k, w1);
    Marked(w0, k, w1, w2, st);
    var w3, n := SetStatus(w2, k, st), Extra(w1, w2);
    assert Kept(w1, w2, 0);
    hide SetStatus, StatusOf, Frame, Entered;
    assert forall i :: 0 < i < |w3.stack| ==>
      w3.stack[i] == w3.stack[1..][i - 1] == w2.stack[1..][i - 1] == w2.stack[i];
    SameRoots(w2.stack, w3.stack, n);
  }

  /** A failed attempt is undone by the transactions it leaves, its own among them. */
  lemma FailureClean(h: Hierarchy, w0: World, k: Class, w1: World, w2: World)
    requires Entered(w0, k, w1) && Frame(w1, w2) && Clean(h, w1, w2)
    ensures Clean(h, w0, SetStatus(w2, k, Erroneous))
    ensures OneMoreRoot(w0, w1, w2, SetStatus(w2, k, Erroneous), k)
  {
    EnteredIs(w0, k, w1);
    Marked(w0, k, w1, w2, Erroneous);
    OwnRoot(w0, k, w1, w2, Erroneous);
    var w3, n := SetStatus(w2, k, Erroneous), Extra(w1, w2);
    hide SetStatus, StatusOf, Frame, Entered, OneMoreRoot;
    assert forall i :: 0 < i < |w3.stack| ==>
      w3.stack[i] == w3.stack[1..][i - 1] == w2.stack[1..][i - 1] == w2.stack[i];
    forall i, c ensures !Records(w0, w3, i, c) {
      assert !Records(w1, w2, i, c);
    }
    forall c | !StatusOf(w3, c).Initialized? ensures Restored(w3.stack, n + 1, c, StatusOf(w3, c)) == StatusOf(w0, c) {
      FailureUndone(w0, k, w1, w2, w3, n, c);
    }
  }

  lemma FailureUndone(w0: World, k: Class, w1: World, w2: World, w3: World, n: int, c: Class)
    requires |w1.stack| <= |w2.stack| == |w3.stack| && 0 <= n == Extra(w1, w2) < |w2.stack|
    requires w3.stack[1..] == w2.stack[1..]
    requires w3.stack[0].log == if n == 0 then w2.stack[0].log else w2.stack[0].log[k := Initializing]
    requires w2.stack[n].log == map[k := Verified]
    requires c == k ==> StatusOf(w0, c) == Verified
    requires c != k ==> StatusOf(w1, c) == StatusOf(w0, c) && StatusOf(w3, c) == StatusOf(w2, c)
    requires Undoes(w1, w2) && !StatusOf(w3, c).Initialized?
    ensures Restored(w3.stack, n + 1, c, StatusOf(w3, c)) == StatusOf(w0, c)
  {
    hide StatusOf, Restored;
    assert n > 0 ==> w3.stack[n] == w3.stack[1..][n - 1] == w2.stack[1..][n - 1];
    if c == k {
      RestoredLast(w3.stack, n + 1, c, StatusOf(w3, c));
    } else {
      RestoredFurther(w3.stack[n..n + 1], 1, w3.stack, n, c, StatusOf(w3, c));
      RestoredSame(w2.stack, w3.stack, n, c, StatusOf(w2, c));
      RestoredUnrecorded(w3.stack[n..n + 1], 1, c, StatusOf(w1, c));
    }
  }

  /** Only what the transactions record of the class matters. */
  lemma {:induction false} RestoredSame(stack: seq<Tx>, stack': seq<Tx>, n: int, c: Class, st: Status)
    requires 0 <= n <= |stack| == |stack'| && (n > 0 ==> stack[1..] == stack'[1..])
    requires n > 0 ==> (c in stack[0].log <==> c in stack'[0].log)
    requires n > 0 && c in stack[0].log ==> stack[0].log[c] == stack'[0].log[c]
    ensures Restored(stack, n, c, st) == Restored(stack', n, c, st)
  {
  }

  /** A successful attempt during which every transaction was left: the one that leaves is its own. */
  lemma SuccessClean(h: Hierarchy, w0: World, k: Class, w1: World, w2: World)
    requires Entered(w0, k, w1) && Frame(w1, w2) && Clean(h, w1, w2) && Extra(w1, w2) == 0
    requires HasSuper(h, k) ==> h.super[k] == k || StatusOf(w2, h.super[k]).Initialized?
    ensures Clean(h, w0, Exit(SetStatus(w2, k, Initialized)))
    ensures var w3 := SetStatus(w2, k, Initialized);
      && Exit(w3).stack == w3.stack[1..] && |w3.stack[1..]| == |w0.stack|
      && w3.stack[0].root == k && w3.stack[0].log == map[k := Verified]
  {
    EnteredIs(w0, k, w1);
    Marked(w0, k, w1, w2, Initialized);
    assert Kept(w1, w2, 0);
    var w3 := Exit(SetStatus(w2, k, Initialized));
    assert |w3.stack| == |w0.stack|;
    forall c | !StatusOf(w3, c).Initialized? ensures Restored(w3.stack, 0, c, StatusOf(w3, c)) == StatusOf(w0, c) {
      assert Restored(w2.stack, 0, c, StatusOf(w2, c)) == StatusOf(w1, c);
    }
  }

  /** Completing although a transaction was left behind exposes the class itself. */
  lemma SuccessExposed(w0: World, k: Class, w1: World, w2: World)
    requires Entered(w0, k, w1) && Frame(w1, w2) && Extra(w1, w2) > 0
    ensures Records(w0, Exit(SetStatus(w2, k, Initialized)), Extra(w1, w2) - 1, k)
    ensures Exposed(w0, Exit(SetStatus(w2, k, Initialized)))
  {
    Marked(w0, k, w1, w2, Initialized);
    EnteredIs(w0, k, w1);
    var w3, n := Exit(SetStatus(w2, k, Initialized)), Extra(w1, w2);
    assert w3.stack == w2.stack[1..];
    assert w3.stack[n - 1] == w2.stack[n];
    assert Records(w0, w3, n - 1, k);
  }

  lemma FailureExposed(w0: World, k: Class, w1: World, w2: World)
    requires Entered(w0, k, w1) && Frame(w1, w2) && Exposed(w1, w2)
    ensures Exposed(w0, SetStatus(w2, k, Erroneous))
  {
    EnteredIs(w0, k, w1);
    Marked(w0, k, w1, w2, Erroneous);
    var w3 := SetStatus(w2, k, Erroneous);
    var i, c :| Records(w1, w2, i, c);
    assert i > 0 ==> w3.stack[i] == w3.stack[1..][i - 1] == w2.stack[1..][i - 1] == w2.stack[i];
    assert Records(w0, w3, i, c);
  }

  // --- Any initialization ---------------------------------------------------------------------------

  lemma EnterFrame(h: Hierarchy, w: World, k: Class)
    ensures Frame(w, Enter(w, k))
    ensures Clean(h, w, Enter(w, k))
  {
    var w1 := Enter(w, k);
    forall c ensures Restored(w1.stack, 1, c, StatusOf(w1, c)) == StatusOf(w, c) {
      RestoredUnrecorded(w1.stack, 1, c, StatusOf(w1, c));
    }
  }

  lemma StayFrame(h: Hierarchy, w: World, w': World)
    requires w' == w || w' == Abort(w)
    ensures Frame(w, w')
    ensures Clean(h, w, w')
  {
  }

  /** Nothing an initialization does, however its initializers behave, changes the records of the
      transactions it started in. */
  lemma {:induction false} InitializationFrame(h: Hierarchy, w: World, k: Class, s: Script)
    ensures Frame(w, InitializeClass(h, w, k, s).w)
    decreases s, 2
  {
    hide Frame;
    var o := InitializeClass(h, w, k, s);
    if StatusOf(w, k).Initialized? || StatusOf(w, k).Initializing? || k in h.boot || SuperInitializing(h, w, k) {
      StayFrame(h, w, o.w);
    } else if StatusOf(Enter(w, k), k).Erroneous? || s.Unverifiable? {
      EnterFrame(h, w, k);
    } else {
      var w1 := SetStatus(Enter(w, k), k, Initializing);
      assert Entered(w, k, w1);
      InitializerFrame(h, w1, k, s);
      var w2 := RunInitializer(h, w1, k, s).w;
      FailureFrame(w, k, w1, w2);
      SuccessFrame(w, k, w1, w2);
    }
  }

  lemma {:induction false} InitializerFrame(h: Hierarchy, w: World, k: Class, s: Script)
    requires s.Script?
    ensures Frame(w, InitializeSuper(h, w, k, s).w)
    ensures Frame(w, RunRequests(h, InitializeSuper(h, w, k, s).w, s.interfaces, false).w)
    ensures Frame(w, RunInitializer(h, w, k, s).w)
    decreases s, 1
  {
    hide Frame;
    var w1 := InitializeSuper(h, w, k, s).w;
    if !HasSuper(h, k) || StatusOf(w, h.super[k]).Initialized? {
      StayFrame(h, w, w);
    } else {
      InitializationFrame(h, w, h.super[k], s.super);
    }
    var w2 := RunRequests(h, w1, s.interfaces, false).w;
    RequestsFrame(h, w1, s.interfaces, false);
    FrameTransitive(w, w1, w2);
    RequestsFrame(h, w2, s.body, true);
    FrameTransitive(w, w2, RunRequests(h, w2, s.body, true).w);
  }

  lemma {:induction false} RequestsFrame(h: Hierarchy, w: World, r: Requests, catching: bool)
    ensures Frame(w, RunRequests(h, w, r, catching).w)
    decreases r, 0
  {
    hide Frame;
    if r.Done? {
      StayFrame(h, w, w);
    } else {
      InitializationFrame(h, w, r.klass, r.script);
      var o := InitializeClass(h, w, r.klass, r.script);
      RequestsFrame(h, o.w, r.rest, catching);
      FrameTransitive(w, o.w, RunRequests(h, o.w, r.rest, catching).w);
    }
  }

  // --- Failures show ----------------------------------------------------------------------------------

  /** A transaction was left behind, or the innermost one is aborted. */
  ghost predicate Shows(w: World, w': World) {
    w'.stack != [] && (Extra(w, w') > 0 || w'.stack[0].aborted)
  }

  lemma ShowsFurther(a: World, b: World, c: World)
    requires Frame(a, b) && Shows(a, b) && Frame(b, c)
    ensures Shows(a, c)
  {
    assert Kept(b, c, 0);
  }

  lemma {:induction false} FailureShows(h: Hierarchy, w: World, k: Class, s: Script)
    requires w.stack != [] && !InitializeClass(h, w, k, s).ok
    ensures Shows(w, InitializeClass(h, w, k, s).w)
  {
    InitializationFrame(h, w, k, s);
    if !StatusOf(w, k).Initialized? && !StatusOf(w, k).Initializing? && k !in h.boot && !SuperInitializing(h, w, k) &&
       StatusOf(Enter(w, k), k).Verified? && s.Script? {
      var w1 := SetStatus(Enter(w, k), k, Initializing);
      assert Entered(w, k, w1);
      InitializerFrame(h, w1, k, s);
      Marked(w, k, w1, RunInitializer(h, w1, k, s).w, Erroneous);
      EnteredIs(w, k, w1);
    }
  }

  lemma {:induction false} CatchingShows(h: Hierarchy, w: World, r: Requests, catching: bool)
    requires w.stack != [] && Catches(h, w, r, catching)
    ensures Shows(w, RunRequests(h, w, r, catching).w)
    decreases r
  {
    var o := InitializeClass(h, w, r.klass, r.script);
    InitializationFrame(h, w, r.klass, r.script);
    RequestsFrame(h, o.w, r.rest, catching);
    var w' := RunRequests(h, o.w, r.rest, catching).w;
    assert |w.stack| <= |o.w.stack|;
    hide InitializeClass, RunRequests, Frame, Shows;
    if !o.ok {
      FailureShows(h, w, r.klass, r.script);
      ShowsFurther(w, o.w, w');
      assert w' == RunRequests(h, w, r, catching).w by {
        RequestsNext(h, w, r, catching);
      }
    } else {
      CatchingShows(h, o.w, r.rest, catching);
      RequestsNext(h, w, r, catching);
      ShowsBefore(w, o.w, w');
    }
  }

  lemma RequestsNext(h: Hierarchy, w: World, r: Requests, catching: bool)
    requires r.Request?
    ensures var o := InitializeClass(h, w, r.klass, r.script);
      RunRequests(h, w, r, catching)
      == if !o.ok && !(catching && r.caught) then o else RunRequests(h, o.w, r.rest, catching)
  {
  }

  lemma ShowsBefore(a: World, b: World, c: World)
    requires Frame(a, b) && Shows(b, c)
    ensures Shows(a, c)
  {
  }

  /** A class is initialized on success, unless its initialization is still going on. */
  lemma {:induction false} SuccessInitializes(h: Hierarchy, w: World, k: Class, s: Script)
    requires InitializeClass(h, w, k, s).ok
    ensures StatusOf(InitializeClass(h, w, k, s).w, k).Initialized? || StatusOf(w, k).Initializing?
  {
  }

  // --- Exactly when a failure stays harmless ----------------------------------------------------------

  /** Unless an initializer catches a failure and then completes, every additional transaction
      belongs to a failed initialization and undoes exactly that. */
  lemma {:induction false} InitializationClean(h: Hierarchy, w: World, k: Class, s: Script)
    requires w.stack != [] && !Careless(h, w, k, s)
    ensures var o := InitializeClass(h, w, k, s);
      Clean(h, w, o.w) && (o.ok ==> Extra(w, o.w) == 0)
    decreases s, 2
  {
    hide Frame, Clean, Consistent, Extra;
    var o := InitializeClass(h, w, k, s);
    if StatusOf(w, k).Initialized? || StatusOf(w, k).Initializing? || k in h.boot || SuperInitializing(h, w, k) {
      StayFrame(h, w, o.w);
      ExtraIs(w, o.w);
    } else if StatusOf(Enter(w, k), k).Erroneous? || s.Unverifiable? {
      EnterFrame(h, w, k);
    } else {
      AttemptClean(h, w, k, s);
    }
  }

  lemma ExtraIs(w: World, w': World)
    ensures Extra(w, w') == |w'.stack| - |w.stack|
  {
  }

  /** How an attempt ends. */
  lemma AttemptIs(h: Hierarchy, w: World, k: Class, s: Script)
    requires s.Script? && StatusOf(w, k).Verified? && k !in h.boot && !SuperInitializing(h, w, k)
    ensures var o := InitializeClass(h, w, k, s);
      var o2 := RunInitializer(h, SetStatus(Enter(w, k), k, Initializing), k, s);
      if o.ok then o2.ok && o.w == Exit(SetStatus(o2.w, k, Initialized)) else o.w == SetStatus(o2.w, k, Erroneous)
    ensures InitializeClass(h, w, k, s).ok == LinkerInitializeClass(h, Enter(w, k), k, s).ok
  {
    assert StatusOf(Enter(w, k), k).Verified?;
    hide RunInitializer, SetStatus;
    var o1 := LinkerInitializeClass(h, Enter(w, k), k, s);
    assert InitializeClass(h, w, k, s).ok == o1.ok;
  }

  lemma {:induction false} AttemptClean(h: Hierarchy, w: World, k: Class, s: Script)
    requires w.stack != [] && s.Script? && StatusOf(w, k).Verified?
    requires k !in h.boot && !SuperInitializing(h, w, k) && !LinkerCareless(h, Enter(w, k), k, s)
    ensures var o := InitializeClass(h, w, k, s);
      Clean(h, w, o.w) && (o.ok ==> Extra(w, o.w) == 0)
    decreases s, 1
  {
    hide Frame, Clean, Extra;
    var w1 := SetStatus(Enter(w, k), k, Initializing);
    assert Entered(w, k, w1);
    EnteredIs(w, k, w1);
    hide Consistent;
    InitializerClean(h, w1, k, s);
    InitializerFrame(h, w1, k, s);
    var o2 := RunInitializer(h, w1, k, s);
    var o := InitializeClass(h, w, k, s);
    AttemptIs(h, w, k, s);
    if o.ok {
      SuccessFrame(w, k, w1, o2.w);
      SuperclassFirst(h, w, k, s, w1);
      SuccessClean(h, w, k, w1, o2.w);
    } else {
      FailureClean(h, w, k, w1, o2.w);
    }
  }

  /** When the superclass step succeeds, the superclass is initialized and stays so. */
  lemma SuperclassFirst(h: Hierarchy, w: World, k: Class, s: Script, w1: World)
    requires s.Script? && Entered(w, k, w1) && !SuperInitializing(h, w, k) && RunInitializer(h, w1, k, s).ok
    ensures HasSuper(h, k) ==> h.super[k] == k || StatusOf(RunInitializer(h, w1, k, s).w, h.super[k]).Initialized?
  {
    EnteredIs(w, k, w1);
    if HasSuper(h, k) && h.super[k] != k {
      var o := InitializeSuper(h, w1, k, s);
      if !StatusOf(w1, h.super[k]).Initialized? {
        SuccessInitializes(h, w1, h.super[k], s.super);
      }
      assert StatusOf(o.w, h.super[k]).Initialized?;
      var o2 := RunRequests(h, o.w, s.interfaces, false);
      RequestsFrame(h, o.w, s.interfaces, false);
      assert Progress(o.w, o2.w);
      RequestsFrame(h, o2.w, s.body, true);
      assert Progress(o2.w, RunRequests(h, o2.w, s.body, true).w);
    }
  }

  lemma {:induction false} InitializerClean(h: Hierarchy, w: World, k: Class, s: Script)
    requires w.stack != [] && s.Script? && !InitializerCareless(h, w, k, s)
    ensures var o := RunInitializer(h, w, k, s);
      Clean(h, w, o.w) && (o.ok && !InitializerCatches(h, w, k, s) ==> Extra(w, o.w) == 0)
    decreases s, 0
  {
    hide Frame, Consistent;
    var o1 := InitializeSuper(h, w, k, s);
    InitializerFrame(h, w, k, s);
    if !HasSuper(h, k) || StatusOf(w, h.super[k]).Initialized? {
      StayFrame(h, w, w);
    } else {
      InitializationClean(h, w, h.super[k], s.super);
    }
    assert Clean(h, w, o1.w) && (o1.ok ==> Extra(w, o1.w) == 0);
    if o1.ok {
      var o2 := RunRequests(h, o1.w, s.interfaces, false);
      RequestsFrame(h, o1.w, s.interfaces, false);
      RequestsClean(h, o1.w, s.interfaces, false);
      CleanTransitive(h, w, o1.w, o2.w);
      assert !Catches(h, o1.w, s.interfaces, false);
      if o2.ok {
        RequestsFrame(h, o2.w, s.body, true);
        RequestsClean(h, o2.w, s.body, true);
        CleanTransitive(h, w, o2.w, RunRequests(h, o2.w, s.body, true).w);
      }
    }
  }

  lemma {:induction false} RequestsClean(h: Hierarchy, w: World, r: Requests, catching: bool)
    requires w.stack != [] && !RequestsCareless(h, w, r, catching)
    ensures var o := RunRequests(h, w, r, catching);
      Clean(h, w, o.w) && (o.ok && !Catches(h, w, r, catching) ==> Extra(w, o.w) == 0)
    decreases r, 0
  {
    hide Frame, Consistent;
    if r.Done? {
      StayFrame(h, w, w);
    } else {
      var o := InitializeClass(h, w, r.klass, r.script);
      InitializationFrame(h, w, r.klass, r.script);
      InitializationClean(h, w, r.klass, r.script);
      if o.ok || (catching && r.caught) {
        RequestsFrame(h, o.w, r.rest, catching);
        RequestsClean(h, o.w, r.rest, catching);
        CleanTransitive(h, w, o.w, RunRequests(h, o.w, r.rest, catching).w);
      }
    }
  }

  /** If one does, some transaction that is left behind records a class that is initialized. */
  lemma {:induction false} CarelessExposes(h: Hierarchy, w: World, k: Class, s: Script)
    requires w.stack != [] && Careless(h, w, k, s)
    ensures Exposed(w, InitializeClass(h, w, k, s).w)
    decreases s, 2
  {
    hide Frame, Exposed;
    var w1 := SetStatus(Enter(w, k), k, Initializing);
    assert Entered(w, k, w1);
    EnteredIs(w, k, w1);
    InitializerFrame(h, w1, k, s);
    var o := RunInitializer(h, w1, k, s);
    if InitializerCareless(h, w1, k, s) {
      InitializerExposes(h, w1, k, s);
      FailureExposed(w, k, w1, o.w);
      ExposedExtra(w1, o.w);
      SuccessExposed(w, k, w1, o.w);
    } else {
      var w2 := InitializeSuper(h, w1, k, s).w;
      var w3 := RunRequests(h, w2, s.interfaces, false).w;
      FrameExtra(w1, w3);
      CatchingShows(h, w3, s.body, true);
      ShowsBefore(w1, w3, o.w);
      SuccessExposed(w, k, w1, o.w);
    }
  }

  lemma ExposedExtra(w: World, w': World)
    requires Exposed(w, w')
    ensures Extra(w, w') > 0
  {
  }

  lemma FrameExtra(w: World, w': World)
    requires Frame(w, w')
    ensures |w.stack| <= |w'.stack|
  {
  }

  lemma {:induction false} InitializerExposes(h: Hierarchy, w: World, k: Class, s: Script)
    requires w.stack != [] && s.Script? && InitializerCareless(h, w, k, s)
    ensures Exposed(w, RunInitializer(h, w, k, s).w)
    decreases s, 0
  {
    hide Frame, Exposed;
    var o1 := InitializeSuper(h, w, k, s);
    InitializerFrame(h, w, k, s);
    FrameExtra(w, o1.w);
    var o2 := RunRequests(h, o1.w, s.interfaces, false);
    var o3 := RunRequests(h, o2.w, s.body, true);
    RequestsFrame(h, o1.w, s.interfaces, false);
    FrameExtra(o1.w, o2.w);
    RequestsFrame(h, o2.w, s.body, true);
    if SuperCareless(h, w, k, s) {
      CarelessExposes(h, w, h.super[k], s.super);
      ExposedFurther(w, o1.w, o2.w);
      ExposedFurther(w, o2.w, o3.w);
    } else if RequestsCareless(h, o1.w, s.interfaces, false) {
      RequestsExpose(h, o1.w, s.interfaces, false);
      ExposedByNext(w, o1.w, o2.w);
      ExposedFurther(w, o2.w, o3.w);
    } else {
      RequestsExpose(h, o2.w, s.body, true);
      ExposedByNext(w, o2.w, o3.w);
    }
  }

  lemma {:induction false} RequestsExpose(h: Hierarchy, w: World, r: Requests, catching: bool)
    requires w.stack != [] && RequestsCareless(h, w, r, catching)
    ensures Exposed(w, RunRequests(h, w, r, catching).w)
    decreases r, 0
  {
    hide Frame, Exposed;
    var o := InitializeClass(h, w, r.klass, r.script);
    InitializationFrame(h, w, r.klass, r.script);
    FrameExtra(w, o.w);
    RequestsFrame(h, o.w, r.rest, catching);
    var w' := RunRequests(h, o.w, r.rest, catching).w;
    if Careless(h, w, r.klass, r.script) {
      CarelessExposes(h, w, r.klass, r.script);
      ExposedFurther(w, o.w, w');
    } else {
      RequestsExpose(h, o.w, r.rest, catching);
      ExposedByNext(w, o.w, w');
    }
  }

  /** Rolling back what an initialization leaves behind is harmless exactly if no initializer
      catches a failure and then completes. */
  lemma InitializationIsClean(h: Hierarchy, w: World, k: Class, s: Script)
    requires w.stack != []
    ensures Clean(h, w, InitializeClass(h, w, k, s).w) <==> !Careless(h, w, k, s)
  {
    hide InitializeClass, Careless;
    if Careless(h, w, k, s) {
      CarelessExposes(h, w, k, s);
    } else {
      InitializationClean(h, w, k, s);
    }
  }

  // --- Which transactions are left --------------------------------------------------------------------

  lemma {:induction false} RootsFurther(a: World, b: World, c: World, n: int)
    requires |a.stack| <= |b.stack| && Frame(b, c) && 0 <= n <= |b.stack|
    ensures Roots(c.stack, Extra(b, c) + n) == Roots(c.stack, Extra(b, c)) + Roots(b.stack, n)
    decreases n
  {
    if n > 0 {
      RootsFurther(a, b, c, n - 1);
      assert Kept(b, c, n - 1);
    }
  }

  /** `classes` are the roots of the additional transactions. */
  ghost predicate Leaves(w: World, w': World, classes: seq<Class>) {
    |w.stack| <= |w'.stack| && Roots(w'.stack, Extra(w, w')) == classes
  }

  lemma LeavesBoth(a: World, b: World, c: World, first: seq<Class>, second: seq<Class>)
    requires Leaves(a, b, first) && Frame(b, c) && Leaves(b, c, second)
    ensures Leaves(a, c, second + first)
  {
    RootsFurther(a, b, c, Extra(a, b));
  }

  lemma StaysNothing(w: World, w': World)
    requires w' == w || w' == Abort(w)
    ensures Leaves(w, w', [])
  {
  }

  /** Unless an initializer catches a failure and then completes, an initialization leaves exactly the
      transactions of the classes whose attempts failed in it, innermost the last to be attempted. */
  lemma {:induction false} InitializationLeaves(h: Hierarchy, w: World, k: Class, s: Script)
    requires w.stack != [] && !Careless(h, w, k, s)
    ensures Leaves(w, InitializeClass(h, w, k, s).w, Failed(h, w, k, s))
    decreases s, 2
  {
    hide Frame, Clean, Leaves, Roots;
    var o := InitializeClass(h, w, k, s);
    if StatusOf(w, k).Initialized? || StatusOf(w, k).Initializing? || k in h.boot || SuperInitializing(h, w, k) {
      StaysNothing(w, o.w);
    } else if StatusOf(Enter(w, k), k).Erroneous? || s.Unverifiable? {
      EnterLeaves(w, k);
      assert Failed(h, w, k, s) == [] + [k] == [k];
    } else {
      AttemptLeaves(h, w, k, s);
    }
  }

  lemma EnterLeaves(w: World, k: Class)
    ensures Leaves(w, Enter(w, k), [k])
  {
    var stack := Enter(w, k).stack;
    assert Roots(stack, 0) == [] && stack[0].root == k;
  }

  lemma {:induction false} AttemptLeaves(h: Hierarchy, w: World, k: Class, s: Script)
    requires w.stack != [] && s.Script? && StatusOf(w, k).Verified?
    requires k !in h.boot && !SuperInitializing(h, w, k) && !LinkerCareless(h, Enter(w, k), k, s)
    ensures Leaves(w, InitializeClass(h, w, k, s).w, Failed(h, w, k, s))
    decreases s, 1
  {
    hide Frame, Clean, Extra, Roots, Consistent, RunInitializer, InitializerCareless, InitializerCatches, FailedInside;
    var w1 := SetStatus(Enter(w, k), k, Initializing);
    assert Entered(w, k, w1);
    EnteredIs(w, k, w1);
    AttemptIs(h, w, k, s);
    AttemptClean(h, w, k, s);
    InitializerLeaves(h, w1, k, s);
    InitializerFrame(h, w1, k, s);
    var o, w2 := InitializeClass(h, w, k, s), RunInitializer(h, w1, k, s).w;
    if o.ok {
      SuccessFrame(w, k, w1, w2);
      NoRoots(w1, w2, FailedInside(h, w1, k, s));
      NoRoots(w, o.w, []);
    } else {
      OwnRoot(w, k, w1, w2, Erroneous);
    }
  }

  lemma NoRoots(w: World, w': World, classes: seq<Class>)
    requires |w.stack| <= |w'.stack| && Extra(w, w') == 0
    ensures Leaves(w, w', classes) <==> classes == []
  {
  }

  lemma {:induction false} InitializerLeaves(h: Hierarchy, w: World, k: Class, s: Script)
    requires w.stack != [] && s.Script? && !InitializerCareless(h, w, k, s)
    ensures Leaves(w, RunInitializer(h, w, k, s).w, FailedInside(h, w, k, s))
    decreases s, 0
  {
    hide Frame, Leaves, Roots;
    var o1 := InitializeSuper(h, w, k, s);
    InitializerFrame(h, w, k, s);
    FrameExtra(w, o1.w);
    if !HasSuper(h, k) || StatusOf(w, h.super[k]).Initialized? {
      StaysNothing(w, w);
    } else {
      InitializationLeaves(h, w, h.super[k], s.super);
    }
    if o1.ok {
      var o2 := RunRequests(h, o1.w, s.interfaces, false);
      RequestsFrame(h, o1.w, s.interfaces, false);
      FrameExtra(o1.w, o2.w);
      RequestsLeave(h, o1.w, s.interfaces, false);
      var first, second := FailedSuper(h, w, k, s), FailedRequests(h, o1.w, s.interfaces, false);
      LeavesBoth(w, o1.w, o2.w, first, second);
      if o2.ok {
        var o3 := RunRequests(h, o2.w, s.body, true);
        RequestsFrame(h, o2.w, s.body, true);
        RequestsLeave(h, o2.w, s.body, true);
        LeavesBoth(w, o2.w, o3.w, second + first, FailedRequests(h, o2.w, s.body, true));
      }
    }
  }

  lemma {:induction false} RequestsLeave(h: Hierarchy, w: World, r: Requests, catching: bool)
    requires w.stack != [] && !RequestsCareless(h, w, r, catching)
    ensures Leaves(w, RunRequests(h, w, r, catching).w, FailedRequests(h, w, r, catching))
    decreases r, 0
  {
    hide Frame, Leaves, Roots;
    if r.Done? {
      StaysNothing(w, w);
    } else {
      var o := InitializeClass(h, w, r.klass, r.script);
      InitializationFrame(h, w, r.klass, r.script);
      FrameExtra(w, o.w);
      InitializationLeaves(h, w, r.klass, r.script);
      if o.ok || (catching && r.caught) {
        var o' := RunRequests(h, o.w, r.rest, catching);
        RequestsFrame(h, o.w, r.rest, catching);
        RequestsLeave(h, o.w, r.rest, catching);
        LeavesBoth(w, o.w, o'.w, Failed(h, w, r.klass, r.script), FailedRequests(h, o.w, r.rest, catching));
      }
    }
  }

  /** A successful initialization leaves as many transactions as there were exactly if no
      initializer that completed had caught a failure; a failed one leaves more, or an abort. If none
      did, the additional transactions are those of the classes whose attempts failed. */
  lemma StackHeight(h: Hierarchy, w: World, k: Class, s: Script)
    requires w.stack != []
    ensures var o := InitializeClass(h, w, k, s);
      && |w.stack| <= |o.w.stack|
      && (o.ok ==> (|o.w.stack| == |w.stack| <==> !Careless(h, w, k, s)))
      && (!o.ok ==> |o.w.stack| > |w.stack| || o.w.stack[0].aborted)
      && (!Careless(h, w, k, s) ==> Roots(o.w.stack, |o.w.stack| - |w.stack|) == Failed(h, w, k, s))
  {
    hide Clean, Frame, Exposed, InitializeClass, Careless, Consistent, Failed, Roots;
    var o := InitializeClass(h, w, k, s);
    InitializationFrame(h, w, k, s);
    FrameExtra(w, o.w);
    if !o.ok {
      FailureShows(h, w, k, s);
    }
    if Careless(h, w, k, s) {
      CarelessExposes(h, w, k, s);
      ExposedExtra(w, o.w);
    } else {
      InitializationClean(h, w, k, s);
      InitializationLeaves(h, w, k, s);
    }
  }
}
