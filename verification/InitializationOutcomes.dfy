/** When an initialization succeeds, when it is refused, and what it leaves of the statuses. */
module InitializationOutcomes {
  import opened ClassInitialization
  import opened StrictMode

  // --- Refused --------------------------------------------------------------------------------------

  /** An initialization fails without entering a transaction exactly if the class is neither
      initialized nor initializing, and is a boot class or has a superclass that is being
      initialized. Then the innermost transaction is aborted and nothing else happens. */
  lemma RefusedExactlyWhen(h: Hierarchy, w: World, k: Class, s: Script)
    requires w.stack != []
    ensures var o := InitializeClass(h, w, k, s);
      var refused :=
        && StatusOf(w, k) != Initialized && StatusOf(w, k) != Initializing
        && (k in h.boot || (k !in h.interfaces && k in h.super && StatusOf(w, h.super[k]) == Initializing));
      && (!o.ok && |o.w.stack| == |w.stack| <==> refused)
      && (refused ==> o.w == w.(stack := [w.stack[0].(aborted := true)] + w.stack[1..]))
  {
    var o := InitializeClass(h, w, k, s);
    if StatusOf(w, k) != Initialized && StatusOf(w, k) != Initializing && k !in h.boot && !SuperInitializing(h, w, k) {
      if StatusOf(w, k).Verified? && s.Script? {
        var w1 := SetStatus(Enter(w, k), k, Initializing);
        assert Entered(w, k, w1);
        AttemptIs(h, w, k, s);
        InitializerFrame(h, w1, k, s);
        OwnRoot(w, k, w1, RunInitializer(h, w1, k, s).w, Erroneous);
      }
    } else {
      assert w.stack == [w.stack[0]] + w.stack[1..];
    }
  }

  /** A class that is initialized, or whose initialization is going on, is left alone. */
  lemma LeftAlone(h: Hierarchy, w: World, k: Class, s: Script)
    requires StatusOf(w, k) == Initialized || StatusOf(w, k) == Initializing
    ensures InitializeClass(h, w, k, s).ok && InitializeClass(h, w, k, s).w == w
  {
  }

  // --- Attempted ------------------------------------------------------------------------------------

  /** The class is not initialized yet, and nothing speaks against trying. */
  predicate Attempted(h: Hierarchy, w: World, k: Class) {
    && (StatusOf(w, k) == Verified || StatusOf(w, k) == Erroneous)
    && k !in h.boot
    && (k !in h.interfaces && k in h.super ==> StatusOf(w, h.super[k]) != Initializing)
  }

  /** What the requests leave behind, if each of them is made. */
  function AfterRequests(h: Hierarchy, w: World, r: Requests): World
    decreases r
  {
    if r.Done? then w else AfterRequests(h, InitializeClass(h, w, r.klass, r.script).w, r.rest)
  }

  /** Every request succeeds, or fails and its failure is caught. */
  predicate Answered(h: Hierarchy, w: World, r: Requests, catching: bool)
    decreases r
  {
    r.Request? ==>
      && (InitializeClass(h, w, r.klass, r.script).ok || (catching && r.caught))
      && Answered(h, InitializeClass(h, w, r.klass, r.script).w, r.rest, catching)
  }

  lemma {:induction false} RequestsSucceed(h: Hierarchy, w: World, r: Requests, catching: bool)
    ensures RunRequests(h, w, r, catching).ok <==> Answered(h, w, r, catching)
    ensures RunRequests(h, w, r, catching).ok ==> RunRequests(h, w, r, catching).w == AfterRequests(h, w, r)
    decreases r
  {
    hide InitializeClass;
    if r.Request? {
      RequestsNext(h, w, r, catching);
      RequestsSucceed(h, InitializeClass(h, w, r.klass, r.script).w, r.rest, catching);
    }
  }

  /** The superclass has to be initialized first. */
  predicate NeedsSuper(h: Hierarchy, w: World, k: Class) {
    k !in h.interfaces && k in h.super && StatusOf(w, h.super[k]) != Initialized
  }

  /** An attempt succeeds exactly if the class verifies and is not erroneous, its superclass and its
      interfaces can be initialized, its initializer catches every failure of a request, does not
      throw in the end, and the transaction is not aborted by then. A failed one leaves the class
      erroneous, or as it was if it did not come to the initializer. */
  lemma SucceedsExactlyWhen(h: Hierarchy, w: World, k: Class, s: Script)
    requires Attempted(h, w, k)
    ensures StatusOf(w, k) == Erroneous || s == Unverifiable ==>
      !InitializeClass(h, w, k, s).ok && InitializeClass(h, w, k, s).w == Enter(w, k)
    ensures StatusOf(w, k) == Verified && s != Unverifiable ==>
      var o := InitializeClass(h, w, k, s);
      var w1 := SetStatus(Enter(w, k), k, Initializing);
      var w2 := if NeedsSuper(h, w1, k) then InitializeClass(h, w1, h.super[k], s.super).w else w1;
      var w3 := AfterRequests(h, w2, s.interfaces);
      var w4 := AfterRequests(h, w3, s.body);
      && (o.ok <==>
            && (NeedsSuper(h, w1, k) ==> InitializeClass(h, w1, h.super[k], s.super).ok)
            && Answered(h, w2, s.interfaces, false) && Answered(h, w3, s.body, true)
            && !s.throws && !(w4.stack != [] && w4.stack[0].aborted))
      && StatusOf(o.w, k) == if o.ok then Initialized else Erroneous
  {
    if StatusOf(w, k) == Verified && s != Unverifiable {
      var w1 := SetStatus(Enter(w, k), k, Initializing);
      assert StatusOf(Enter(w, k), k) == Verified;
      LinkerIs(h, Enter(w, k), k, s);
      AttemptIs(h, w, k, s);
      InitializerIs(h, w1, k, s);
      var o2 := RunInitializer(h, w1, k, s);
      hide InitializeClass, RunInitializer, LinkerInitializeClass, AfterRequests, Answered;
      assert StatusOf(SetStatus(o2.w, k, Erroneous), k) == Erroneous;
      assert StatusOf(Exit(SetStatus(o2.w, k, Initialized)), k) == Initialized;
    }
  }

  lemma LinkerIs(h: Hierarchy, w: World, k: Class, s: Script)
    requires StatusOf(w, k) == Verified && s != Unverifiable
    ensures var o := RunInitializer(h, SetStatus(w, k, Initializing), k, s);
      LinkerInitializeClass(h, w, k, s).ok <==> o.ok && !s.throws && !(o.w.stack != [] && o.w.stack[0].aborted)
  {
  }

  lemma InitializerIs(h: Hierarchy, w: World, k: Class, s: Script)
    requires s.Script?
    ensures
      var w2 := if NeedsSuper(h, w, k) then InitializeClass(h, w, h.super[k], s.super).w else w;
      var w3 := AfterRequests(h, w2, s.interfaces);
      && (RunInitializer(h, w, k, s).ok <==>
            && (NeedsSuper(h, w, k) ==> InitializeClass(h, w, h.super[k], s.super).ok)
            && Answered(h, w2, s.interfaces, false) && Answered(h, w3, s.body, true))
      && (RunInitializer(h, w, k, s).ok ==> RunInitializer(h, w, k, s).w == AfterRequests(h, w3, s.body))
  {
    var o1 := InitializeSuper(h, w, k, s);
    var o2 := RunRequests(h, o1.w, s.interfaces, false);
    RequestsSucceed(h, o1.w, s.interfaces, false);
    RequestsSucceed(h, o2.w, s.body, true);
  }

  /** `c` is among the requests, and its failure is not caught. */
  predicate Insists(r: Requests, catching: bool, c: Class) {
    r.Request? && ((r.klass == c && !(catching && r.caught)) || Insists(r.rest, catching, c))
  }

  /** What was insisted on is initialized afterwards, unless its initialization is going on. */
  lemma {:induction false} InsistedIsInitialized(h: Hierarchy, w: World, r: Requests, catching: bool, c: Class)
    requires RunRequests(h, w, r, catching).ok && Insists(r, catching, c)
    ensures StatusOf(RunRequests(h, w, r, catching).w, c) == Initialized || StatusOf(w, c) == Initializing
    decreases r
  {
    var o := InitializeClass(h, w, r.klass, r.script);
    InitializationFrame(h, w, r.klass, r.script);
    RequestsFrame(h, o.w, r.rest, catching);
    assert Progress(w, o.w) && Progress(o.w, RunRequests(h, o.w, r.rest, catching).w);
    if r.klass == c && !(catching && r.caught) {
      SuccessInitializes(h, w, c, r.script);
    } else {
      InsistedIsInitialized(h, o.w, r.rest, catching, c);
      if StatusOf(o.w, c) == Initializing {
        BecomesInitializing(h, w, r.klass, r.script, c);
      }
    }
  }

  /** Once an initialization has ended, no more classes are being initialized than before. */
  lemma {:induction false} BecomesInitializing(h: Hierarchy, w: World, k: Class, s: Script, c: Class)
    requires StatusOf(InitializeClass(h, w, k, s).w, c) == Initializing
    ensures StatusOf(w, c) == Initializing
    decreases s, 2
  {
    if Attempted(h, w, k) && StatusOf(w, k) == Verified && s.Script? {
      var w1 := SetStatus(Enter(w, k), k, Initializing);
      AttemptIs(h, w, k, s);
      InitializerInitializing(h, w1, k, s, c);
    }
  }

  lemma {:induction false} InitializerInitializing(h: Hierarchy, w: World, k: Class, s: Script, c: Class)
    requires s.Script? && StatusOf(RunInitializer(h, w, k, s).w, c) == Initializing
    ensures StatusOf(w, c) == Initializing
    decreases s, 1
  {
    var o1 := InitializeSuper(h, w, k, s);
    var o2 := RunRequests(h, o1.w, s.interfaces, false);
    if o1.ok && o2.ok {
      RequestsInitializing(h, o2.w, s.body, true, c);
    }
    if o1.ok {
      RequestsInitializing(h, o1.w, s.interfaces, false, c);
    }
    if NeedsSuper(h, w, k) {
      BecomesInitializing(h, w, h.super[k], s.super, c);
    }
  }

  lemma {:induction false} RequestsInitializing(h: Hierarchy, w: World, r: Requests, catching: bool, c: Class)
    requires StatusOf(RunRequests(h, w, r, catching).w, c) == Initializing
    ensures StatusOf(w, c) == Initializing
    decreases r, 0
  {
    if r.Request? {
      var o := InitializeClass(h, w, r.klass, r.script);
      if o.ok || (catching && r.caught) {
        RequestsInitializing(h, o.w, r.rest, catching, c);
      }
      BecomesInitializing(h, w, r.klass, r.script, c);
    }
  }

  // --- A chain of superclasses ----------------------------------------------------------------------

  /** A class and all its superclasses, none of them twice. */
  ghost predicate IsChain(h: Hierarchy, chain: seq<Class>) {
    && chain != []
    && (forall i :: 0 <= i < |chain| - 1 ==>
          chain[i] !in h.interfaces && chain[i] in h.super && h.super[chain[i]] == chain[i + 1])
    && (chain[|chain| - 1] in h.interfaces || chain[|chain| - 1] !in h.super)
    && (forall i, j :: 0 <= i < j < |chain| ==> chain[i] != chain[j])
  }

  /** Verification succeeds, and the initializers request nothing and do not throw, `n` classes up. */
  predicate Quiet(s: Script, n: nat) {
    n > 0 ==> s.Script? && s.interfaces.Done? && s.body.Done? && !s.throws && Quiet(s.super, n - 1)
  }

  lemma {:induction false} InitializedUpwards(h: Hierarchy, w: World, chain: seq<Class>)
    requires IsChain(h, chain) && Consistent(h, w) && StatusOf(w, chain[0]) == Initialized
    ensures forall c :: c in chain ==> StatusOf(w, c) == Initialized
    decreases |chain|
  {
    if |chain| > 1 {
      assert HasSuper(h, chain[0]) && h.super[chain[0]] == chain[1];
      ChainTail(h, chain);
      InitializedUpwards(h, w, chain[1..]);
    }
  }

  lemma ChainTail(h: Hierarchy, chain: seq<Class>)
    requires IsChain(h, chain) && |chain| > 1
    ensures IsChain(h, chain[1..]) && chain[0] !in chain[1..]
    ensures forall c :: c in chain <==> c == chain[0] || c in chain[1..]
  {
    var rest := chain[1..];
    forall i | 0 <= i < |rest| - 1
      ensures rest[i] !in h.interfaces && rest[i] in h.super && h.super[rest[i]] == rest[i + 1]
    {
      assert rest[i] == chain[i + 1];
    }
    assert chain == [chain[0]] + rest;
  }

  /** Classes that can be initialized are: if a class and its superclasses are outside the boot class
      path, and each is initialized or ready to be, an initialization whose initializers do
      nothing that fails succeeds, and initializes exactly these. */
  lemma {:induction false} ChainInitializes(h: Hierarchy, w: World, chain: seq<Class>, s: Script)
    requires IsChain(h, chain) && Consistent(h, w) && Quiet(s, |chain|)
    requires forall c :: c in chain ==> c !in h.boot && (StatusOf(w, c) == Verified || StatusOf(w, c) == Initialized)
    ensures var o := InitializeClass(h, w, chain[0], s);
      && o.ok && o.w.stack == w.stack
      && forall c :: StatusOf(o.w, c) == if c in chain then Initialized else StatusOf(w, c)
    decreases |chain|
  {
    var k := chain[0];
    if StatusOf(w, k) == Initialized {
      InitializedUpwards(h, w, chain);
    } else {
      var w1 := SetStatus(Enter(w, k), k, Initializing);
      assert Entered(w, k, w1);
      EnteredIs(w, k, w1);
      ChainStarts(h, w, chain);
      assert Attempted(h, w, k);
      SucceedsExactlyWhen(h, w, k, s);
      AttemptIs(h, w, k, s);
      InitializerIs(h, w1, k, s);
      var w2 := RunInitializer(h, w1, k, s).w;
      if |chain| > 1 {
        SuperInitializes(h, w, chain, s, w1);
      }
      Finished(w, k, w1, w2);
    }
  }

  lemma ChainStarts(h: Hierarchy, w: World, chain: seq<Class>)
    requires IsChain(h, chain)
    ensures HasSuper(h, chain[0]) <==> |chain| > 1
    ensures |chain| > 1 ==> h.super[chain[0]] == chain[1] && chain[1] in chain
    ensures |chain| == 1 ==> forall c :: c in chain <==> c == chain[0]
  {
  }

  /** The superclass part of it. */
  lemma {:induction false} SuperInitializes(h: Hierarchy, w: World, chain: seq<Class>, s: Script, w1: World)
    requires IsChain(h, chain) && |chain| > 1 && Consistent(h, w) && Quiet(s, |chain|)
    requires forall c :: c in chain ==> c !in h.boot && (StatusOf(w, c) == Verified || StatusOf(w, c) == Initialized)
    requires StatusOf(w, chain[0]) == Verified && Entered(w, chain[0], w1)
    ensures var o := InitializeSuper(h, w1, chain[0], s);
      && o.ok && o.w.stack == w1.stack
      && forall c :: StatusOf(o.w, c) == if c in chain[1..] then Initialized else StatusOf(w1, c)
    decreases |chain|, 0
  {
    var rest := chain[1..];
    EnteredIs(w, chain[0], w1);
    ChainTail(h, chain);
    ChainStarts(h, w, chain);
    assert Consistent(h, w1);
    if StatusOf(w1, rest[0]) == Initialized {
      InitializedUpwards(h, w1, rest);
    } else {
      ChainInitializes(h, w1, rest, s.super);
    }
  }

  /** Marking the class and leaving the transaction. */
  lemma Finished(w: World, k: Class, w1: World, w2: World)
    requires Entered(w, k, w1) && w2.stack == w1.stack
    ensures var w3 := Exit(SetStatus(w2, k, Initialized));
      w3.stack == w.stack && forall c :: StatusOf(w3, c) == if c == k then Initialized else StatusOf(w2, c)
  {
    EnteredIs(w, k, w1);
  }
}
