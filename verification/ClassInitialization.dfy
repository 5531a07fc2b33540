/** Class initialization in strict mode: `AotClassLinker::InitializeClass` wraps every class
    initializer in a transaction of its own, on top of `ClassLinker::InitializeClass`. Only the
    class statuses are modelled of what a transaction records. */
module ClassInitialization {

  type Class = int

  /** The statuses that matter here; `Verified` stands for a class ready to be initialized. */
  datatype Status = Verified | Initializing | Initialized | Erroneous

  datatype Hierarchy = Hierarchy(super: map<Class, Class>, interfaces: set<Class>, boot: set<Class>)

  /** A transaction on the stack: its first-write-wins record of statuses, and its abort flag. */
  datatype Tx = Tx(root: Class, log: map<Class, Status>, aborted: bool)

  /** `stack` is innermost first. Classes without an entry are `Verified`. */
  datatype World = World(status: map<Class, Status>, stack: seq<Tx>)

  /** What the environment contributes to one initialization: whether verification succeeds, what
      happens when the superclass and the interfaces with default methods are initialized, which
      initializations the class initializer requests and whether it catches their failures, and
      whether it throws in the end. */
  datatype Script =
    | Unverifiable
    | Script(super: Script, interfaces: Requests, body: Requests, throws: bool)

  datatype Requests = Done | Request(klass: Class, script: Script, caught: bool, rest: Requests)

  datatype Outcome = Outcome(w: World, ok: bool)

  function StatusOf(w: World, k: Class): Status {
    if k in w.status then w.status[k] else Verified
  }

  /** A status write is recorded by the innermost transaction. */
  function SetStatus(w: World, k: Class, st: Status): World {
    var w' := w.(status := w.status[k := st]);
    if w.stack == [] || k in w.stack[0].log then w'
    else w'.(stack := w.stack[0 := w.stack[0].(log := w.stack[0].log[k := StatusOf(w, k)])])
  }

  function Abort(w: World): World {
    if w.stack == [] then w else w.(stack := w.stack[0 := w.stack[0].(aborted := true)])
  }

  function Enter(w: World, k: Class): World {
    w.(stack := [Tx(k, map[], false)] + w.stack)
  }

  function Exit(w: World): World {
    if w.stack == [] then w else w.(stack := w.stack[1..])
  }

  /** The superclass, where it matters. */
  predicate HasSuper(h: Hierarchy, k: Class) { k !in h.interfaces && k in h.super }

  predicate SuperInitializing(h: Hierarchy, w: World, k: Class) {
    HasSuper(h, k) && StatusOf(w, h.super[k]).Initializing?
  }

  /** `AotClassLinker::InitializeClass` while a strict transaction is active. */
  function InitializeClass(h: Hierarchy, w: World, k: Class, s: Script): Outcome
    decreases s, 2
  {
    if StatusOf(w, k).Initialized? || StatusOf(w, k).Initializing? then Outcome(w, true)
    else if k in h.boot then Outcome(Abort(w), false)
    else if SuperInitializing(h, w, k) then Outcome(Abort(w), false)
    else
      var o := LinkerInitializeClass(h, Enter(w, k), k, s);
      if o.ok then o.(w := Exit(o.w)) else o
  }

  /** `ClassLinker::InitializeClass`, for a class that is neither initialized nor initializing. */
  function LinkerInitializeClass(h: Hierarchy, w: World, k: Class, s: Script): Outcome
    decreases s, 1
  {
    if StatusOf(w, k).Erroneous? || s.Unverifiable? then Outcome(w, false)
    else
      var o := RunInitializer(h, SetStatus(w, k, Initializing), k, s);
      if !o.ok || s.throws || (o.w.stack != [] && o.w.stack[0].aborted)
      then Outcome(SetStatus(o.w, k, Erroneous), false)
      else Outcome(SetStatus(o.w, k, Initialized), true)
  }

  /** The superclass, the interfaces and the initializer itself, up to the first failure. */
  function RunInitializer(h: Hierarchy, w: World, k: Class, s: Script): Outcome
    requires s.Script?
    decreases s, 0, 2
  {
    var o1 := InitializeSuper(h, w, k, s);
    if !o1.ok then o1
    else
      var o2 := RunRequests(h, o1.w, s.interfaces, false);
      if !o2.ok then o2 else RunRequests(h, o2.w, s.body, true)
  }

  function InitializeSuper(h: Hierarchy, w: World, k: Class, s: Script): Outcome
    requires s.Script?
    decreases s, 0, 1
  {
    if !HasSuper(h, k) || StatusOf(w, h.super[k]).Initialized? then Outcome(w, true)
    else InitializeClass(h, w, h.super[k], s.super)
  }

  /** Requests in order; the first failure that is not caught ends the sequence. */
  function RunRequests(h: Hierarchy, w: World, r: Requests, catching: bool): Outcome
    decreases r, 0
  {
    if r.Done? then Outcome(w, true)
    else
      var o := InitializeClass(h, w, r.klass, r.script);
      if !o.ok && !(catching && r.caught) then o else RunRequests(h, o.w, r.rest, catching)
  }

  /** `RollbackAndExitTransactionMode` and `RollbackAllTransactions`, on statuses. */
  function Rollback(w: World): World
    requires w.stack != []
  {
    World(w.status + w.stack[0].log, w.stack[1..])
  }

  function RollbackAll(w: World): World
    decreases |w.stack|
  {
    if w.stack == [] then w else RollbackAll(Rollback(w))
  }

  // --- Completing after a caught failure --------------------------------------------------------

  /** An initializer catches the failure of one of its own requests. */
  predicate Catches(h: Hierarchy, w: World, r: Requests, catching: bool)
    decreases r
  {
    r.Request? && catching &&
      var o := InitializeClass(h, w, r.klass, r.script);
      (!o.ok && r.caught) || ((o.ok || r.caught) && Catches(h, o.w, r.rest, catching))
  }

  /** Somewhere in an initialization, an initializer catches a failure and then completes. */
  predicate Careless(h: Hierarchy, w: World, k: Class, s: Script)
    decreases s, 2
  {
    && !StatusOf(w, k).Initialized? && !StatusOf(w, k).Initializing? && k !in h.boot && !SuperInitializing(h, w, k)
    && LinkerCareless(h, Enter(w, k), k, s)
  }

  predicate LinkerCareless(h: Hierarchy, w: World, k: Class, s: Script)
    decreases s, 1
  {
    && !StatusOf(w, k).Erroneous? && s.Script?
    && var w1 := SetStatus(w, k, Initializing);
    || InitializerCareless(h, w1, k, s)
    || (InitializerCatches(h, w1, k, s) && LinkerInitializeClass(h, w, k, s).ok)
  }

  predicate InitializerCareless(h: Hierarchy, w: World, k: Class, s: Script)
    requires s.Script?
    decreases s, 0, 2
  {
    var o1 := InitializeSuper(h, w, k, s);
    || SuperCareless(h, w, k, s)
    || (o1.ok &&
          var o2 := RunRequests(h, o1.w, s.interfaces, false);
          || RequestsCareless(h, o1.w, s.interfaces, false)
          || (o2.ok && RequestsCareless(h, o2.w, s.body, true)))
  }

  predicate InitializerCatches(h: Hierarchy, w: World, k: Class, s: Script)
    requires s.Script?
  {
    var o1 := InitializeSuper(h, w, k, s);
    o1.ok &&
      var o2 := RunRequests(h, o1.w, s.interfaces, false);
      o2.ok && Catches(h, o2.w, s.body, true)
  }

  predicate SuperCareless(h: Hierarchy, w: World, k: Class, s: Script)
    requires s.Script?
    decreases s, 0, 1
  {
    HasSuper(h, k) && !StatusOf(w, h.super[k]).Initialized? && Careless(h, w, h.super[k], s.super)
  }

  predicate RequestsCareless(h: Hierarchy, w: World, r: Requests, catching: bool)
    decreases r, 0
  {
    r.Request? &&
      var o := InitializeClass(h, w, r.klass, r.script);
      Careless(h, w, r.klass, r.script)
        || ((o.ok || (catching && r.caught)) && RequestsCareless(h, o.w, r.rest, catching))
  }

  // --- Failing ------------------------------------------------------------------------------------

  /** The classes whose initialization was attempted and failed, the last attempt first. */
  function Failed(h: Hierarchy, w: World, k: Class, s: Script): seq<Class>
    decreases s, 2
  {
    if StatusOf(w, k).Initialized? || StatusOf(w, k).Initializing? || k in h.boot || SuperInitializing(h, w, k) then []
    else
      var inside :=
        if StatusOf(w, k).Erroneous? || s.Unverifiable? then []
        else FailedInside(h, SetStatus(Enter(w, k), k, Initializing), k, s);
      if LinkerInitializeClass(h, Enter(w, k), k, s).ok then inside else inside + [k]
  }

  function FailedInside(h: Hierarchy, w: World, k: Class, s: Script): seq<Class>
    requires s.Script?
    decreases s, 0, 2
  {
    var o1 := InitializeSuper(h, w, k, s);
    var o2 := RunRequests(h, o1.w, s.interfaces, false);
    var first := FailedSuper(h, w, k, s);
    var second := if o1.ok then FailedRequests(h, o1.w, s.interfaces, false) + first else first;
    if o1.ok && o2.ok then FailedRequests(h, o2.w, s.body, true) + second else second
  }

  function FailedSuper(h: Hierarchy, w: World, k: Class, s: Script): seq<Class>
    requires s.Script?
    decreases s, 0, 1
  {
    if !HasSuper(h, k) || StatusOf(w, h.super[k]).Initialized? then [] else Failed(h, w, h.super[k], s.super)
  }

  function FailedRequests(h: Hierarchy, w: World, r: Requests, catching: bool): seq<Class>
    decreases r, 0
  {
    if r.Done? then []
    else
      var o := InitializeClass(h, w, r.klass, r.script);
      var first := Failed(h, w, r.klass, r.script);
      if !o.ok && !(catching && r.caught) then first else FailedRequests(h, o.w, r.rest, catching) + first
  }
}
