/** `ArtdCancellationSignal`: every operation runs under one mutex, so a run of any number of threads
    is a sequence of operations. The log records what happened in it. */
module Cancellation {
  import Sets

  type Pid = int

  datatype Event = Cancelled | Started(pid: Pid) | Ended(pid: Pid) | Killed(pid: Pid)

  /** The last of the start and end events of a process is a start. */
  predicate Registered(log: seq<Event>, p: Pid) {
    if log == [] then false
    else
      var last := log[|log| - 1];
      if last == Started(p) then true
      else if last == Ended(p) then false
      else Registered(log[..|log| - 1], p)
  }

  /** A signal was sent, and the process has not been started again since. */
  predicate KilledSinceStart(log: seq<Event>, p: Pid) {
    if log == [] then false
    else
      var last := log[|log| - 1];
      if last == Killed(p) then true
      else if last == Started(p) then false
      else KilledSinceStart(log[..|log| - 1], p)
  }

  /** Signals only go to processes that are registered, after a cancellation. */
  ghost predicate Orderly(log: seq<Event>) {
    forall i :: 0 <= i < |log| && log[i].Killed? ==> Registered(log[..i], log[i].pid) && Cancelled in log[..i]
  }

  function Kills(order: seq<Pid>): seq<Event> {
    if order == [] then [] else Kills(order[..|order| - 1]) + [Killed(order[|order| - 1])]
  }

  /** The order in which a set of processes is signalled: each of them, once. */
  ghost predicate Lists(order: seq<Pid>, pids: set<Pid>) {
    && (forall p :: p in order <==> p in pids)
    && (forall i, j :: 0 <= i < j < |order| ==> order[i] != order[j])
  }

  lemma NothingListed(log: seq<Event>, pids: set<Pid>)
    ensures log + Kills([]) == log && Lists([], pids - pids)
  {
  }

  lemma OneMoreKill(log: seq<Event>, order: seq<Pid>, pid: Pid)
    ensures log + Kills(order + [pid]) == log + Kills(order) + [Killed(pid)]
  {
    assert (order + [pid])[..|order|] == order;
  }

  lemma OneMoreListed(order: seq<Pid>, pids: set<Pid>, rest: set<Pid>, pid: Pid)
    requires Lists(order, pids - rest) && pid in rest && rest <= pids
    ensures Lists(order + [pid], pids - (rest - {pid}))
  {
    assert forall p :: p in order + [pid] <==> p in order || p == pid;
  }

  class CancellationSignal {
    var isCancelled: bool
    var pids: set<Pid>
    ghost var log: seq<Event>

    ghost predicate Valid()
      reads this
    {
      && (isCancelled <==> Cancelled in log)
      && (forall p :: p in pids <==> Registered(log, p))
      && (isCancelled ==> forall p :: p in pids ==> KilledSinceStart(log, p))
      && Orderly(log)
    }

    constructor ()
      ensures Valid() && !isCancelled && pids == {} && log == []
    {
      isCancelled, pids, log := false, {}, [];
    }

    /** What an event changes about the log. */
    ghost method Record(e: Event)
      requires Orderly(log) && (e.Killed? ==> Registered(log, e.pid) && Cancelled in log)
      modifies this`log
      ensures log == old(log) + [e] && Orderly(log)
      ensures forall p ::
        Registered(log, p) == (e == Started(p) || (e != Ended(p) && Registered(old(log), p)))
      ensures forall p ::
        KilledSinceStart(log, p) == (e == Killed(p) || (e != Started(p) && KilledSinceStart(old(log), p)))
    {
      ghost var was := log;
      log := log + [e];
      assert log[..|log| - 1] == was;
      assert forall i :: 0 <= i < |was| ==> log[..i] == was[..i];
    }

    method Cancel() returns (ghost order: seq<Pid>)
      requires Valid()
      modifies this
      ensures Valid() && isCancelled && pids == old(pids)
      ensures log == old(log) + [Cancelled] + Kills(order) && Lists(order, pids)
      ensures forall p :: p in pids ==> KilledSinceStart(log, p)
    {
      hide Kills, Lists, KilledSinceStart, Registered;
      isCancelled := true;
      Record(Cancelled);
      order := [];
      NothingListed(old(log) + [Cancelled], pids);
      var rest := pids;
      while rest != {}
        invariant rest <= pids && isCancelled && pids == old(pids)
        invariant Cancelled in log && Orderly(log)
        invariant log == old(log) + [Cancelled] + Kills(order) && Lists(order, pids - rest)
        invariant forall p :: p in pids <==> Registered(log, p)
        invariant forall p :: p in pids - rest ==> KilledSinceStart(log, p)
        decreases |rest|
      {
        Sets.NonEmpty(rest);
        var pid :| pid in rest;
        Record(Killed(pid));
        OneMoreKill(old(log) + [Cancelled], order, pid);
        OneMoreListed(order, pids, rest, pid);
        order, rest := order + [pid], rest - {pid};
      }
      assert pids - rest == pids;
    }

    method OnStart(pid: Pid)
      requires Valid()
      modifies this
      ensures Valid() && isCancelled == old(isCancelled) && pids == old(pids) + {pid}
      ensures log == old(log) + [Started(pid)] + if isCancelled then [Killed(pid)] else []
      ensures isCancelled ==> KilledSinceStart(log, pid)
    {
      pids := pids + {pid};
      Record(Started(pid));
      if isCancelled {
        Record(Killed(pid));
      }
    }

    method OnEnd(pid: Pid)
      requires Valid()
      modifies this
      ensures Valid() && isCancelled == old(isCancelled) && pids == old(pids) - {pid}
      ensures log == old(log) + [Ended(pid)]
    {
      pids := pids - {pid};
      Record(Ended(pid));
    }
  }

  // --- Whole runs ---------------------------------------------------------------------------------

  datatype Call = Cancel | Start(pid: Pid) | End(pid: Pid)

  /** The calls a log is about; signals are not calls. */
  function CallsIn(log: seq<Event>): seq<Call> {
    if log == [] then []
    else
      var before := CallsIn(log[..|log| - 1]);
      match log[|log| - 1]
      case Cancelled => before + [Cancel]
      case Started(p) => before + [Start(p)]
      case Ended(p) => before + [End(p)]
      case Killed(_) => before
  }

  /** The last of the start and end calls for a process is a start. */
  predicate LastIsStart(calls: seq<Call>, p: Pid) {
    calls != [] && var last := calls[|calls| - 1];
      last == Start(p) || (last != End(p) && LastIsStart(calls[..|calls| - 1], p))
  }

  /** What one call adds to the log: a cancellation signals every registered process once, and a
      start signals the process if there has been a cancellation. */
  ghost predicate Adds(log: seq<Event>, call: Call, events: seq<Event>) {
    match call
    case Cancel => exists order :: events == [Cancelled] + Kills(order) && SignalsRegistered(log, order)
    case Start(p) => events == [Started(p)] + if Cancelled in log then [Killed(p)] else []
    case End(p) => events == [Ended(p)]
  }

  ghost predicate SignalsRegistered(log: seq<Event>, order: seq<Pid>) {
    && (forall p :: p in order <==> Registered(log, p))
    && (forall i, j :: 0 <= i < j < |order| ==> order[i] != order[j])
  }

  /** A log of these calls. */
  ghost predicate IsLogOf(calls: seq<Call>, log: seq<Event>) {
    if calls == [] then log == []
    else exists n ::
        && 0 <= n <= |log|
        && IsLogOf(calls[..|calls| - 1], log[..n])
        && Adds(log[..n], calls[|calls| - 1], log[n..])
  }

  lemma LogExtended(calls: seq<Call>, log: seq<Event>, call: Call, events: seq<Event>)
    requires IsLogOf(calls, log) && Adds(log, call, events)
    ensures IsLogOf(calls + [call], log + events)
  {
    assert (calls + [call])[..|calls|] == calls;
    var n := |log|;
    assert (log + events)[..n] == log && (log + events)[n..] == events;
  }

  lemma RegisteredOnes(signal: CancellationSignal)
    requires signal.Valid()
    ensures forall p :: p in signal.pids <==> Registered(signal.log, p)
  {
  }

  lemma NoCallsNoLog()
    ensures IsLogOf([], [])
  {
  }

  /** One call. */
  method Perform(signal: CancellationSignal, call: Call) returns (ghost events: seq<Event>)
    requires signal.Valid()
    modifies signal
    ensures signal.Valid() && (signal.isCancelled <==> old(signal.isCancelled) || call == Cancel)
    ensures signal.log == old(signal.log) + events && Adds(old(signal.log), call, events)
  {
    hide Kills, KilledSinceStart, Registered, Orderly;
    match call {
      case Cancel =>
        ghost var order := signal.Cancel();
        events := [Cancelled] + Kills(order);
        assert SignalsRegistered(old(signal.log), order);
      case Start(pid) =>
        signal.OnStart(pid);
        events := [Started(pid)] + if Cancelled in old(signal.log) then [Killed(pid)] else [];
      case End(pid) =>
        signal.OnEnd(pid);
        events := [Ended(pid)];
    }
    assert signal.log == old(signal.log) + events;
  }

  /** Any interleaving of any number of threads. The log is determined by the calls, up to the order
      in which a cancellation signals the processes. */
  method Run(calls: seq<Call>) returns (signal: CancellationSignal)
    ensures fresh(signal) && signal.Valid()
    ensures signal.isCancelled <==> Cancel in calls
    ensures IsLogOf(calls, signal.log) && CallsIn(signal.log) == calls
    ensures forall p :: p in signal.pids <==> LastIsStart(calls, p)
  {
    hide *;
    signal := new CancellationSignal();
    NoCallsNoLog();
    for n := 0 to |calls|
      invariant fresh(signal) && signal.Valid()
      invariant signal.isCancelled <==> Cancel in calls[..n]
      invariant IsLogOf(calls[..n], signal.log)
    {
      assert calls[..n + 1] == calls[..n] + [calls[n]];
      ghost var log := signal.log;
      ghost var events := Perform(signal, calls[n]);
      LogExtended(calls[..n], log, calls[n], events);
    }
    assert calls[..|calls|] == calls;
    LogIsAboutCalls(calls, signal.log);
    RegisteredOnes(signal);
    forall p ensures p in signal.pids <==> LastIsStart(calls, p) {
      RegisteredByCalls(signal.log, p);
    }
  }

  lemma {:induction false} CallsAdded(log: seq<Event>, order: seq<Pid>)
    ensures CallsIn(log + Kills(order)) == CallsIn(log)
    decreases |order|
  {
    if order == [] {
      assert log + Kills(order) == log;
    } else {
      var init := order[..|order| - 1];
      var all := log + Kills(order);
      assert all[..|all| - 1] == log + Kills(init);
      CallsAdded(log, init);
    }
  }

  /** Leaving out the signals, a log is the sequence of calls. */
  lemma {:induction false} LogIsAboutCalls(calls: seq<Call>, log: seq<Event>)
    requires IsLogOf(calls, log)
    ensures CallsIn(log) == calls
    decreases |calls|
  {
    if calls != [] {
      var init, call := calls[..|calls| - 1], calls[|calls| - 1];
      assert calls == init + [call];
      var n :| 0 <= n <= |log| && IsLogOf(init, log[..n]) && Adds(log[..n], call, log[n..]);
      LogIsAboutCalls(init, log[..n]);
      OneCallAdded(log[..n], call, log[n..]);
      assert log == log[..n] + log[n..];
    }
  }

  lemma OneCallAdded(log: seq<Event>, call: Call, events: seq<Event>)
    requires Adds(log, call, events)
    ensures CallsIn(log + events) == CallsIn(log) + [call]
  {
    match call
    case Cancel =>
      var order :| events == [Cancelled] + Kills(order) && SignalsRegistered(log, order);
      OneEventAdded(log, Cancelled, order);
    case Start(p) =>
      OneEventAdded(log, Started(p), if Cancelled in log then [p] else []);
      assert Kills([p]) == [Killed(p)] && Kills([]) == [];
    case End(p) =>
      OneEventAdded(log, Ended(p), []);
  }

  lemma OneEventAdded(log: seq<Event>, e: Event, order: seq<Pid>)
    ensures CallsIn(log + ([e] + Kills(order))) == CallsIn(log + [e])
    ensures CallsIn(log + [e]) == CallsIn(log) + match e {
        case Cancelled => [Cancel] case Started(p) => [Start(p)] case Ended(p) => [End(p)] case Killed(_) => []
      }
  {
    assert (log + [e])[..|log|] == log;
    CallsAdded(log + [e], order);
    assert log + [e] + Kills(order) == log + ([e] + Kills(order));
  }

  lemma {:induction false} RegisteredByCalls(log: seq<Event>, p: Pid)
    ensures Registered(log, p) <==> LastIsStart(CallsIn(log), p)
  {
    if log != [] {
      var init := log[..|log| - 1];
      RegisteredByCalls(init, p);
      var calls := CallsIn(log);
      assert !log[|log| - 1].Killed? ==> calls[..|calls| - 1] == CallsIn(init);
    }
  }

  /** The start that makes a process registered. */
  lemma {:induction false} LastStart(log: seq<Event>, p: Pid) returns (i: int)
    requires Registered(log, p)
    ensures 0 <= i < |log| && log[i] == Started(p)
    ensures forall k :: i < k < |log| ==> log[k] != Started(p) && log[k] != Ended(p)
  {
    var n := |log| - 1;
    if log[n] == Started(p) {
      i := n;
    } else {
      i := LastStart(log[..n], p);
    }
  }

  /** A registered process that was signalled since its start: there is a signal after its last
      start, and it has not ended since then. */
  lemma {:induction false} SignalledAfterStart(log: seq<Event>, p: Pid) returns (i: int, j: int)
    requires Orderly(log) && Registered(log, p) && KilledSinceStart(log, p)
    ensures 0 <= i < j < |log| && log[i] == Started(p) && log[j] == Killed(p)
    ensures forall k :: i < k < |log| ==> log[k] != Started(p) && log[k] != Ended(p)
  {
    var n := |log| - 1;
    if log[n] == Killed(p) {
      i := LastStart(log[..n], p);
      j := n;
    } else {
      PrefixIsOrderly(log, n);
      i, j := SignalledAfterStart(log[..n], p);
    }
  }

  lemma PrefixIsOrderly(log: seq<Event>, n: int)
    requires Orderly(log) && 0 <= n <= |log|
    ensures Orderly(log[..n])
  {
    assert forall i :: 0 <= i < n ==> log[..n][..i] == log[..i];
  }

  /** No signal after the end of a process, unless it has been started again. */
  lemma NoSignalAfterEnd(log: seq<Event>, p: Pid, i: int, j: int)
    requires Orderly(log) && 0 <= i < j < |log| && log[i] == Ended(p) && log[j] == Killed(p)
    ensures exists k :: i < k < j && log[k] == Started(p)
  {
    var k := LastStart(log[..j], p);
    assert log[..j][i] == Ended(p);
  }
}
