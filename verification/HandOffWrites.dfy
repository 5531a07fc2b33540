/** Which DDM packets are written: exactly those that are due, in the order of the checks. */
module HandOffWrites {
  import opened Options
  import opened DebuggerHandOff
  import opened HandOffSafety
  import opened HandOffSteps
  import opened HandOffTheorems

  /** A thread or a reply that looks while it holds the lock is due to write exactly if there is a
      socket and the plugin knows that its handshake is complete. */
  function Due(s: Sys, step: Step): seq<Packet> {
    if s.p.socket.None? || !s.p.performed then []
    else match step
      case ByThread(id, Check) => [Packet(s.p.socket.value, Thread(id))]
      case ByPoll(ReplyCheck) => [Packet(s.p.socket.value, ThePoll)]
      case _ => []
  }

  /** All packets due in the first `n` steps. */
  function DueUpTo(states: seq<Sys>, steps: seq<Step>, n: nat): seq<Packet>
    requires n <= |steps| <= |states|
  {
    if n == 0 then [] else DueUpTo(states, steps, n - 1) + Due(states[n - 1], steps[n - 1])
  }

  /** What somebody is about to write. */
  ghost function Pending(poll: Poll, threads: map<int, Publisher>): seq<Packet> {
    if poll.ReplyChecked? then [Packet(poll.conn, ThePoll)]
    else if id :| id in threads && threads[id].Checked? then [Packet(threads[id].conn, Thread(id))]
    else []
  }

  /** A thread that holds the lock is alone. */
  lemma Alone(s: Sys, id: int)
    requires Inv(s) && id in s.threads
    ensures !PollHolds(s.p.poll) && forall other :: other in s.threads ==> other == id
  {
    hide InQueue, Protocol, SkipOnlyIfDone, WritingOk, WritesAreSafe;
    assert Thread(id) in s.lock.held;
    Leaves(s.lock, Thread(id));
    forall other | other in s.threads ensures other == id {
      assert Thread(other) in s.lock.held;
    }
  }

  lemma NoThreads(s: Sys)
    requires Inv(s) && (PollHolds(s.p.poll) || s.lock.counter > 0)
    ensures forall id :: id !in s.threads
    ensures s.lock.counter > 0 ==> !PollHolds(s.p.poll)
  {
    hide InQueue, Protocol, SkipOnlyIfDone, WritingOk, WritesAreSafe;
    if PollHolds(s.p.poll) {
      Leaves(s.lock, ThePoll);
      Exclusive(s.lock, ThePoll, ThePoll);
    } else {
      assert |s.lock.held| == 0;
    }
    forall id ensures id !in s.threads {
      assert Thread(id) in s.lock.held <==> id in s.threads;
    }
  }

  lemma PendingNone(poll: Poll, threads: map<int, Publisher>)
    requires !poll.ReplyChecked? && forall id :: id in threads ==> !threads[id].Checked?
    ensures Pending(poll, threads) == []
  {
  }

  lemma PendingThread(poll: Poll, threads: map<int, Publisher>, id: int)
    requires !poll.ReplyChecked? && id in threads && threads[id].Checked?
    requires forall other :: other in threads ==> other == id
    ensures Pending(poll, threads) == [Packet(threads[id].conn, Thread(id))]
  {
  }

  lemma PendingReply(poll: Poll, threads: map<int, Publisher>)
    requires poll.ReplyChecked?
    ensures Pending(poll, threads) == [Packet(poll.conn, ThePoll)]
  {
  }

  lemma ThreadWrites(s: Sys, id: int, step: ThreadStep)
    requires Inv(s) && ThreadCan(s, id, step)
    ensures var s' := ThreadDo(s, id, step);
      s'.written + Pending(s'.p.poll, s'.threads)
      == s.written + Pending(s.p.poll, s.threads) + Due(s, ByThread(id, step))
  {
    hide Inv, Pending;
    var s' := ThreadDo(s, id, step);
    match step
    case Enter =>
      NoThreads(s);
      PendingNone(s.p.poll, s.threads);
      PendingNone(s'.p.poll, s'.threads);
    case Check =>
      Alone(s, id);
      PendingNone(s.p.poll, s.threads);
      if s.p.socket.Some? && s.p.performed {
        PendingThread(s'.p.poll, s'.threads, id);
      } else {
        PendingNone(s'.p.poll, s'.threads);
      }
    case Leave =>
      Alone(s, id);
      PendingThread(s.p.poll, s.threads, id);
      PendingNone(s'.p.poll, s'.threads);
  }

  lemma PollWrites(s: Sys, step: PollStep)
    requires Inv(s) && PollCan(s, step)
    ensures var s' := PollDo(s, step);
      s'.written + Pending(s'.p.poll, s'.threads)
      == s.written + Pending(s.p.poll, s.threads) + Due(s, ByPoll(step))
  {
    hide Inv, Pending;
    var s' := PollDo(s, step);
    if step.ReplyCheck? || step.ReplyDone? {
      NoThreads(s);
      if s.p.poll.ReplyChecked? {
        PendingReply(s.p.poll, s.threads);
      } else {
        PendingNone(s.p.poll, s.threads);
      }
      if s'.p.poll.ReplyChecked? {
        PendingReply(s'.p.poll, s'.threads);
      } else {
        PendingNone(s'.p.poll, s'.threads);
      }
    } else {
      NotReplying(s, step);
      SamePending(s.p.poll, s'.p.poll, s.threads);
    }
  }

  lemma NotReplying(s: Sys, step: PollStep)
    requires PollCan(s, step) && !step.ReplyCheck? && !step.ReplyDone?
    ensures var s' := PollDo(s, step);
      s'.written == s.written && s'.threads == s.threads && !s.p.poll.ReplyChecked? && !s'.p.poll.ReplyChecked?
  {
    if step.Recv? {
      ReceivingWritesNothing(s, step.works);
    }
    hide CanLock, Acquired, Released, Received;
  }

  lemma ReceivingWritesNothing(s: Sys, works: bool)
    requires s.toPlugin != [] && s.p.poll.Idle?
    ensures var s' := Received(s, works);
      s'.written == s.written && s'.threads == s.threads && !s'.p.poll.ReplyChecked?
  {
  }

  lemma SamePending(poll: Poll, poll': Poll, threads: map<int, Publisher>)
    requires !poll.ReplyChecked? && !poll'.ReplyChecked?
    ensures Pending(poll', threads) == Pending(poll, threads)
  {
  }

  /** What has been written, and what is about to be, is what was due. */
  lemma {:induction false} WrittenIsDue(states: seq<Sys>, steps: seq<Step>, n: nat)
    requires IsRun(states, steps) && n <= |steps|
    ensures states[n].written + Pending(states[n].p.poll, states[n].threads) == DueUpTo(states, steps, n)
  {
    hide Inv, PollCan, PollDo, AgentCan, ThreadCan, ThreadDo, Pending, Due;
    if n == 0 {
      NothingPending(INIT);
    } else {
      WrittenIsDue(states, steps, n - 1);
      RunsKeep(states, steps, n - 1);
      var s, step := states[n - 1], steps[n - 1];
      assert Enabled(s, step) && states[n] == Apply(s, step);
      match step
      case ByPoll(poll) => PollWrites(s, poll);
      case ByThread(id, thread) => ThreadWrites(s, id, thread);
      case ByAgent(agent) => NothingDue(s, agent);
    }
  }

  lemma NothingPending(s: Sys)
    requires s.p.poll.Idle? && s.threads == map[]
    ensures Pending(s.p.poll, s.threads) == []
  {
  }

  lemma NothingDue(s: Sys, agent: AgentStep)
    ensures Due(s, ByAgent(agent)) == []
  {
  }

  /** When nobody is inside the lock any more, exactly the packets due are written: each once, and to
      the connection that was open at that moment, whose handshake was complete. */
  lemma AllDueIsWritten(states: seq<Sys>, steps: seq<Step>, n: nat)
    requires IsRun(states, steps) && n <= |steps|
    requires states[n].threads == map[] && !states[n].p.poll.ReplyChecked?
    ensures states[n].written == DueUpTo(states, steps, n)
    ensures forall packet :: packet in states[n].written ==> packet.conn in states[n].record.shaken
  {
    hide IsRun, Apply, Inv;
    WrittenIsDue(states, steps, n);
    RunIsLongEnough(states, steps);
    DueIsShaken(states, steps, n);
  }

  lemma RunIsLongEnough(states: seq<Sys>, steps: seq<Step>)
    requires IsRun(states, steps)
    ensures |states| == |steps| + 1
  {
  }

  lemma ShakenGrows(s: Sys, step: Step)
    requires Enabled(s, step)
    ensures s.record.shaken <= Apply(s, step).record.shaken
  {
    hide CanLock, Acquired, Released;
  }

  lemma {:induction false} DueIsShaken(states: seq<Sys>, steps: seq<Step>, n: nat)
    requires IsRun(states, steps) && n <= |steps|
    ensures forall packet :: packet in DueUpTo(states, steps, n) ==> packet.conn in states[n].record.shaken
  {
    hide Inv, Enabled, Apply;
    if n > 0 {
      var s, step := states[n - 1], steps[n - 1];
      assert Enabled(s, step) && states[n] == Apply(s, step);
      DueIsShaken(states, steps, n - 1);
      ShakenGrows(s, step);
      RunsKeep(states, steps, n - 1);
      if Due(s, step) != [] {
        PerformedIsShaken(s);
      }
    }
  }
}
