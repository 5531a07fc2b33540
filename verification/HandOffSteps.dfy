/** Every step of the debugger connection keeps the invariant. */
module HandOffSteps {
  import opened Options
  import opened DebuggerHandOff
  import opened HandOffSafety
  import P = HandOffProtocol

  // --- The lock -----------------------------------------------------------------------------------------

  lemma PollEnters(agentHolds: bool, l: Lock, threads: map<int, Publisher>)
    requires LockOk(false, agentHolds, l, threads) && CanLock(l, ThePoll)
    ensures !agentHolds && LockOk(true, agentHolds, Acquired(l, ThePoll), threads)
  {
    Enters(l, ThePoll);
    hide LockConserved, Acquired, CanLock;
  }

  lemma PollLeaves(agentHolds: bool, l: Lock, threads: map<int, Publisher>)
    requires LockOk(true, agentHolds, l, threads)
    ensures ThePoll in l.held && (forall id :: id !in threads)
    ensures LockOk(false, agentHolds, Released(l, ThePoll), threads)
  {
    Leaves(l, ThePoll);
    hide LockConserved, Released;
    forall id ensures id !in threads {
      assert Thread(id) !in l.held;
    }
  }

  lemma AgentEnters(pollHolds: bool, l: Lock, threads: map<int, Publisher>)
    requires LockOk(pollHolds, false, l, threads) && CanLock(l, TheAgent)
    ensures LockOk(pollHolds, true, Acquired(l, TheAgent), threads)
  {
    Enters(l, TheAgent);
    hide LockConserved, Acquired, CanLock;
  }

  lemma AgentLeaves(pollHolds: bool, l: Lock, threads: map<int, Publisher>)
    requires LockOk(pollHolds, true, l, threads)
    ensures TheAgent in l.held && LockOk(pollHolds, false, Released(l, TheAgent), threads)
  {
    Leaves(l, TheAgent);
    hide LockConserved, Released;
  }

  lemma ThreadEnters(pollHolds: bool, agentHolds: bool, l: Lock, threads: map<int, Publisher>, id: int)
    requires LockOk(pollHolds, agentHolds, l, threads) && CanLock(l, Thread(id))
    ensures LockOk(pollHolds, agentHolds, Acquired(l, Thread(id)), threads[id := Locked])
  {
    Enters(l, Thread(id));
    hide LockConserved, Acquired, CanLock;
    forall other ensures other in threads ==> other == id {
      assert Thread(other) !in l.held;
    }
  }

  lemma ThreadLeaves(pollHolds: bool, agentHolds: bool, l: Lock, threads: map<int, Publisher>, id: int)
    requires LockOk(pollHolds, agentHolds, l, threads) && Thread(id) in l.held
    ensures LockOk(pollHolds, agentHolds, Released(l, Thread(id)), threads - {id})
  {
    Leaves(l, Thread(id));
    hide LockConserved, Released;
    forall other ensures other in threads ==> other == id {
      assert Thread(other) in l.held <==> other in threads;
    }
  }

  // --- Messages from the transport ----------------------------------------------------------------------

  lemma RecvKeeps(s: Sys, works: bool)
    requires Inv(s) && PollCan(s, Recv(works))
    ensures Inv(PollDo(s, Recv(works)))
  {
    hide SaidCount, PhaseOf, InQueue, Protocol, LockOk, WritingOk, AgentHolds;
    var f, n := PhaseOf(s.agent), Taken(s);
    AlwaysSensible(s.agent);
    Head(f, SaidCount(s.agent), s.toPlugin);
    match s.toPlugin[0]
    case Accept => P.TakeAccept(s.p, f, n, s.toPlugin, s.toAgent, s.record);
    case HandshakeComplete => P.TakeHandshakeComplete(s.p, f, n, s.toPlugin, s.toAgent, s.record);
    case EndListen => P.TakeEndListen(s.p, f, n, s.toPlugin, s.toAgent, s.record);
    case Closing => P.TakeClosing(s.p, f, n, s.toPlugin, s.toAgent, s.record);
    case StartListen =>
      P.StartFacts(s.p, f, n, s.toPlugin, s.toAgent, s.record);
      if s.p.socket.Some? && works {
        var h := Handover(s.p.socket.value, !s.p.performed);
        P.TakeStartListenSending(s.p, f, n, s.toPlugin, s.toAgent, s.record, h);
        assert s.toAgent + [h] == [h];
      } else {
        P.TakeStartListen(s.p, f, n, s.toPlugin, s.toAgent, s.record);
      }
  }

  /** The message that it listens is the last one, and then nothing is under way. */
  lemma StartIsLast(s: Sys)
    requires Inv(s) && s.p.poll.Idle? && s.toPlugin != [] && s.toPlugin[0] == StartListen
    ensures s.agent.Listening? && s.toAgent == [] && s.p.loaded && !s.p.sent && !s.p.has
    ensures s.p.socket.Some? ==> (s.p.performed <==> s.p.socket.value in s.record.byPlugin)
  {
    AlwaysSensible(s.agent);
    Head(PhaseOf(s.agent), SaidCount(s.agent), s.toPlugin);
    P.StartFacts(s.p, PhaseOf(s.agent), Taken(s), s.toPlugin, s.toAgent, s.record);
  }

  // --- The poll loop ------------------------------------------------------------------------------------

  /** `CloseFds`. */
  lemma DropKeeps(s: Sys, step: PollStep)
    requires Inv(s) && PollCan(s, step)
    requires step.HangUp? || step.DropLock? || step.DropSocket? || step.DropFinish?
    ensures Inv(PollDo(s, step))
  {
    hide SaidCount, PhaseOf, InQueue, Protocol, LockOk, WritingOk, SkipOnlyIfDone, AgentHolds, CanLock;
    hide Acquired, Released;
    var f, n, holds := PhaseOf(s.agent), Taken(s), AgentHolds(s.agent, s.writing);
    if step.DropLock? {
      PollEnters(holds, s.lock, s.threads);
      ClosedIsResting(s);
    }
    match step
    case HangUp => P.HangUp(s.p, f, n, s.toPlugin, s.toAgent, s.record);
    case DropLock => P.DropLock(s.p, f, n, s.toPlugin, s.toAgent, s.record);
    case DropSocket =>
      PollLeaves(holds, s.lock, s.threads);
      P.DropSocket(s.p, f, n, s.toPlugin, s.toAgent, s.record);
    case DropFinish => P.DropFinish(s.p, f, n, s.toPlugin, s.toAgent, s.record);
  }

  /** The transport has said that it is closing, and is out of the lock again. */
  lemma ClosedIsResting(s: Sys)
    requires Inv(s) && !AgentHolds(s.agent, s.writing)
    ensures Dropping(s.p.poll) ==> PhaseOf(s.agent).resting && PhaseOf(s.agent).holds.None?
  {
    hide LockOk, WritesAreSafe, SkipOnlyIfDone;
  }

  lemma TakenIsNatural(s: Sys)
    requires Inv(s)
    ensures Taken(s) >= 0
  {
  }

  /** A new connection. */
  lemma NewConnectionKeeps(s: Sys, conn: Conn)
    requires Inv(s) && PollCan(s, NewConnection(conn))
    ensures Inv(PollDo(s, NewConnection(conn)))
  {
    hide SaidCount, PhaseOf, InQueue, Protocol, LockOk, WritingOk, SkipOnlyIfDone, AgentHolds;
    P.NewConnection(s.p, PhaseOf(s.agent), Taken(s), s.toPlugin, s.toAgent, s.record, conn);
  }

  lemma TakeLockKeeps(s: Sys)
    requires Inv(s) && PollCan(s, TakeLock)
    ensures Inv(PollDo(s, TakeLock))
  {
    hide SaidCount, PhaseOf, InQueue, Protocol, LockOk, WritingOk, SkipOnlyIfDone, AgentHolds;
    PollEnters(AgentHolds(s.agent, s.writing), s.lock, s.threads);
    P.TakeLock(s.p, PhaseOf(s.agent), Taken(s), s.toPlugin, s.toAgent, s.record);
  }

  lemma ShookIsAccepted(a: Agent)
    ensures PhaseOf(a).shook ==> PhaseOf(a).accepted && !PhaseOf(a).retrying
  {
  }

  lemma TakeSocketKeeps(s: Sys, s': Sys)
    requires Inv(s) && s.p.poll.TakeLocked? && s.p.socket.None?
    requires ThePoll in s.lock.held && s'.lock == Released(s.lock, ThePoll)
    requires s' == s.(p := s.p.(socket := Some(s.p.poll.conn), poll := TakeUnlocked(true)), lock := s'.lock)
    ensures Inv(s')
  {
    hide SaidCount, PhaseOf, InQueue, Protocol, LockOk, WritingOk, SkipOnlyIfDone, AgentHolds, Released;
    ShookIsAccepted(s.agent);
    TakenIsNatural(s);
    PollLeaves(AgentHolds(s.agent, s.writing), s.lock, s.threads);
    P.TakeSocket(s.p, PhaseOf(s.agent), Taken(s), s.toPlugin, s.toAgent, s.record);
  }

  lemma SecondDebuggerKeeps(s: Sys, s': Sys)
    requires Inv(s) && s.p.poll.TakeLocked?
    requires ThePoll in s.lock.held && s'.lock == Released(s.lock, ThePoll)
    requires s' == s.(p := s.p.(poll := TakeUnlocked(false)), lock := s'.lock)
    ensures Inv(s')
  {
    hide SaidCount, PhaseOf, InQueue, Protocol, LockOk, WritingOk, SkipOnlyIfDone, AgentHolds, Released;
    PollLeaves(AgentHolds(s.agent, s.writing), s.lock, s.threads);
    P.Moves(s.p, PhaseOf(s.agent), Taken(s), s.toPlugin, s.toAgent, s.record, TakeUnlocked(false));
  }

  /** A listening transport that has no connection has nothing more to say. */
  lemma NothingPending(s: Sys)
    requires Inv(s) && s.p.loaded && s.p.listening && !s.p.sent && !s.p.has
    ensures s.agent.Listening? && s.toPlugin == [] && s.toAgent == []
    ensures PhaseOf(s.agent).listening && PhaseOf(s.agent).holds.None?
  {
    hide LockOk, WritesAreSafe, SkipOnlyIfDone;
  }

  lemma NewIsUnsent(s: Sys)
    requires Inv(s) && s.p.poll == TakeUnlocked(true)
    ensures s.p.socket.Some? && !s.p.sent && !s.p.has && s.toAgent == []
    ensures s.p.socket.value !in s.record.byPlugin
  {
    hide SaidCount, PhaseOf, InQueue, LockOk, WritesAreSafe, SkipOnlyIfDone;
  }

  /** Descriptors are sent, with the word to perform the handshake. */
  lemma SendingKeeps(s: Sys)
    requires Inv(s) && s.p.loaded && s.p.listening && s.p.socket.Some? && !s.p.sent && !s.p.has
    requires s.p.poll == TakeUnlocked(true) || Listens(s.p)
    ensures Inv(SendAgentFds(s.(p := s.p.(poll := Idle)), true, true))
  {
    NothingPending(s);
    hide SaidCount, PhaseOf, InQueue, Protocol, LockOk, WritingOk, AgentHolds;
    var h := Handover(s.p.socket.value, true);
    P.Sending(s.p, PhaseOf(s.agent), Taken(s), s.toPlugin, s.toAgent, s.record, h);
    assert s.toAgent + [h] == [h];
  }

  lemma TakeFinishUnsentKeeps(s: Sys)
    requires Inv(s) && s.p.poll.TakeUnlocked?
    ensures Inv(s.(p := s.p.(poll := Idle)))
  {
    hide SaidCount, PhaseOf, InQueue, Protocol, LockOk, WritingOk, AgentHolds, SkipOnlyIfDone;
    if s.p.poll.isNew {
      P.TakeFinish(s.p, PhaseOf(s.agent), Taken(s), s.toPlugin, s.toAgent, s.record);
    } else {
      P.Moves(s.p, PhaseOf(s.agent), Taken(s), s.toPlugin, s.toAgent, s.record, Idle);
    }
  }

  lemma TakeFinishKeeps(s: Sys, works: bool)
    requires Inv(s) && PollCan(s, TakeFinish(works))
    ensures Inv(PollDo(s, TakeFinish(works)))
  {
    hide Inv;
    if s.p.poll.isNew && s.p.loaded && s.p.listening && works {
      NewIsUnsent(s);
      SendingKeeps(s);
    } else {
      TakeFinishUnsentKeeps(s);
    }
  }

  lemma SendAgainKeeps(s: Sys, works: bool)
    requires Inv(s) && PollCan(s, SendAgain(works))
    ensures Inv(PollDo(s, SendAgain(works)))
  {
    hide Inv;
    if works {
      SendingKeeps(s);
      assert s.(p := s.p.(poll := Idle)) == s;
    }
  }

  lemma NotLoaded(s: Sys)
    requires Inv(s) && !s.p.loaded
    ensures s.agent.Unloaded? && s.toPlugin == [] && s.toAgent == [] && Taken(s) == 0
    ensures PhaseOf(s.agent) == Phase(false, false, false, false, false, false, None)
  {
    hide LockOk, WritesAreSafe, SkipOnlyIfDone;
  }

  /** Data on the connection before the agent is loaded. */
  lemma HandshakeKeeps(s: Sys, ok: bool)
    requires Inv(s) && PollCan(s, Handshake(ok))
    ensures Inv(PollDo(s, Handshake(ok)))
  {
    hide SaidCount, PhaseOf, InQueue, Protocol, LockOk, WritingOk, AgentHolds;
    NotLoaded(s);
    if ok {
      P.Handshake(s.p, PhaseOf(s.agent), Taken(s), s.toPlugin, s.toAgent, s.record);
    } else {
      P.HangUp(s.p, PhaseOf(s.agent), Taken(s), s.toPlugin, s.toAgent, s.record);
    }
  }

  lemma HandleChunkKeeps(s: Sys)
    requires Inv(s) && PollCan(s, HandleChunk)
    ensures Inv(PollDo(s, HandleChunk))
  {
    hide SaidCount, PhaseOf, InQueue, Protocol, LockOk, WritingOk, SkipOnlyIfDone, AgentHolds;
    P.Moves(s.p, PhaseOf(s.agent), Taken(s), s.toPlugin, s.toAgent, s.record, ReplyWant);
  }

  lemma LoadAgentKeeps(s: Sys, s': Sys)
    requires Inv(s) && PollCan(s, LoadAgent) && s' == s.(p := s.p.(loaded := true), agent := Closed(true))
    ensures Inv(s')
  {
    NotLoaded(s);
    var f, f' := PhaseOf(s.agent), PhaseOf(s'.agent);
    SameInQueue(0, f, f', s.toPlugin);
    P.LoadAgent(s.p, f, 0, s.toPlugin, s.toAgent, s.record, f');
    assert SaidCount(s'.agent) == 0;
    hide PhaseOf, SaidCount, InQueue, Protocol, LockOk, WritesAreSafe;
  }

  /** The plugin's own replies. */
  lemma ReplyKeeps(s: Sys, step: PollStep)
    requires Inv(s) && PollCan(s, step)
    requires step.ReplyLock? || step.ReplyDone?
    ensures Inv(PollDo(s, step))
  {
    var f, n, holds := PhaseOf(s.agent), Taken(s), AgentHolds(s.agent, s.writing);
    hide SaidCount, PhaseOf, InQueue, Protocol, LockOk, WritingOk, SkipOnlyIfDone, AgentHolds;
    if step.ReplyLock? {
      PollEnters(holds, s.lock, s.threads);
      P.Moves(s.p, f, n, s.toPlugin, s.toAgent, s.record, ReplyLocked);
    } else {
      PollLeaves(holds, s.lock, s.threads);
      P.Moves(s.p, f, n, s.toPlugin, s.toAgent, s.record, Idle);
    }
  }

  /** `performed` says that the handshake is complete. */
  lemma PerformedIsShaken(s: Sys)
    requires Inv(s) && s.p.performed && s.p.socket.Some?
    ensures s.p.socket.value in s.record.shaken
  {
    hide SaidCount, PhaseOf, InQueue, LockOk, WritesAreSafe, SkipOnlyIfDone;
  }

  lemma ReplyCheckKeeps(s: Sys)
    requires Inv(s) && PollCan(s, ReplyCheck)
    ensures Inv(PollDo(s, ReplyCheck))
  {
    hide SaidCount, PhaseOf, InQueue, Protocol, LockOk, WritingOk, SkipOnlyIfDone, AgentHolds, Released;
    var f, n, holds := PhaseOf(s.agent), Taken(s), AgentHolds(s.agent, s.writing);
    if s.p.socket.Some? && s.p.performed {
      PerformedIsShaken(s);
    }
    if s.p.socket.Some? && s.p.performed {
      P.Moves(s.p, f, n, s.toPlugin, s.toAgent, s.record, ReplyChecked(s.p.socket.value));
    } else {
      PollLeaves(holds, s.lock, s.threads);
      P.Moves(s.p, f, n, s.toPlugin, s.toAgent, s.record, Idle);
    }
  }

  // --- The transport --------------------------------------------------------------------------------------

  /** It says something. */
  lemma SaysKeeps(s: Sys, step: AgentStep)
    requires Inv(s) && AgentCan(s, step) && (step.Stop? || step.CloseSend?)
    ensures Inv(AgentDo(s, step))
  {
    hide InQueue, Protocol, LockOk, WritesAreSafe;
    var f, n, count, m := PhaseOf(s.agent), Taken(s), SaidCount(s.agent), if step.Stop? then EndListen else Closing;
    Appended(count, f, s.toPlugin, m);
    P.Says(s.p, f, n, s.toPlugin, s.toAgent, s.record, m);
  }

  lemma StartKeeps(s: Sys)
    requires Inv(s) && AgentCan(s, Start)
    ensures Inv(AgentDo(s, Start))
  {
    hide InQueue, Protocol, LockOk, WritesAreSafe;
    var f, f', n, count := PhaseOf(s.agent), PhaseOf(AgentDo(s, Start).agent), Taken(s), SaidCount(s.agent);
    Appended(count, f, s.toPlugin, StartListen);
    SameInQueue(count + 1, f, f', s.toPlugin + [StartListen]);
    P.Starts(s.p, f, n, s.toPlugin, s.toAgent, s.record, f');
  }

  lemma SameInQueue(count: int, f: Phase, f': Phase, q: seq<Message>)
    requires InQueue(count, f, q) && f'.accepted == f.accepted && f'.retrying == f.retrying
    ensures InQueue(count, f', q)
  {
  }

  lemma ListeningTaken(s: Sys)
    requires Inv(s) && s.agent.Listening? && s.toPlugin == []
    ensures var f := PhaseOf(s.agent); Taken(s) == if !f.accepted then 1 else if f.retrying then 2 else 5
  {
    hide LockOk, WritesAreSafe, SkipOnlyIfDone, Protocol;
  }

  lemma ReceiveKeeps(s: Sys)
    requires Inv(s) && AgentCan(s, Receive)
    ensures Inv(AgentDo(s, Receive))
  {
    var f, n, s' := PhaseOf(s.agent), Taken(s), AgentDo(s, Receive);
    assert s.toPlugin == [] by { hide SaidCount, PhaseOf, LockOk, WritesAreSafe; }
    ListeningTaken(s);
    P.Receives(s.p, f, n, s.toPlugin, s.toAgent, s.record, PhaseOf(s'.agent), s'.toPlugin);
    hide Protocol, LockOk, WritesAreSafe;
    assert s'.toPlugin == [Accept];
  }

  lemma ShakeKeeps(s: Sys, ok: bool)
    requires Inv(s) && AgentCan(s, Shake(ok))
    ensures Inv(AgentDo(s, Shake(ok)))
  {
    var f, n, s' := PhaseOf(s.agent), Taken(s), AgentDo(s, Shake(ok));
    if ok {
      Appended(1, f, s.toPlugin, HandshakeComplete);
      ShakenRecord(s);
      P.Shakes(s.p, f, n, s.toPlugin, s.toAgent, s.record, s.agent.conn, PhaseOf(s'.agent), s'.record);
    } else {
      P.ShakeFails(s.p, f, n, s.toPlugin, s.toAgent, s.record, PhaseOf(s'.agent));
    }
    hide Protocol, LockOk;
  }

  /** Skipping the handshake adds nothing to the record: the plugin completed it. */
  lemma ShakenRecord(s: Sys)
    requires Inv(s) && s.agent.Opening?
    ensures !s.agent.handshake ==> s.record.shaken + {s.agent.conn} == s.record.shaken
  {
    hide SaidCount, PhaseOf, InQueue, LockOk, WritesAreSafe;
  }

  /** It closes; the descriptors go while it holds the lock. */
  lemma ClosesKeeps(s: Sys, step: AgentStep)
    requires Inv(s) && AgentCan(s, step) && (step.Close? || step.CloseLock? || step.CloseDrop?)
    ensures Inv(AgentDo(s, step))
  {
    hide InQueue, Protocol, LockOk, WritesAreSafe;
    var f, n, s' := PhaseOf(s.agent), Taken(s), AgentDo(s, step);
    SameInQueue(SaidCount(s.agent), f, PhaseOf(s'.agent), s.toPlugin);
    if step.CloseDrop? {
      P.Resets(s.p, f, n, s.toPlugin, s.toAgent, s.record);
    } else if step.CloseLock? {
      AgentEnters(PollHolds(s.p.poll), s.lock, s.threads);
    }
  }

  lemma CloseUnlockKeeps(s: Sys)
    requires Inv(s) && AgentCan(s, CloseUnlock)
    ensures Inv(AgentDo(s, CloseUnlock))
  {
    hide InQueue, Protocol, LockOk, WritesAreSafe;
    var f, n, s' := PhaseOf(s.agent), Taken(s), AgentDo(s, CloseUnlock);
    var f' := PhaseOf(s'.agent);
    SameInQueue(SaidCount(s.agent), f, f', s.toPlugin);
    P.Rests(s.p, f, n, s.toPlugin, s.toAgent, s.record, f'.listening);
    AgentLeaves(PollHolds(s.p.poll), s.lock, s.threads);
  }

  lemma WriteKeeps(s: Sys, step: AgentStep)
    requires Inv(s) && AgentCan(s, step) && (step.Write? || step.Written?)
    ensures Inv(AgentDo(s, step))
  {
    hide SaidCount, PhaseOf, InQueue, Protocol, LockOk, WritesAreSafe, SkipOnlyIfDone;
    if step.Write? {
      AgentEnters(PollHolds(s.p.poll), s.lock, s.threads);
    } else {
      AgentLeaves(PollHolds(s.p.poll), s.lock, s.threads);
    }
  }

  // --- Publishing threads ---------------------------------------------------------------------------------

  lemma ThreadKeeps(s: Sys, id: int, step: ThreadStep)
    requires Inv(s) && ThreadCan(s, id, step)
    ensures Inv(ThreadDo(s, id, step))
  {
    hide SaidCount, PhaseOf, InQueue, Protocol, LockOk, SkipOnlyIfDone, CanLock, Acquired, Released;
    var pollHolds, agentHolds := PollHolds(s.p.poll), AgentHolds(s.agent, s.writing);
    if step.Check? && s.p.socket.Some? && s.p.performed {
      PerformedIsShaken(s);
      SameThreads(pollHolds, agentHolds, s.lock, s.threads, id, Checked(s.p.socket.value));
    } else if step.Enter? {
      ThreadEnters(pollHolds, agentHolds, s.lock, s.threads, id);
    } else {
      ThreadLeaves(pollHolds, agentHolds, s.lock, s.threads, id);
    }
  }

  lemma SameThreads(pollHolds: bool, agentHolds: bool, l: Lock, threads: map<int, Publisher>, id: int, t: Publisher)
    requires LockOk(pollHolds, agentHolds, l, threads) && id in threads
    ensures LockOk(pollHolds, agentHolds, l, threads[id := t])
  {
    hide LockConserved;
  }

  // --- The word about the handshake -------------------------------------------------------------------

  /** Descriptors go out a second time, with the word to perform a handshake the plugin completed. */
  predicate Repeats(s: Sys, step: Step) {
    step == ByPoll(SendAgain(true)) && s.p.performed
  }

  ghost predicate Skips(s: Sys) {
    SkipIffDone(s.agent, s.toAgent, s.record.byPlugin)
  }

  /** Until the transport has the connection, `performed` speaks of the plugin's own handshake. */
  lemma PerformedByPlugin(s: Sys)
    requires Inv(s) && s.p.socket.Some? && !s.p.has
    ensures s.p.performed <==> s.p.socket.value in s.record.byPlugin
  {
    hide SaidCount, PhaseOf, InQueue, LockOk, WritesAreSafe, SkipOnlyIfDone;
  }

  lemma OneHandover(a: Agent, c: Conn, handshake: bool, byPlugin: set<Conn>)
    requires a.Listening?
    ensures SkipIffDone(a, [Handover(c, handshake)], byPlugin) <==> (!handshake <==> c in byPlugin)
  {
    assert Handover(c, handshake) in [Handover(c, handshake)];
  }

  lemma RecvSkips(s: Sys, works: bool)
    requires Inv(s) && Skips(s) && PollCan(s, Recv(works))
    ensures Skips(PollDo(s, Recv(works)))
  {
    if s.toPlugin[0] == StartListen && s.p.socket.Some? && works {
      StartIsLast(s);
      hide Inv;
      OneHandover(s.agent, s.p.socket.value, !s.p.performed, s.record.byPlugin);
      assert s.toAgent + [Handover(s.p.socket.value, !s.p.performed)] == [Handover(s.p.socket.value, !s.p.performed)];
    } else {
      hide Inv, SkipIffDone;
    }
  }

  lemma TakeFinishSkips(s: Sys, works: bool)
    requires Inv(s) && Skips(s) && PollCan(s, TakeFinish(works))
    ensures Skips(PollDo(s, TakeFinish(works)))
  {
    if s.p.poll.isNew && s.p.loaded && s.p.listening && works {
      NewIsUnsent(s);
      NothingPending(s);
      hide Inv;
      OneHandover(s.agent, s.p.socket.value, true, s.record.byPlugin);
      assert s.toAgent + [Handover(s.p.socket.value, true)] == [Handover(s.p.socket.value, true)];
    } else {
      hide Inv, SkipIffDone;
    }
  }

  lemma SendAgainSkips(s: Sys, works: bool)
    requires Inv(s) && Skips(s) && PollCan(s, SendAgain(works))
    ensures Skips(PollDo(s, SendAgain(works))) <==> !works || !s.p.performed
  {
    if works {
      NothingPending(s);
      PerformedByPlugin(s);
      hide Inv;
      OneHandover(s.agent, s.p.socket.value, true, s.record.byPlugin);
      assert s.toAgent + [Handover(s.p.socket.value, true)] == [Handover(s.p.socket.value, true)];
    } else {
      hide Inv, SkipIffDone;
    }
  }

  /** The word about the handshake stays right at every step but that one. */
  lemma PollSkips(s: Sys, step: PollStep)
    requires Inv(s) && Skips(s) && PollCan(s, step)
    ensures Skips(PollDo(s, step)) <==> !Repeats(s, ByPoll(step))
  {
    match step
    case Recv(works) => RecvSkips(s, works);
    case TakeFinish(works) => TakeFinishSkips(s, works);
    case SendAgain(works) => SendAgainSkips(s, works);
    case Handshake(_) =>
      NotLoaded(s);
      hide Inv;
    case LoadAgent =>
      NotLoaded(s);
      hide Inv;
    case _ =>
      hide Inv, SkipIffDone;
  }

  lemma AgentSkips(s: Sys, step: AgentStep)
    requires Skips(s) && AgentCan(s, step)
    ensures Skips(AgentDo(s, step))
  {
  }

  lemma ThreadSkips(s: Sys, id: int, step: ThreadStep)
    requires Skips(s) && ThreadCan(s, id, step)
    ensures Skips(ThreadDo(s, id, step))
  {
    hide SkipIffDone;
  }

  // --- Without failures ---------------------------------------------------------------------------------

  predicate Fails(step: PollStep) {
    step == Recv(false) || step == TakeFinish(false) || step == SendAgain(false)
  }

  lemma ClosingHasSocket(s: Sys, works: bool)
    requires Inv(s) && PollCan(s, Recv(works)) && s.toPlugin[0] == Closing
    ensures s.p.has
  {
    hide SaidCount, PhaseOf, InQueue, LockOk, WritesAreSafe, SkipOnlyIfDone;
    AlwaysSensible(s.agent);
    Head(PhaseOf(s.agent), SaidCount(s.agent), s.toPlugin);
  }

  lemma DroppedIsGone(s: Sys)
    requires Inv(s) && s.p.poll.DropUnlocked?
    ensures s.p.socket.None?
  {
    hide SaidCount, PhaseOf, InQueue, LockOk, WritesAreSafe, SkipOnlyIfDone;
  }

  lemma NotListening(s: Sys)
    requires Inv(s) && !s.p.loaded
    ensures !s.p.listening
  {
    NotLoaded(s);
  }

  /** Nothing remains to be sent as long as sending works. */
  lemma PollPrompt(s: Sys, step: PollStep)
    requires Inv(s) && Prompt(s.p) && PollCan(s, step) && !Fails(step)
    ensures Prompt(PollDo(s, step).p)
  {
    if step.Recv? {
      RecvPrompt(s);
    } else if step.DropFinish? {
      DroppedIsGone(s);
    } else if step.LoadAgent? {
      NotListening(s);
    }
    hide Inv, CanLock, Acquired, Released, Received;
  }

  lemma RecvPrompt(s: Sys)
    requires Inv(s) && Prompt(s.p) && PollCan(s, Recv(true))
    ensures Prompt(Received(s, true).p)
  {
    if s.toPlugin[0] == Closing {
      ClosingHasSocket(s, true);
    }
    hide Inv;
  }
}
