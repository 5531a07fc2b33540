/** What the steps of the debugger connection amount to: whole sessions can take place, from any state
    in which the plugin is at rest, and lead back to such a state. */
module HandOffSessions {
  import opened Options
  import opened DebuggerHandOff

  /** The state after taking these steps from the `k`th on, if each of them is possible in turn. */
  function Perform(s: Sys, steps: seq<Step>, k: nat): Option<Sys>
    requires k <= |steps|
    decreases |steps| - k
  {
    if k == |steps| then Some(s)
    else if Enabled(s, steps[k]) then Perform(Apply(s, steps[k]), steps, k + 1)
    else None
  }

  lemma Take(s: Sys, steps: seq<Step>, k: nat) returns (s': Sys)
    requires k < |steps| && Enabled(s, steps[k])
    ensures s' == Apply(s, steps[k]) && Perform(s, steps, k) == Perform(s', steps, k + 1)
    ensures k + 1 == |steps| ==> Perform(s, steps, k) == Some(s')
  {
    s' := Apply(s, steps[k]);
  }

  lemma {:induction false} PerformBoth(s: Sys, a: seq<Step>, b: seq<Step>, k: nat)
    requires k <= |a|
    ensures Perform(s, a + b, k) == match Perform(s, a, k) case None => None case Some(s') => Perform(s', b, 0)
    decreases |a| - k
  {
    hide Enabled, Apply;
    if k == |a| {
      PerformTail(s, a, b, 0);
    } else if Enabled(s, a[k]) {
      assert (a + b)[k] == a[k];
      PerformBoth(Apply(s, a[k]), a, b, k + 1);
    }
  }

  lemma {:induction false} PerformTail(s: Sys, a: seq<Step>, b: seq<Step>, k: nat)
    requires k <= |b|
    ensures Perform(s, a + b, |a| + k) == Perform(s, b, k)
    decreases |b| - k
  {
    hide Enabled, Apply;
    if k < |b| {
      assert (a + b)[|a| + k] == b[k];
      if Enabled(s, b[k]) {
        PerformTail(Apply(s, b[k]), a, b, k + 1);
      }
    }
  }

  lemma Both(s: Sys, a: seq<Step>, s1: Sys, b: seq<Step>, s2: Sys)
    requires Perform(s, a, 0) == Some(s1) && Perform(s1, b, 0) == Some(s2)
    ensures Perform(s, a + b, 0) == Some(s2)
  {
    PerformBoth(s, a, b, 0);
  }

  const FREE := Lock(1, map[])

  /** Nobody is inside the lock, nothing is under way, and the poll loop waits. */
  predicate AtRest(s: Sys) {
    && s.lock == FREE && s.threads == map[] && !s.writing && s.toPlugin == [] && s.toAgent == []
    && s.p.poll == Idle && !s.p.sent && !s.p.has
  }

  lemma OneOnly<T>(x: T)
    ensures [] + [x] == [x] && [x][1..] == []
  {
  }

  lemma LockAndUnlock(p: Party)
    ensures CanLock(FREE, p) && p in Acquired(FREE, p).held && Released(Acquired(FREE, p), p) == FREE
  {
    assert map[p := 1] - {p} == map[];
  }

  // --- Parts of a session ---------------------------------------------------------------------------

  function Connect(c: Conn): seq<Step> {
    [ByPoll(NewConnection(c)), ByPoll(TakeLock), ByPoll(TakeSocket), ByPoll(TakeFinish(true))]
  }

  function Seen(s: Sys, c: Conn): Sys { s.(record := s.record.(used := s.record.used + {c})) }

  /** A new connection is taken if there is none. If the transport listens it gets the descriptors, with
      the word to perform the handshake; otherwise the plugin listens to it. */
  lemma Connects(s: Sys, c: Conn)
    requires AtRest(s) && s.p.socket.None? && c !in s.record.used
    ensures var taken := Seen(s, c).(p := s.p.(socket := Some(c)));
      Perform(s, Connect(c), 0) == Some(
        if s.p.loaded && s.p.listening
        then taken.(p := taken.p.(sent := true), toAgent := [Handover(c, true)])
        else taken)
  {
    hide Perform, Acquired, Released, CanLock;
    LockAndUnlock(ThePoll);
    OneOnly(Handover(c, true));
    var s1 := Take(s, Connect(c), 0);
    var s2 := Take(s1, Connect(c), 1);
    var s3 := Take(s2, Connect(c), 2);
    var s4 := Take(s3, Connect(c), 3);
  }

  /** A second debugger is turned away: nothing changes but that its connection has been seen. */
  lemma SecondIsTurnedAway(s: Sys, c: Conn)
    requires AtRest(s) && s.p.socket.Some? && c !in s.record.used
    ensures Perform(s, Connect(c), 0) == Some(Seen(s, c))
  {
    hide Perform;
    LockAndUnlock(ThePoll);
    var s1 := Take(s, Connect(c), 0);
    var s2 := Take(s1, Connect(c), 1);
    var s3 := Take(s2, Connect(c), 2);
    var s4 := Take(s3, Connect(c), 3);
  }

  const HANG_UP: seq<Step> := [ByPoll(HangUp), ByPoll(DropLock), ByPoll(DropSocket), ByPoll(DropFinish)]

  /** The debugger hangs up while the plugin listens: the connection is closed and the handshake
      forgotten. */
  lemma HangsUp(s: Sys)
    requires AtRest(s) && s.p.socket.Some?
    ensures Perform(s, HANG_UP, 0) == Some(s.(p := s.p.(socket := None, performed := false)))
  {
    hide Perform, Acquired, Released, CanLock;
    LockAndUnlock(ThePoll);
    var s1 := Take(s, HANG_UP, 0);
    var s2 := Take(s1, HANG_UP, 1);
    var s3 := Take(s2, HANG_UP, 2);
    var s4 := Take(s3, HANG_UP, 3);
  }

  const BAD_HANDSHAKE: seq<Step> :=
    [ByPoll(Handshake(false)), ByPoll(DropLock), ByPoll(DropSocket), ByPoll(DropFinish)]

  /** Before the agent is loaded the plugin performs the handshake, or closes the connection if it fails. */
  lemma PluginShakes(s: Sys)
    requires AtRest(s) && s.p.socket.Some? && !s.p.loaded && !s.p.performed
    ensures var c, r := s.p.socket.value, s.record;
      Perform(s, [ByPoll(Handshake(true))], 0) == Some(
        s.(p := s.p.(performed := true), record := r.(byPlugin := r.byPlugin + {c}, shaken := r.shaken + {c})))
    ensures Perform(s, BAD_HANDSHAKE, 0) == Some(s.(p := s.p.(socket := None, performed := false)))
  {
    hide Perform;
    LockAndUnlock(ThePoll);
    var shaken := Take(s, [ByPoll(Handshake(true))], 0);
    var s1 := Take(s, BAD_HANDSHAKE, 0);
    var s2 := Take(s1, BAD_HANDSHAKE, 1);
    var s3 := Take(s2, BAD_HANDSHAKE, 2);
    var s4 := Take(s3, BAD_HANDSHAKE, 3);
  }

  const REPLY: seq<Step> := [ByPoll(HandleChunk), ByPoll(ReplyLock), ByPoll(ReplyCheck), ByPoll(ReplyDone)]

  function Replying(s: Sys): Sys { s.(p := s.p.(poll := ReplyLocked), lock := Acquired(FREE, ThePoll)) }

  lemma StartsReply(s: Sys)
    requires AtRest(s) && s.p.socket.Some? && !s.p.loaded && s.p.performed
    ensures Perform(s, REPLY, 0) == Perform(Replying(s), REPLY, 2)
  {
    hide Perform, Acquired, Released, CanLock;
    LockAndUnlock(ThePoll);
    var s1 := Take(s, REPLY, 0);
    var s2 := Take(s1, REPLY, 1);
  }

  lemma EndsReply(s: Sys)
    requires AtRest(s) && s.p.socket.Some? && s.p.performed
    ensures Perform(Replying(s), REPLY, 2) == Some(s.(written := s.written + [Packet(s.p.socket.value, ThePoll)]))
  {
    hide Perform, Acquired, Released, CanLock;
    LockAndUnlock(ThePoll);
    var s3 := Take(Replying(s), REPLY, 2);
    var s4 := Take(s3, REPLY, 3);
  }

  /** A chunk that the plugin handles itself is replied to, once. */
  lemma Replies(s: Sys)
    requires AtRest(s) && s.p.socket.Some? && !s.p.loaded && s.p.performed
    ensures Perform(s, REPLY, 0) == Some(s.(written := s.written + [Packet(s.p.socket.value, ThePoll)]))
  {
    hide Perform;
    StartsReply(s);
    EndsReply(s);
  }

  function Publish(id: int): seq<Step> { [ByThread(id, Enter), ByThread(id, Check), ByThread(id, Leave)] }

  function Look(id: int): seq<Step> { [ByThread(id, Enter), ByThread(id, Check)] }

  /** A thread that publishes while the lock is free writes its packet if there is a connection with a
      complete handshake; otherwise it leaves after looking. */
  lemma Publishes(s: Sys, id: int)
    requires s.lock == FREE && s.threads == map[]
    ensures s.p.socket.Some? && s.p.performed ==>
      Perform(s, Publish(id), 0) == Some(s.(written := s.written + [Packet(s.p.socket.value, Thread(id))]))
    ensures s.p.socket.None? || !s.p.performed ==> Perform(s, Look(id), 0) == Some(s)
  {
    hide Perform;
    LockAndUnlock(Thread(id));
    if s.p.socket.Some? && s.p.performed {
      var s1 := Take(s, Publish(id), 0);
      var s2 := Take(s1, Publish(id), 1);
      var s3 := Take(s2, Publish(id), 2);
      assert s2.threads - {id} == map[];
    } else {
      var s1 := Take(s, Look(id), 0);
      var s2 := Take(s1, Look(id), 1);
      assert s1.threads - {id} == map[];
    }
  }

  const TRANSPORT_WRITE: seq<Step> := [ByAgent(Write), ByAgent(Written)]

  /** The transport writes while it holds the descriptors. */
  lemma TransportWrites(s: Sys)
    requires s.lock == FREE && !s.writing && (s.agent.Opening? || s.agent.OpenListening? || s.agent.Open?)
    ensures Perform(s, TRANSPORT_WRITE, 0) == Some(s)
  {
    hide Perform;
    LockAndUnlock(TheAgent);
    var s1 := Take(s, TRANSPORT_WRITE, 0);
    var s2 := Take(s1, TRANSPORT_WRITE, 1);
  }

  const LOAD: seq<Step> := [ByPoll(LoadAgent), ByAgent(Start), ByPoll(Recv(true))]

  /** The agent is loaded; as soon as it listens it gets the connection, with the word to skip the
      handshake the plugin has completed. */
  lemma Loads(s: Sys)
    requires AtRest(s) && s.p.socket.Some? && !s.p.loaded && s.p.performed
    ensures Perform(s, LOAD, 0) == Some(
      s.(p := s.p.(loaded := true, listening := true, sent := true), agent := Listening(FirstTime),
         toAgent := [Handover(s.p.socket.value, false)]))
  {
    hide Perform;
    OneOnly(StartListen);
    OneOnly(Handover(s.p.socket.value, false));
    var s1 := Take(s, LOAD, 0);
    var s2 := Take(s1, LOAD, 1);
    var s3 := Take(s2, LOAD, 2);
  }

  /** Descriptors are on their way to a transport that waits for them. */
  predicate OnTheirWay(s: Sys, c: Conn, handshake: bool) {
    && s.lock == FREE && s.threads == map[] && !s.writing && s.toPlugin == [] && s.toAgent == [Handover(c, handshake)]
    && s.p.poll == Idle && s.p.sent && !s.p.has && s.p.socket == Some(c) && s.p.loaded && s.p.listening
    && s.agent.Listening?
  }

  const TAKE_OVER: seq<Step> :=
    [ByAgent(Receive), ByPoll(Recv(true)), ByAgent(Shake(true)), ByPoll(Recv(true)), ByAgent(Stop), ByPoll(Recv(true))]

  /** In session: the transport has the connection, and the plugin knows. */
  function InSession(s: Sys, c: Conn, handshake: bool): Sys {
    s.(p := s.p.(sent := false, has := true, performed := true, listening := false),
       agent := Open(c), toAgent := [],
       record := if handshake then s.record.(shaken := s.record.shaken + {c}) else s.record)
  }

  /** The transport takes over: it performs the handshake if told to, and the plugin learns of it. */
  lemma TakesOver(s: Sys, c: Conn, handshake: bool)
    requires OnTheirWay(s, c, handshake)
    ensures Perform(s, TAKE_OVER, 0) == Some(InSession(s, c, handshake))
  {
    hide Perform;
    OneOnly(Handover(c, handshake));
    OneOnly(Accept);
    OneOnly(HandshakeComplete);
    OneOnly(EndListen);
    var s1 := Take(s, TAKE_OVER, 0);
    var s2 := Take(s1, TAKE_OVER, 1);
    var s3 := Take(s2, TAKE_OVER, 2);
    var s4 := Take(s3, TAKE_OVER, 3);
    var s5 := Take(s4, TAKE_OVER, 4);
    var s6 := Take(s5, TAKE_OVER, 5);
  }

  const REFUSE: seq<Step> := [ByAgent(Receive), ByPoll(Recv(true)), ByAgent(Shake(false))]

  /** Or its handshake fails, and it wants to close the connection and to listen on. */
  lemma Refuses(s: Sys, c: Conn)
    requires OnTheirWay(s, c, true)
    ensures Perform(s, REFUSE, 0) == Some(
      s.(p := s.p.(sent := false, has := true, performed := false), agent := CloseWant(c, true), toAgent := []))
  {
    hide Perform;
    OneOnly(Accept);
    OneOnly(Handover(c, true));
    var s1 := Take(s, REFUSE, 0);
    var s2 := Take(s1, REFUSE, 1);
    var s3 := Take(s2, REFUSE, 2);
  }

  const LET_GO: seq<Step> := [ByAgent(CloseLock), ByAgent(CloseSend), ByAgent(CloseDrop), ByAgent(CloseUnlock)]

  const DROP: seq<Step> := [ByPoll(Recv(true)), ByPoll(DropLock), ByPoll(DropSocket), ByPoll(DropFinish)]

  const CLOSE: seq<Step> := LET_GO + DROP

  /** The transport wants to close its connection, and the plugin has not heard of it yet. */
  predicate Closing(s: Sys, c: Conn, again: bool) {
    && s.lock == FREE && s.threads == map[] && !s.writing && s.toPlugin == [] && s.toAgent == []
    && s.p.poll == Idle && !s.p.sent && s.p.has && s.p.socket == Some(c) && s.agent == CloseWant(c, again)
  }

  function LetGo(s: Sys, again: bool): Sys {
    s.(agent := if again then Listening(AfterRetry) else Closed(false), toPlugin := [Message.Closing])
  }

  lemma LetsGo(s: Sys, c: Conn, again: bool)
    requires Closing(s, c, again)
    ensures Perform(s, LET_GO, 0) == Some(LetGo(s, again))
  {
    hide Perform, Acquired, Released, CanLock;
    OneOnly(Message.Closing);
    LockAndUnlock(TheAgent);
    var locked := Acquired(FREE, TheAgent);
    var s1 := Take(s, LET_GO, 0);
    assert s1 == s.(agent := CloseLocked(c, again), lock := locked);
    var s2 := Take(s1, LET_GO, 1);
    assert s2 == s.(agent := CloseSent(c, again), lock := locked, toPlugin := [Message.Closing]);
    var s3 := Take(s2, LET_GO, 2);
    assert s3 == s.(agent := CloseReset(again), lock := locked, toPlugin := [Message.Closing]);
    var s4 := Take(s3, LET_GO, 3);
  }

  lemma Drops(s: Sys)
    requires s.lock == FREE && s.toPlugin == [Message.Closing] && s.p.poll == Idle
    ensures Perform(s, DROP, 0) == Some(
      s.(p := s.p.(socket := None, performed := false, has := false), toPlugin := []))
  {
    hide Perform, Acquired, Released, CanLock;
    OneOnly(Message.Closing);
    LockAndUnlock(ThePoll);
    var s1 := Take(s, DROP, 0);
    assert s1 == s.(p := s.p.(poll := DropWant(true)), toPlugin := []);
    var s2 := Take(s1, DROP, 1);
    var s3 := Take(s2, DROP, 2);
    assert s3 == s.(p := s.p.(socket := None, poll := DropUnlocked(true)), toPlugin := []);
    var s4 := Take(s3, DROP, 3);
  }

  /** The transport closes; then the plugin does, and forgets the connection. */
  lemma Closes(s: Sys, c: Conn, again: bool)
    requires Closing(s, c, again)
    ensures Perform(s, CLOSE, 0) == Some(
      s.(p := s.p.(socket := None, performed := false, has := false),
         agent := if again then Listening(AfterRetry) else Closed(false)))
  {
    hide Perform;
    LetsGo(s, c, again);
    Drops(LetGo(s, again));
    Both(s, LET_GO, LetGo(s, again), DROP,
         s.(p := s.p.(socket := None, performed := false, has := false),
            agent := if again then Listening(AfterRetry) else Closed(false)));
  }

  const LISTEN: seq<Step> := [ByAgent(Start), ByPoll(Recv(true))]

  /** Without a connection, the plugin only learns that the transport listens. */
  lemma Listens(s: Sys)
    requires AtRest(s) && s.p.socket.None? && s.agent.Closed?
    ensures Perform(s, LISTEN, 0) == Some(
      s.(p := s.p.(listening := true), agent := Listening(if s.agent.first then FirstTime else AfterSession)))
  {
    hide Perform;
    OneOnly(StartListen);
    var s1 := Take(s, LISTEN, 0);
    var s2 := Take(s1, LISTEN, 1);
  }

  // --- Whole sessions -------------------------------------------------------------------------------

  /** At rest, without a connection, with a transport that listens. */
  predicate Waiting(s: Sys) {
    AtRest(s) && s.p.socket.None? && !s.p.performed && s.p.loaded && s.p.listening && s.agent.Listening?
  }

  /** At rest, without a connection or an agent. */
  predicate Unused(s: Sys) {
    AtRest(s) && s.p.socket.None? && !s.p.performed && !s.p.loaded && !s.p.listening && s.agent.Unloaded?
  }

  function Shaken(r: Record, c: Conn): Record { r.(used := r.used + {c}, shaken := r.shaken + {c}) }

  /** From the taking over to the closing, with one packet published in between. */
  function UseAndClose(id: int): seq<Step> {
    TAKE_OVER + (Publish(id) + ([ByAgent(Close)] + (CLOSE + LISTEN)))
  }

  lemma UsedAndClosed(s: Sys, c: Conn, handshake: bool, id: int)
    requires OnTheirWay(s, c, handshake)
    ensures Perform(s, UseAndClose(id), 0) == Some(
      s.(p := s.p.(sent := false, socket := None, performed := false),
         agent := Listening(AfterSession), toAgent := [],
         record := if handshake then s.record.(shaken := s.record.shaken + {c}) else s.record,
         written := s.written + [Packet(c, Thread(id))]))
  {
    hide Perform;
    var s1 := InSession(s, c, handshake);
    TakesOver(s, c, handshake);
    Publishes(s1, id);
    var s2 := s1.(written := s1.written + [Packet(c, Thread(id))]);
    var s3 := Take(s2, [ByAgent(Close)], 0);
    Closes(s3, c, false);
    var s4 := s3.(p := s3.p.(socket := None, performed := false, has := false), agent := Closed(false));
    Listens(s4);
    var s5 := s4.(p := s4.p.(listening := true), agent := Listening(AfterSession));
    Both(s3, CLOSE, s4, LISTEN, s5);
    Both(s2, [ByAgent(Close)], s3, CLOSE + LISTEN, s5);
    Both(s1, Publish(id), s2, [ByAgent(Close)] + (CLOSE + LISTEN), s5);
    Both(s, TAKE_OVER, s1, Publish(id) + ([ByAgent(Close)] + (CLOSE + LISTEN)), s5);
  }

  /** A whole session with a transport that waits for one: all of it is possible, the handshake is
      performed by the transport, a thread that publishes meanwhile gets its packet to the debugger, and
      afterwards everything waits again. */
  lemma Session(s: Sys, c: Conn, id: int)
    requires Waiting(s) && c !in s.record.used
    ensures Perform(s, Connect(c) + UseAndClose(id), 0) == Some(
      s.(agent := Listening(AfterSession), record := Shaken(s.record, c),
         written := s.written + [Packet(c, Thread(id))]))
  {
    hide Perform, UseAndClose;
    Connects(s, c);
    var s1 := Seen(s, c).(p := s.p.(socket := Some(c), sent := true), toAgent := [Handover(c, true)]);
    UsedAndClosed(s1, c, true, id);
    var s2 := s.(agent := Listening(AfterSession), record := Shaken(s.record, c),
                 written := s.written + [Packet(c, Thread(id))]);
    Both(s, Connect(c), s1, UseAndClose(id), s2);
  }

  /** A whole first session: the plugin performs the handshake and replies to a chunk by itself, then
      the agent is loaded and takes over without another handshake. */
  lemma FirstSession(s: Sys, c: Conn, id: int)
    requires Unused(s) && c !in s.record.used
    ensures Perform(s, Connect(c) + ([ByPoll(Handshake(true))] + (REPLY + (LOAD + UseAndClose(id)))), 0) == Some(
      s.(p := s.p.(loaded := true, listening := true), agent := Listening(AfterSession),
         record := Shaken(s.record, c).(byPlugin := s.record.byPlugin + {c}),
         written := s.written + [Packet(c, ThePoll), Packet(c, Thread(id))]))
  {
    hide Perform, UseAndClose;
    Connects(s, c);
    var s1 := Seen(s, c).(p := s.p.(socket := Some(c)));
    PluginShakes(s1);
    var s2 := s1.(p := s1.p.(performed := true), record := Shaken(s.record, c).(byPlugin := s.record.byPlugin + {c}));
    Replies(s2);
    var s3 := s2.(written := s.written + [Packet(c, ThePoll)]);
    Loads(s3);
    var s4 := s3.(p := s3.p.(loaded := true, listening := true, sent := true), agent := Listening(FirstTime),
                  toAgent := [Handover(c, false)]);
    UsedAndClosed(s4, c, false, id);
    var s5 := s.(p := s.p.(loaded := true, listening := true), agent := Listening(AfterSession), record := s2.record,
                 written := s.written + [Packet(c, ThePoll), Packet(c, Thread(id))]);
    assert s3.written + [Packet(c, Thread(id))] == s5.written;
    Both(s3, LOAD, s4, UseAndClose(id), s5);
    Both(s2, REPLY, s3, LOAD + UseAndClose(id), s5);
    Both(s1, [ByPoll(Handshake(true))], s2, REPLY + (LOAD + UseAndClose(id)), s5);
    Both(s, Connect(c), s1, [ByPoll(Handshake(true))] + (REPLY + (LOAD + UseAndClose(id))), s5);
  }

  /** A handshake that fails in the transport: everything waits again, and the connection counts for
      nothing. */
  lemma FailedSession(s: Sys, c: Conn)
    requires Waiting(s) && c !in s.record.used
    ensures Perform(s, Connect(c) + (REFUSE + CLOSE), 0) == Some(Seen(s, c).(agent := Listening(AfterRetry)))
  {
    hide Perform;
    Connects(s, c);
    var s1 := Seen(s, c).(p := s.p.(socket := Some(c), sent := true), toAgent := [Handover(c, true)]);
    Refuses(s1, c);
    var s2 := s1.(p := s1.p.(sent := false, has := true, performed := false), agent := CloseWant(c, true),
                  toAgent := []);
    Closes(s2, c, true);
    var s3 := Seen(s, c).(agent := Listening(AfterRetry));
    Both(s1, REFUSE, s2, CLOSE, s3);
    Both(s, Connect(c), s1, REFUSE + CLOSE, s3);
  }
}
