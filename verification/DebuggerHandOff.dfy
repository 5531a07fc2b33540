/** The debugger connection: the poll loop of the plugin, the transport inside the agent, threads
    that publish DDM data, and the eventfd that serializes writing. One step is one action of one of
    them. Sending descriptors to the transport may fail. */
module DebuggerHandOff {
  import opened Options

  /** A connection of a debugger; every accepted socket is a new one. */
  type Conn = int

  /** What the transport tells the plugin. */
  datatype Message = StartListen | EndListen | Accept | HandshakeComplete | Closing

  /** File descriptors on their way to the transport, with the word about the handshake. */
  datatype Handover = Handover(conn: Conn, handshake: bool)

  datatype Past = FirstTime | AfterRetry | AfterSession

  /** The transport. `again`: a failed handshake, after which it listens on. */
  datatype Agent =
    | Unloaded
    | Closed(first: bool)
    | Listening(past: Past)
    | Opening(conn: Conn, handshake: bool)
    | OpenListening(conn: Conn)
    | Open(conn: Conn)
    | CloseWant(conn: Conn, again: bool)
    | CloseLocked(conn: Conn, again: bool)
    | CloseSent(conn: Conn, again: bool)
    | CloseReset(again: bool)

  /** Where the poll loop is. `closing`: the transport said it was closing. */
  datatype Poll =
    | Idle
    | DropWant(closing: bool)
    | DropLocked(closing: bool)
    | DropUnlocked(closing: bool)
    | TakeWant(conn: Conn)
    | TakeLocked(conn: Conn)
    | TakeUnlocked(isNew: bool)
    | ReplyWant
    | ReplyLocked
    | ReplyChecked(conn: Conn)

  /** A thread inside `SendDdmPacket`: holding the lock, or about to write. */
  datatype Publisher = Locked | Checked(conn: Conn)

  datatype Party = ThePoll | TheAgent | Thread(id: int)

  /** The eventfd and what its readers took out of it. */
  datatype Lock = Lock(counter: int, held: map<Party, int>)

  /** The fields of `AdbConnectionState`. */
  datatype Plugin = Plugin(
    socket: Option<Conn>, loaded: bool, listening: bool, has: bool, sent: bool, performed: bool, poll: Poll)

  /** Which connections there have been, on which of them the plugin, and on which anyone, completed
      the handshake. */
  datatype Record = Record(used: set<Conn>, byPlugin: set<Conn>, shaken: set<Conn>)

  /** A DDM packet on a connection, and who wrote it. */
  datatype Packet = Packet(conn: Conn, writer: Party)

  /** `writing`: the transport is inside a write. `written`: the DDM packets so far. */
  datatype Sys = Sys(
    p: Plugin, agent: Agent, writing: bool, toPlugin: seq<Message>, toAgent: seq<Handover>,
    lock: Lock, threads: map<int, Publisher>, record: Record, written: seq<Packet>)

  const INIT := Sys(Plugin(None, false, false, false, false, false, Idle),
                    Unloaded, false, [], [], Lock(1, map[]), map[], Record({}, {}, {}), [])

  // --- The eventfd --------------------------------------------------------------------------------

  /** `read` blocks while the counter is zero, and takes all of it. */
  predicate CanLock(l: Lock, p: Party) { l.counter > 0 && p !in l.held }

  function Acquired(l: Lock, p: Party): Lock { Lock(0, l.held[p := l.counter]) }

  function Released(l: Lock, p: Party): Lock
    requires p in l.held
  {
    Lock(l.counter + l.held[p], l.held - {p})
  }

  // --- The poll loop --------------------------------------------------------------------------------

  /** `should_listen_on_connection`, with a connection to listen on. */
  predicate Listens(p: Plugin) { p.poll.Idle? && !p.has && !p.sent && p.socket.Some? }

  /** `works`: `sendmsg` succeeds, if the step gets to it. */
  datatype PollStep =
    // a message from the transport
    | Recv(works: bool)
    // `CloseFds`
    | HangUp | DropLock | DropSocket | DropFinish
    // a new connection
    | NewConnection(conn: Conn) | TakeLock | TakeSocket | TakeFinish(works: bool)
    // data on the connection
    | Handshake(ok: bool) | LoadAgent | HandleChunk | SendAgain(works: bool)
    | ReplyLock | ReplyCheck | ReplyDone

  function SendAgentFds(s: Sys, handshake: bool, works: bool): Sys
    requires s.p.socket.Some?
  {
    if !works then s
    else s.(toAgent := s.toAgent + [Handover(s.p.socket.value, handshake)], p := s.p.(sent := true))
  }

  /** What the poll loop does with a message. */
  function Received(s: Sys, works: bool): Sys
    requires s.toPlugin != []
  {
    var p, s1 := s.p, s.(toPlugin := s.toPlugin[1..]);
    match s.toPlugin[0]
    case StartListen =>
      var s2 := s1.(p := p.(listening := true));
      if p.socket.Some? then SendAgentFds(s2, !p.performed, works) else s2
    case EndListen => s1.(p := p.(listening := false))
    case HandshakeComplete => if p.has then s1.(p := p.(performed := true)) else s1
    case Closing => s1.(p := p.(poll := DropWant(true)))
    case Accept => s1.(p := p.(has := true, sent := false, performed := false))
  }

  predicate PollCan(s: Sys, step: PollStep) {
    var p := s.p;
    match step
    case Recv(_) => p.poll.Idle? && s.toPlugin != []
    case HangUp => Listens(p)
    case DropLock => p.poll.DropWant? && CanLock(s.lock, ThePoll)
    case DropSocket => p.poll.DropLocked? && ThePoll in s.lock.held
    case DropFinish => p.poll.DropUnlocked?
    case NewConnection(conn) => p.poll.Idle? && conn !in s.record.used
    case TakeLock => p.poll.TakeWant? && CanLock(s.lock, ThePoll)
    case TakeSocket => p.poll.TakeLocked? && ThePoll in s.lock.held
    case TakeFinish(_) => p.poll.TakeUnlocked?
    case Handshake(_) => Listens(p) && !p.loaded && !p.performed
    case LoadAgent => Listens(p) && !p.loaded && p.performed
    case HandleChunk => Listens(p) && !p.loaded && p.performed
    case SendAgain(_) => Listens(p) && p.loaded && p.listening
    case ReplyLock => p.poll.ReplyWant? && CanLock(s.lock, ThePoll)
    case ReplyCheck => p.poll.ReplyLocked? && ThePoll in s.lock.held
    case ReplyDone => p.poll.ReplyChecked? && ThePoll in s.lock.held
  }

  function PollDo(s: Sys, step: PollStep): Sys
    requires PollCan(s, step)
  {
    var p, locked := s.p, Acquired(s.lock, ThePoll);
    var unlocked := if ThePoll in s.lock.held then Released(s.lock, ThePoll) else s.lock;
    match step
    case Recv(works) => Received(s, works)
    case HangUp => s.(p := p.(poll := DropWant(false)))
    case DropLock => s.(p := p.(poll := DropLocked(p.poll.closing)), lock := locked)
    case DropSocket => s.(p := p.(socket := None, poll := DropUnlocked(p.poll.closing)), lock := unlocked)
    case DropFinish => s.(p := p.(performed := false, has := p.has && !p.poll.closing, poll := Idle))
    case NewConnection(conn) => s.(p := p.(poll := TakeWant(conn)), record := s.record.(used := s.record.used + {conn}))
    case TakeLock => s.(p := p.(poll := TakeLocked(p.poll.conn)), lock := locked)
    case TakeSocket =>
      if p.socket.Some? then s.(p := p.(poll := TakeUnlocked(false)), lock := unlocked)
      else s.(p := p.(socket := Some(p.poll.conn), poll := TakeUnlocked(true)), lock := unlocked)
    case TakeFinish(works) =>
      var s1 := s.(p := p.(poll := Idle));
      if p.poll.isNew && p.loaded && p.listening && p.socket.Some? then SendAgentFds(s1, true, works) else s1
    case Handshake(ok) =>
      if !ok then s.(p := p.(poll := DropWant(false)))
      else
        var c, r := p.socket.value, s.record;
        s.(p := p.(performed := true), record := r.(byPlugin := r.byPlugin + {c}, shaken := r.shaken + {c}))
    case LoadAgent => s.(p := p.(loaded := true), agent := Closed(true))
    case HandleChunk => s.(p := p.(poll := ReplyWant))
    case SendAgain(works) => SendAgentFds(s, true, works)
    case ReplyLock => s.(p := p.(poll := ReplyLocked), lock := locked)
    case ReplyCheck =>
      if p.socket.Some? && p.performed then s.(p := p.(poll := ReplyChecked(p.socket.value)))
      else s.(p := p.(poll := Idle), lock := unlocked)
    case ReplyDone =>
      s.(p := p.(poll := Idle), lock := unlocked, written := s.written + [Packet(p.poll.conn, ThePoll)])
  }

  // --- The transport ------------------------------------------------------------------------------

  datatype AgentStep =
    | Start | Receive | Shake(ok: bool) | Stop | Close
    | CloseLock | CloseSend | CloseDrop | CloseUnlock
    | Write | Written

  predicate HoldsFds(a: Agent) {
    a.Opening? || a.OpenListening? || a.Open? || a.CloseWant? || a.CloseLocked? || a.CloseSent?
  }

  predicate AgentCan(s: Sys, step: AgentStep) {
    var a := s.agent;
    match step
    case Start => a.Closed?
    case Receive => a.Listening? && s.toAgent != []
    case Shake(ok) => a.Opening? && (!a.handshake ==> ok)
    case Stop => a.OpenListening?
    case Close => a.Open?
    case CloseLock => a.CloseWant? && !s.writing && CanLock(s.lock, TheAgent)
    case CloseSend => a.CloseLocked?
    case CloseDrop => a.CloseSent?
    case CloseUnlock => a.CloseReset? && TheAgent in s.lock.held
    case Write => (a.Opening? || a.OpenListening? || a.Open?) && !s.writing && CanLock(s.lock, TheAgent)
    case Written => s.writing && TheAgent in s.lock.held
  }

  function AgentDo(s: Sys, step: AgentStep): Sys
    requires AgentCan(s, step)
  {
    var a, r := s.agent, s.record;
    match step
    case Start =>
      var past := if a.first then FirstTime else AfterSession;
      s.(agent := Listening(past), toPlugin := s.toPlugin + [StartListen])
    case Receive =>
      var h := s.toAgent[0];
      s.(agent := Opening(h.conn, h.handshake), toAgent := s.toAgent[1..], toPlugin := s.toPlugin + [Accept])
    case Shake(ok) =>
      if !ok then s.(agent := CloseWant(a.conn, true))
      else s.(agent := OpenListening(a.conn), toPlugin := s.toPlugin + [HandshakeComplete],
              record := if a.handshake then r.(shaken := r.shaken + {a.conn}) else r)
    case Stop => s.(agent := Open(a.conn), toPlugin := s.toPlugin + [EndListen])
    case Close => s.(agent := CloseWant(a.conn, false))
    case CloseLock => s.(agent := CloseLocked(a.conn, a.again), lock := Acquired(s.lock, TheAgent))
    case CloseSend => s.(agent := CloseSent(a.conn, a.again), toPlugin := s.toPlugin + [Closing])
    case CloseDrop => s.(agent := CloseReset(a.again))
    case CloseUnlock =>
      var next := if a.again then Listening(AfterRetry) else Closed(false);
      s.(agent := next, lock := Released(s.lock, TheAgent))
    case Write => s.(writing := true, lock := Acquired(s.lock, TheAgent))
    case Written => s.(writing := false, lock := Released(s.lock, TheAgent))
  }

  // --- Publishing threads -------------------------------------------------------------------------

  datatype ThreadStep = Enter | Check | Leave

  predicate ThreadCan(s: Sys, id: int, step: ThreadStep) {
    match step
    case Enter => id !in s.threads && CanLock(s.lock, Thread(id))
    case Check => id in s.threads && s.threads[id].Locked? && Thread(id) in s.lock.held
    case Leave => id in s.threads && s.threads[id].Checked? && Thread(id) in s.lock.held
  }

  function ThreadDo(s: Sys, id: int, step: ThreadStep): Sys
    requires ThreadCan(s, id, step)
  {
    match step
    case Enter => s.(threads := s.threads[id := Locked], lock := Acquired(s.lock, Thread(id)))
    case Check =>
      if s.p.socket.Some? && s.p.performed then s.(threads := s.threads[id := Checked(s.p.socket.value)])
      else s.(threads := s.threads - {id}, lock := Released(s.lock, Thread(id)))
    case Leave =>
      s.(threads := s.threads - {id}, lock := Released(s.lock, Thread(id)),
         written := s.written + [Packet(s.threads[id].conn, Thread(id))])
  }

  // --- Runs -----------------------------------------------------------------------------------------

  datatype Step = ByPoll(poll: PollStep) | ByAgent(agent: AgentStep) | ByThread(id: int, thread: ThreadStep)

  predicate Enabled(s: Sys, step: Step) {
    match step
    case ByPoll(poll) => PollCan(s, poll)
    case ByAgent(agent) => AgentCan(s, agent)
    case ByThread(id, thread) => ThreadCan(s, id, thread)
  }

  function Apply(s: Sys, step: Step): Sys
    requires Enabled(s, step)
  {
    match step
    case ByPoll(poll) => PollDo(s, poll)
    case ByAgent(agent) => AgentDo(s, agent)
    case ByThread(id, thread) => ThreadDo(s, id, thread)
  }

  /** `states` is a run: it starts at the beginning, and every state comes from the one before. */
  ghost predicate IsRun(states: seq<Sys>, steps: seq<Step>) {
    && |states| == |steps| + 1 && states[0] == INIT
    && forall i :: 0 <= i < |steps| ==> Enabled(states[i], steps[i]) && states[i + 1] == Apply(states[i], steps[i])
  }

  // --- What must never happen -----------------------------------------------------------------------

  /** The plugin and the transport do not both read the socket. */
  predicate OneReader(s: Sys) {
    HoldsFds(s.agent) ==> !Listens(s.p)
  }

  /** The transport is told to skip the handshake exactly when the plugin completed it on the
      connection that is handed over. */
  ghost predicate SkipIffDone(a: Agent, toAgent: seq<Handover>, byPlugin: set<Conn>) {
    && (forall h :: h in toAgent ==> (!h.handshake <==> h.conn in byPlugin))
    && (a.Opening? ==> (!a.handshake <==> a.conn in byPlugin))
  }

  /** The half of it that cannot be missed: no handshake is skipped that was not completed. */
  ghost predicate SkipOnlyIfDone(a: Agent, toAgent: seq<Handover>, byPlugin: set<Conn>) {
    && (forall h :: h in toAgent && !h.handshake ==> h.conn in byPlugin)
    && (a.Opening? && !a.handshake ==> a.conn in byPlugin)
  }

  /** What is about to be written goes to the open connection, whose handshake is complete. */
  ghost predicate WritesAreSafe(socket: Option<Conn>, poll: Poll, threads: map<int, Publisher>, shaken: set<Conn>) {
    && (forall id :: id in threads && threads[id].Checked? ==>
        socket == Some(threads[id].conn) && threads[id].conn in shaken)
    && (poll.ReplyChecked? ==> socket == Some(poll.conn) && poll.conn in shaken)
  }

  /** The counter plus what is held is one: every holder holds one. */
  ghost predicate LockConserved(l: Lock) {
    && l.counter >= 0 && l.counter + |l.held| == 1
    && forall p :: p in l.held ==> l.held[p] == 1
  }

  /** Descriptors are never sent while earlier ones have not been accepted. */
  ghost predicate NeverSentTwice(s: Sys, step: Step) {
    Enabled(s, step) && |Apply(s, step).toAgent| > |s.toAgent| ==> !s.p.sent && !s.p.has && s.toAgent == []
  }
}
