/** What every state of the debugger connection has in common. */
module HandOffSafety {
  import opened Options
  import opened DebuggerHandOff

  /** How much the transport has said since it last had nothing to hand back: in this round. */
  function SaidCount(a: Agent): int {
    match a
    case Unloaded => 0
    case Closed(first) => if first then 0 else 4
    case Listening(past) => if past.FirstTime? then 1 else if past.AfterRetry? then 2 else 5
    case Opening(_, _) => 1
    case OpenListening(_) => 2
    case Open(_) => 3
    case CloseWant(_, again) => if again then 1 else 3
    case CloseLocked(_, again) => if again then 1 else 3
    case CloseSent(_, again) => if again then 2 else 4
    case CloseReset(again) => if again then 2 else 4
  }

  /** What matters about the transport: whether it is loaded; whether the round began with an
      accepted connection, whose handshake failed (`retrying`) or succeeded (`shook`); whether it is
      done with that connection (`resting`), or even listens; and the connection whose
      descriptors it holds. */
  datatype Phase = Phase(
    loaded: bool, accepted: bool, retrying: bool, shook: bool, resting: bool, listening: bool, holds: Option<Conn>)

  function PhaseOf(a: Agent): Phase {
    match a
    case Unloaded => Phase(false, false, false, false, false, false, None)
    case Closed(first) => Phase(true, !first, false, !first, true, false, None)
    case Listening(past) => Phase(true, !past.FirstTime?, past.AfterRetry?, past.AfterSession?, true, true, None)
    case Opening(conn, _) => Phase(true, true, false, false, false, false, Some(conn))
    case OpenListening(conn) => Phase(true, true, false, true, false, false, Some(conn))
    case Open(conn) => Phase(true, true, false, true, false, false, Some(conn))
    case CloseWant(conn, again) => Phase(true, true, again, !again, false, false, Some(conn))
    case CloseLocked(conn, again) => Phase(true, true, again, !again, false, false, Some(conn))
    case CloseSent(conn, again) => Phase(true, true, again, !again, false, false, Some(conn))
    case CloseReset(again) => Phase(true, true, again, !again, false, false, None)
  }

  /** What it says, message by message: the whole of a session, a failed handshake, or just that
      it starts to listen. */
  function Said(f: Phase, i: int): Message {
    if !f.accepted then StartListen
    else if i <= 0 then Accept
    else if f.retrying then Closing
    else if i == 1 then HandshakeComplete
    else if i == 2 then EndListen
    else if i == 3 then Closing
    else StartListen
  }

  /** How many messages of the round the plugin has taken from the queue. */
  function Taken(s: Sys): int { SaidCount(s.agent) - |s.toPlugin| }

  /** How many it has taken once it has taken the closing message. */
  function ClosingTaken(f: Phase): int { if f.retrying then 2 else 4 }

  /** The closing message was taken, and the plugin is still busy with it. */
  predicate Dropping(poll: Poll) {
    (poll.DropWant? || poll.DropLocked? || poll.DropUnlocked?) && poll.closing
  }

  // --- The invariant ----------------------------------------------------------------------------------

  /** The queue is the rest of the round. */
  predicate InQueue(count: int, f: Phase, q: seq<Message>) {
    |q| <= count && forall i :: 0 <= i < |q| ==> q[i] == Said(f, count - |q| + i)
  }

  /** What the plugin believes follows from how much of the round it knows. */
  predicate Believes(p: Plugin, f: Phase, n: int, onTheirWay: bool) {
    && p.loaded == f.loaded
    && p.listening == (if !f.accepted then n >= 1 else f.retrying || n < 3 || n >= 5)
    && p.sent == (onTheirWay || (f.accepted && n == 0))
    && p.has == ((f.accepted && 1 <= n < ClosingTaken(f)) || Dropping(p.poll))
    && (Dropping(p.poll) ==> f.accepted && n == ClosingTaken(f) && !onTheirWay)
  }

  /** Descriptors on their way: the transport waits for them, and has nothing more to say. */
  predicate OnTheirWay(socket: Option<Conn>, f: Phase, toPlugin: seq<Message>, toAgent: seq<Handover>) {
    toAgent != [] ==> |toAgent| == 1 && f.listening && toPlugin == [] && socket == Some(toAgent[0].conn)
  }

  /** Once the plugin has the lock for closing, or is done, the transport has let go. */
  predicate LetGo(poll: Poll, f: Phase, n: int) {
    f.accepted && n >= ClosingTaken(f) && poll != DropWant(true) ==> f.resting
  }

  predicate SocketOk(p: Plugin, holds: Option<Conn>, r: Record) {
    && (holds.Some? ==> p.socket == holds && (p.sent || p.has))
    && (holds.Some? ==> p.poll != DropLocked(true) && p.poll != DropUnlocked(true))
    && (p.sent || p.has ==> p.socket.Some? || p.poll == DropUnlocked(true))
    && (p.poll.DropUnlocked? ==> p.socket.None?)
    && (p.poll.DropWant? || p.poll.DropLocked? ==> p.socket.Some?)
    && (p.poll == DropWant(false) || p.poll == DropLocked(false) || p.poll == DropUnlocked(false) ==> !p.sent && !p.has)
    && (p.poll == TakeUnlocked(true) ==> p.socket.Some? && !p.sent && !p.has && p.socket.value !in r.byPlugin)
    && (p.poll.TakeWant? || p.poll.TakeLocked? ==>
          p.poll.conn in r.used && p.poll.conn !in r.shaken && p.socket != Some(p.poll.conn))
    && (p.socket.Some? ==> p.socket.value in r.used)
  }

  predicate ShakenOk(p: Plugin, shook: bool, n: int, r: Record) {
    && r.byPlugin <= r.shaken <= r.used
    && (p.performed ==> (p.socket.Some? && p.socket.value in r.shaken) || p.poll.DropUnlocked?)
    && (p.socket.Some? && !p.has ==> (p.performed <==> p.socket.value in r.byPlugin))
    && (shook && n <= 3 && p.socket.Some? ==> p.socket.value in r.shaken)
  }

  predicate PollHolds(poll: Poll) {
    poll.DropLocked? || poll.TakeLocked? || poll.ReplyLocked? || poll.ReplyChecked?
  }

  predicate AgentHolds(a: Agent, writing: bool) {
    a.CloseLocked? || a.CloseSent? || a.CloseReset? || writing
  }

  /** Who holds the lock. */
  ghost predicate Holders(pollHolds: bool, agentHolds: bool, held: map<Party, int>, threads: map<int, Publisher>) {
    && (ThePoll in held <==> pollHolds)
    && (TheAgent in held <==> agentHolds)
    && (forall id :: Thread(id) in held <==> id in threads)
  }

  predicate WritingOk(a: Agent, writing: bool) {
    writing ==> a.Opening? || a.OpenListening? || a.Open? || a.CloseWant?
  }

  ghost predicate Protocol(p: Plugin, f: Phase, n: int, toPlugin: seq<Message>, toAgent: seq<Handover>, r: Record) {
    && Believes(p, f, n, toAgent != []) && OnTheirWay(p.socket, f, toPlugin, toAgent) && LetGo(p.poll, f, n)
    && SocketOk(p, f.holds, r) && ShakenOk(p, f.shook, n, r)
  }

  ghost predicate LockOk(pollHolds: bool, agentHolds: bool, l: Lock, threads: map<int, Publisher>) {
    LockConserved(l) && Holders(pollHolds, agentHolds, l.held, threads)
  }

  ghost predicate Inv(s: Sys) {
    && InQueue(SaidCount(s.agent), PhaseOf(s.agent), s.toPlugin)
    && Protocol(s.p, PhaseOf(s.agent), Taken(s), s.toPlugin, s.toAgent, s.record)
    && SkipOnlyIfDone(s.agent, s.toAgent, s.record.byPlugin)
    && LockOk(PollHolds(s.p.poll), AgentHolds(s.agent, s.writing), s.lock, s.threads)
    && WritingOk(s.agent, s.writing)
    && WritesAreSafe(s.p.socket, s.p.poll, s.threads, s.record.shaken)
  }

  /** Nothing remains to be sent, except while a new connection is being taken. */
  predicate Prompt(p: Plugin) {
    p.loaded && p.listening && p.socket.Some? && !p.sent && !p.has ==> p.poll == TakeUnlocked(true)
  }

  lemma InitInv()
    ensures Inv(INIT)
  {
  }

  lemma InvIsSafe(s: Sys)
    requires Inv(s)
    ensures OneReader(s)
  {
    hide InQueue, SkipOnlyIfDone, LockOk, WritesAreSafe;
  }

  // --- The queue ----------------------------------------------------------------------------------------

  lemma Appended(count: int, f: Phase, q: seq<Message>, m: Message)
    requires InQueue(count, f, q) && m == Said(f, count)
    ensures InQueue(count + 1, f, q + [m])
  {
    hide Said;
  }

  /** A phase of the transport together with how much it has said. */
  predicate Sensible(f: Phase, count: int) {
    && (!f.loaded ==> !f.accepted && count == 0)
    && (!f.accepted ==> !f.retrying && !f.shook && f.holds.None? && count == if f.listening then 1 else 0)
    && (f.retrying ==> !f.shook && 1 <= count <= 2 && (f.resting ==> count == 2))
    && (f.accepted && !f.retrying ==> 1 <= count <= 5 && (f.shook <==> count >= 2) && (f.resting ==> count >= 4))
    && (count == 5 ==> f.listening)
    && (f.listening ==> f.loaded && f.resting)
    && (f.resting ==> f.holds.None?)
    && (f.listening && f.accepted && !f.retrying ==> count == 5)
  }

  lemma AlwaysSensible(a: Agent)
    ensures Sensible(PhaseOf(a), SaidCount(a))
  {
  }

  /** The first message in the queue says how much the plugin has taken. */
  lemma Head(f: Phase, count: int, q: seq<Message>)
    requires InQueue(count, f, q) && Sensible(f, count) && q != []
    ensures InQueue(count, f, q[1..])
    ensures var n := count - |q|;
      match q[0]
      case Accept => f.accepted && n == 0
      case HandshakeComplete => f.accepted && f.shook && !f.retrying && n == 1
      case EndListen => f.accepted && f.shook && !f.retrying && n == 2
      case Closing => f.accepted && n == ClosingTaken(f) - 1
      case StartListen => f.listening && |q| == 1 && !f.retrying && n == if f.accepted then 4 else 0
  {
    assert q[0] == Said(f, count - |q|);
  }

  // --- The lock ---------------------------------------------------------------------------------------

  /** At most one party is inside, and then the counter is zero. */
  lemma Exclusive(l: Lock, p: Party, q: Party)
    requires LockConserved(l) && p in l.held && q in l.held
    ensures p == q && l.counter == 0
  {
    assert |l.held.Keys - {p}| == |l.held.Keys| - 1 == |l.held| - 1;
    assert q != p ==> q in l.held.Keys - {p};
  }

  /** Nobody is inside when someone enters. */
  lemma Enters(l: Lock, p: Party)
    requires LockConserved(l) && CanLock(l, p)
    ensures forall q :: q !in l.held
    ensures LockConserved(Acquired(l, p)) && forall q :: q in Acquired(l, p).held <==> q == p
  {
    assert |l.held| == 0;
  }

  /** Nobody else is inside when someone leaves. */
  lemma Leaves(l: Lock, p: Party)
    requires LockConserved(l) && p in l.held
    ensures forall q :: q in l.held <==> q == p
    ensures LockConserved(Released(l, p)) && forall q :: q !in Released(l, p).held
  {
    forall q | q in l.held ensures q == p {
      Exclusive(l, p, q);
    }
    assert (l.held - {p}).Keys == {};
    assert |l.held - {p}| == |(l.held - {p}).Keys|;
    assert l.held.Keys == {p};
  }
}
