/** What each action does to the part of the invariant that is about the protocol: `p` is the plugin,
    `f` the phase of the transport, `n` the number of messages taken, `q` and `w` the two
    channels, `r` the record of connections. */
module HandOffProtocol {
  import opened Options
  import opened DebuggerHandOff
  import opened HandOffSafety

  // --- Messages -----------------------------------------------------------------------------------------

  lemma TakeAccept(p: Plugin, f: Phase, n: int, q: seq<Message>, w: seq<Handover>, r: Record)
    requires Protocol(p, f, n, q, w, r) && p.poll.Idle? && q != [] && f.accepted && n == 0
    ensures Protocol(p.(has := true, sent := false, performed := false), f, n + 1, q[1..], w, r)
  {
  }

  lemma TakeHandshakeComplete(p: Plugin, f: Phase, n: int, q: seq<Message>, w: seq<Handover>, r: Record)
    requires Protocol(p, f, n, q, w, r) && p.poll.Idle? && q != [] && f.accepted && f.shook && !f.retrying && n == 1
    ensures p.has && Protocol(p.(performed := true), f, n + 1, q[1..], w, r)
  {
  }

  lemma TakeEndListen(p: Plugin, f: Phase, n: int, q: seq<Message>, w: seq<Handover>, r: Record)
    requires Protocol(p, f, n, q, w, r) && p.poll.Idle? && q != [] && f.accepted && f.shook && !f.retrying && n == 2
    ensures Protocol(p.(listening := false), f, n + 1, q[1..], w, r)
  {
  }

  lemma TakeClosing(p: Plugin, f: Phase, n: int, q: seq<Message>, w: seq<Handover>, r: Record)
    requires Protocol(p, f, n, q, w, r) && p.poll.Idle? && q != [] && f.accepted && n == ClosingTaken(f) - 1
    ensures Protocol(p.(poll := DropWant(true)), f, n + 1, q[1..], w, r)
  {
  }

  ghost predicate AtStart(p: Plugin, f: Phase, n: int, q: seq<Message>) {
    && p.poll.Idle? && |q| == 1
    && f.loaded && f.listening && f.resting && f.holds.None? && !f.retrying && n == if f.accepted then 4 else 0
  }

  lemma TakeStartListen(p: Plugin, f: Phase, n: int, q: seq<Message>, w: seq<Handover>, r: Record)
    requires Protocol(p, f, n, q, w, r) && AtStart(p, f, n, q)
    ensures Protocol(p.(listening := true), f, n + 1, q[1..], w, r)
  {
  }

  lemma StartFacts(p: Plugin, f: Phase, n: int, q: seq<Message>, w: seq<Handover>, r: Record)
    requires Protocol(p, f, n, q, w, r) && AtStart(p, f, n, q)
    ensures w == [] && p.loaded && !p.sent && !p.has
    ensures p.socket.Some? ==> (p.performed <==> p.socket.value in r.byPlugin)
  {
  }

  lemma TakeStartListenSending(p: Plugin, f: Phase, n: int, q: seq<Message>, w: seq<Handover>, r: Record, h: Handover)
    requires Protocol(p, f, n, q, w, r) && AtStart(p, f, n, q)
    requires p.socket.Some? && h.conn == p.socket.value
    ensures Protocol(p.(listening := true, sent := true), f, n + 1, q[1..], w + [h], r)
  {
    StartFacts(p, f, n, q, w, r);
  }

  // --- The poll loop --------------------------------------------------------------------------------

  lemma HangUp(p: Plugin, f: Phase, n: int, q: seq<Message>, w: seq<Handover>, r: Record)
    requires Protocol(p, f, n, q, w, r) && Listens(p)
    ensures Protocol(p.(poll := DropWant(false)), f, n, q, w, r)
  {
  }

  /** With the lock, the transport has let go. */
  lemma DropLock(p: Plugin, f: Phase, n: int, q: seq<Message>, w: seq<Handover>, r: Record)
    requires Protocol(p, f, n, q, w, r) && p.poll.DropWant? && (p.poll.closing ==> f.resting && f.holds.None?)
    ensures Protocol(p.(poll := DropLocked(p.poll.closing)), f, n, q, w, r)
  {
  }

  lemma DropSocket(p: Plugin, f: Phase, n: int, q: seq<Message>, w: seq<Handover>, r: Record)
    requires Protocol(p, f, n, q, w, r) && p.poll.DropLocked?
    ensures Protocol(p.(socket := None, poll := DropUnlocked(p.poll.closing)), f, n, q, w, r)
  {
  }

  lemma DropFinish(p: Plugin, f: Phase, n: int, q: seq<Message>, w: seq<Handover>, r: Record)
    requires Protocol(p, f, n, q, w, r) && p.poll.DropUnlocked?
    ensures Protocol(p.(performed := false, has := p.has && !p.poll.closing, poll := Idle), f, n, q, w, r)
  {
  }

  lemma NewConnection(p: Plugin, f: Phase, n: int, q: seq<Message>, w: seq<Handover>, r: Record, c: Conn)
    requires Protocol(p, f, n, q, w, r) && p.poll.Idle? && c !in r.used
    ensures Protocol(p.(poll := TakeWant(c)), f, n, q, w, r.(used := r.used + {c}))
  {
  }

  lemma TakeLock(p: Plugin, f: Phase, n: int, q: seq<Message>, w: seq<Handover>, r: Record)
    requires Protocol(p, f, n, q, w, r) && p.poll.TakeWant?
    ensures Protocol(p.(poll := TakeLocked(p.poll.conn)), f, n, q, w, r)
  {
  }

  lemma TakeSocket(p: Plugin, f: Phase, n: int, q: seq<Message>, w: seq<Handover>, r: Record)
    requires Protocol(p, f, n, q, w, r) && p.poll.TakeLocked? && p.socket.None?
      && (f.shook ==> f.accepted && !f.retrying) && n >= 0
    ensures Protocol(p.(socket := Some(p.poll.conn), poll := TakeUnlocked(true)), f, n, q, w, r)
  {
  }

  /** Any other change of place that does not matter to the protocol. */
  lemma Moves(p: Plugin, f: Phase, n: int, q: seq<Message>, w: seq<Handover>, r: Record, poll: Poll)
    requires Protocol(p, f, n, q, w, r)
    requires p.poll.Idle? || p.poll.TakeLocked? || p.poll == TakeUnlocked(false)
          || p.poll.ReplyWant? || p.poll.ReplyLocked? || p.poll.ReplyChecked?
    requires poll.Idle? || poll == TakeUnlocked(false) || poll.ReplyWant? || poll.ReplyLocked? || poll.ReplyChecked?
    ensures Protocol(p.(poll := poll), f, n, q, w, r)
  {
  }

  lemma TakeFinish(p: Plugin, f: Phase, n: int, q: seq<Message>, w: seq<Handover>, r: Record)
    requires Protocol(p, f, n, q, w, r) && p.poll == TakeUnlocked(true)
    ensures Protocol(p.(poll := Idle), f, n, q, w, r)
  {
  }

  /** Descriptors are sent, of a new connection or again. */
  lemma Sending(p: Plugin, f: Phase, n: int, q: seq<Message>, w: seq<Handover>, r: Record, h: Handover)
    requires Protocol(p, f, n, q, w, r) && (p.poll == TakeUnlocked(true) || Listens(p)) && p.loaded && p.listening
    requires f.listening && f.holds.None? && q == [] && p.socket.Some? && h.conn == p.socket.value
    ensures w == [] && Protocol(p.(poll := Idle, sent := true), f, n, q, w + [h], r)
  {
  }

  lemma Handshake(p: Plugin, f: Phase, n: int, q: seq<Message>, w: seq<Handover>, r: Record)
    requires Protocol(p, f, n, q, w, r) && Listens(p) && !p.loaded && !p.performed && f.holds.None?
    ensures var c := p.socket.value;
      Protocol(p.(performed := true), f, n, q, w, r.(byPlugin := r.byPlugin + {c}, shaken := r.shaken + {c}))
  {
  }

  lemma LoadAgent(p: Plugin, f: Phase, n: int, q: seq<Message>, w: seq<Handover>, r: Record, f': Phase)
    requires Protocol(p, f, n, q, w, r) && Listens(p) && !p.loaded && n == 0 && !f.accepted && !f.listening
      && f.holds.None?
    requires f' == f.(loaded := true, resting := true) && !f.shook
    ensures Protocol(p.(loaded := true), f', n, q, w, r)
  {
  }

  // --- The transport ----------------------------------------------------------------------------------

  /** It says something, and is still in the same part of the round. */
  lemma Says(p: Plugin, f: Phase, n: int, q: seq<Message>, w: seq<Handover>, r: Record, m: Message)
    requires Protocol(p, f, n, q, w, r) && !f.listening
    ensures w == [] && Protocol(p, f, n, q + [m], w, r)
  {
  }

  /** It starts to listen. */
  lemma Starts(p: Plugin, f: Phase, n: int, q: seq<Message>, w: seq<Handover>, r: Record, f': Phase)
    requires Protocol(p, f, n, q, w, r) && !f.listening && f.resting && f' == f.(listening := true)
    ensures Protocol(p, f', n, q + [StartListen], w, r)
  {
  }

  lemma Receives(p: Plugin, f: Phase, n: int, q: seq<Message>, w: seq<Handover>, r: Record, f': Phase, q': seq<Message>)
    requires Protocol(p, f, n, q, w, r) && w != []
    requires f.loaded && (f.accepted ==> n == if f.retrying then 2 else 5) && (!f.accepted ==> n == 1)
    requires f' == Phase(true, true, false, false, false, false, Some(w[0].conn))
    ensures q == [] && |w| == 1 && Protocol(p, f', 0, q', w[1..], r)
  {
  }

  /** The handshake succeeds; the connection is among those with a complete handshake. */
  lemma Shakes(p: Plugin, f: Phase, n: int, q: seq<Message>, w: seq<Handover>, r: Record, c: Conn, f': Phase,
      r': Record)
    requires Protocol(p, f, n, q, w, r) && f.holds == Some(c) && !f.listening && f.accepted && !f.retrying
    requires f' == f.(shook := true) && r' == r.(shaken := r.shaken + {c})
    ensures w == [] && Protocol(p, f', n, q + [HandshakeComplete], w, r')
  {
  }

  /** The handshake fails, after an accept message at most. */
  lemma ShakeFails(p: Plugin, f: Phase, n: int, q: seq<Message>, w: seq<Handover>, r: Record, f': Phase)
    requires Protocol(p, f, n, q, w, r) && f.accepted && !f.listening && n <= 1
    requires f' == f.(retrying := true)
    ensures Protocol(p, f', n, q, w, r)
  {
  }

  lemma Resets(p: Plugin, f: Phase, n: int, q: seq<Message>, w: seq<Handover>, r: Record)
    requires Protocol(p, f, n, q, w, r)
    ensures Protocol(p, f.(holds := None), n, q, w, r)
  {
  }

  lemma Rests(p: Plugin, f: Phase, n: int, q: seq<Message>, w: seq<Handover>, r: Record, listening: bool)
    requires Protocol(p, f, n, q, w, r) && !f.listening
    ensures Protocol(p, f.(resting := true, listening := listening), n, q, w, r)
  {
  }
}
