/** The debugger connection over whole runs. */
module HandOffTheorems {
  import opened Options
  import opened DebuggerHandOff
  import opened HandOffSafety
  import opened HandOffSteps

  lemma PollKeeps(s: Sys, step: PollStep)
    requires Inv(s) && PollCan(s, step)
    ensures Inv(PollDo(s, step))
  {
    hide Inv;
    match step
    case Recv(works) => RecvKeeps(s, works);
    case HangUp => DropKeeps(s, step);
    case DropLock => DropKeeps(s, step);
    case DropSocket => DropKeeps(s, step);
    case DropFinish => DropKeeps(s, step);
    case NewConnection(conn) => NewConnectionKeeps(s, conn);
    case TakeLock => TakeLockKeeps(s);
    case TakeSocket =>
      if s.p.socket.None? {
        TakeSocketKeeps(s, PollDo(s, step));
      } else {
        SecondDebuggerKeeps(s, PollDo(s, step));
      }
    case TakeFinish(works) => TakeFinishKeeps(s, works);
    case Handshake(ok) => HandshakeKeeps(s, ok);
    case HandleChunk => HandleChunkKeeps(s);
    case LoadAgent => LoadAgentKeeps(s, PollDo(s, step));
    case ReplyLock => ReplyKeeps(s, step);
    case ReplyCheck => ReplyCheckKeeps(s);
    case ReplyDone => ReplyKeeps(s, step);
    case SendAgain(works) => SendAgainKeeps(s, works);
  }

  lemma AgentKeeps(s: Sys, step: AgentStep)
    requires Inv(s) && AgentCan(s, step)
    ensures Inv(AgentDo(s, step))
  {
    hide Inv;
    match step
    case Start => StartKeeps(s);
    case Stop => SaysKeeps(s, step);
    case CloseSend => SaysKeeps(s, step);
    case Receive => ReceiveKeeps(s);
    case Shake(ok) => ShakeKeeps(s, ok);
    case Close => ClosesKeeps(s, step);
    case CloseLock => ClosesKeeps(s, step);
    case CloseDrop => ClosesKeeps(s, step);
    case CloseUnlock => CloseUnlockKeeps(s);
    case Write => WriteKeeps(s, step);
    case Written => WriteKeeps(s, step);
  }

  lemma {:induction false} RunsKeep(states: seq<Sys>, steps: seq<Step>, i: nat)
    requires IsRun(states, steps) && i < |states|
    ensures Inv(states[i])
  {
    hide Inv, PollCan, PollDo, AgentCan, AgentDo, ThreadCan, ThreadDo;
    if i == 0 {
      InitInv();
    } else {
      RunsKeep(states, steps, i - 1);
      var s, step := states[i - 1], steps[i - 1];
      assert Enabled(s, step) && states[i] == Apply(s, step);
      match step
      case ByPoll(poll) => PollKeeps(s, poll);
      case ByAgent(agent) => AgentKeeps(s, agent);
      case ByThread(id, thread) => ThreadKeeps(s, id, thread);
    }
  }

  /** The steps that can send descriptors. */
  predicate Sends(s: Sys, step: Step) {
    step.ByPoll? &&
    (|| step.poll.SendAgain?
     || (step.poll.TakeFinish? && s.p.poll == TakeUnlocked(true) && s.p.loaded && s.p.listening)
     || (step.poll.Recv? && s.p.poll.Idle? && s.toPlugin != [] && s.toPlugin[0] == StartListen))
  }

  lemma OthersDoNotSend(s: Sys, step: Step)
    requires Enabled(s, step) && !Sends(s, step)
    ensures |Apply(s, step).toAgent| <= |s.toAgent|
  {
    hide CanLock, Acquired, Released;
  }

  /** Descriptors are never sent while earlier ones are not yet accepted or still in use. */
  lemma SentOnce(s: Sys, step: Step)
    requires Inv(s)
    ensures NeverSentTwice(s, step)
  {
    hide Inv, Apply;
    if Enabled(s, step) {
      if !Sends(s, step) {
        OthersDoNotSend(s, step);
      } else if step.poll.TakeFinish? {
        NewIsUnsent(s);
      } else if step.poll.SendAgain? {
        NothingPending(s);
      } else {
        StartIsLast(s);
      }
    }
  }

  /** In every state of every run, whether or not sending works: at most one reader, no handshake
      skipped that was not completed, only safe writes, a lock that is conserved, and no
      descriptors sent twice. */
  lemma RunsAreSafe(states: seq<Sys>, steps: seq<Step>, i: nat)
    requires IsRun(states, steps) && i < |states|
    ensures var s := states[i];
      && OneReader(s)
      && SkipOnlyIfDone(s.agent, s.toAgent, s.record.byPlugin)
      && WritesAreSafe(s.p.socket, s.p.poll, s.threads, s.record.shaken)
      && LockConserved(s.lock)
      && forall step :: NeverSentTwice(s, step)
  {
    hide IsRun, NeverSentTwice;
    RunsKeep(states, steps, i);
    InvIsSafe(states[i]);
    forall step ensures NeverSentTwice(states[i], step) {
      SentOnce(states[i], step);
    }
  }

  /** At most one party is inside at any time. */
  lemma MutualExclusion(states: seq<Sys>, steps: seq<Step>, i: nat, p: Party, q: Party)
    requires IsRun(states, steps) && i < |states| && p in states[i].lock.held && q in states[i].lock.held
    ensures p == q
  {
    hide IsRun;
    RunsAreSafe(states, steps, i);
    Exclusive(states[i].lock, p, q);
  }

  // --- The word about the handshake ---------------------------------------------------------------

  lemma StepSkips(states: seq<Sys>, steps: seq<Step>, i: nat)
    requires IsRun(states, steps) && i < |steps| && Skips(states[i])
    ensures Skips(states[i + 1]) <==> !Repeats(states[i], steps[i])
  {
    RunsKeep(states, steps, i);
    hide Inv, PollCan, PollDo, AgentCan, AgentDo, ThreadCan, ThreadDo, Skips;
    var s, step := states[i], steps[i];
    assert Enabled(s, step) && states[i + 1] == Apply(s, step);
    match step
    case ByPoll(poll) => PollSkips(s, poll);
    case ByAgent(agent) => AgentSkips(s, agent);
    case ByThread(id, thread) => ThreadSkips(s, id, thread);
  }

  lemma {:induction false} NoRepeatNoMistake(states: seq<Sys>, steps: seq<Step>, i: nat)
    requires IsRun(states, steps) && i < |states|
    requires forall k :: 0 <= k < i ==> !Repeats(states[k], steps[k])
    ensures Skips(states[i])
  {
    hide Inv, Apply, Enabled;
    if i > 0 {
      NoRepeatNoMistake(states, steps, i - 1);
      StepSkips(states, steps, i - 1);
    } else {
      assert INIT.toAgent == [] && INIT.agent == Unloaded;
    }
  }

  /** In every state of a run the transport is told to skip the handshake exactly if the plugin
      completed it, if and only if descriptors are never sent again after the plugin completed it. */
  lemma SkipsThroughout(states: seq<Sys>, steps: seq<Step>)
    requires IsRun(states, steps)
    ensures (forall i :: 0 <= i < |states| ==> Skips(states[i]))
       <==> (forall k :: 0 <= k < |steps| ==> !Repeats(states[k], steps[k]))
  {
    hide IsRun, Skips, Repeats;
    RunLength(states, steps);
    if forall k :: 0 <= k < |steps| ==> !Repeats(states[k], steps[k]) {
      forall i | 0 <= i < |states| ensures Skips(states[i]) {
        NoRepeatNoMistake(states, steps, i);
      }
    }
    if forall i :: 0 <= i < |states| ==> Skips(states[i]) {
      forall k | 0 <= k < |steps| ensures !Repeats(states[k], steps[k]) {
        assert Skips(states[k]) && Skips(states[k + 1]);
        StepSkips(states, steps, k);
      }
    }
  }

  lemma RunLength(states: seq<Sys>, steps: seq<Step>)
    requires IsRun(states, steps)
    ensures |states| == |steps| + 1
  {
  }

  /** Sending to the transport works in every step. */
  ghost predicate Reliable(steps: seq<Step>) {
    forall k :: 0 <= k < |steps| && steps[k].ByPoll? ==> !Fails(steps[k].poll)
  }

  lemma {:induction false} ReliableIsPrompt(states: seq<Sys>, steps: seq<Step>, i: nat)
    requires IsRun(states, steps) && Reliable(steps) && i < |states|
    ensures Prompt(states[i].p)
  {
    hide Inv, PollCan, PollDo, AgentCan, ThreadCan;
    if i > 0 {
      RunsKeep(states, steps, i - 1);
      ReliableIsPrompt(states, steps, i - 1);
      var s, step := states[i - 1], steps[i - 1];
      assert Enabled(s, step) && states[i] == Apply(s, step);
      if step.ByPoll? {
        PollPrompt(s, step.poll);
      }
    }
  }

  /** As long as sending works, nothing is ever sent again, and the word about the handshake is
      right. */
  lemma ReliableRuns(states: seq<Sys>, steps: seq<Step>, i: nat)
    requires IsRun(states, steps) && Reliable(steps) && i < |states|
    ensures Skips(states[i]) && forall works :: !PollCan(states[i], SendAgain(works))
  {
    ReliableIsPrompt(states, steps, i);
    assert forall works :: !PollCan(states[i], SendAgain(works));
    hide PollDo, Apply, Skips, Inv;
    forall k | 0 <= k < i ensures !Repeats(states[k], steps[k]) {
      ReliableIsPrompt(states, steps, k);
      assert Enabled(states[k], steps[k]);
    }
    NoRepeatNoMistake(states, steps, i);
  }

  // --- When sending fails ---------------------------------------------------------------------------

  /** If the descriptors cannot be sent when the transport starts to listen, they can be sent again on
      the next data, always with the word to perform the handshake. That word is right if and only if
      the plugin had not completed the handshake. */
  lemma FailedSendIsRepeated(s: Sys)
    requires Inv(s) && Skips(s) && PollCan(s, Recv(false)) && s.toPlugin[0] == StartListen && s.p.socket.Some?
    ensures var f := PollDo(s, Recv(false));
      && PollCan(f, SendAgain(true))
      && (Skips(PollDo(f, SendAgain(true))) <==> !s.p.performed)
  {
    StartIsLast(s);
    RecvKeeps(s, false);
    RecvSkips(s, false);
    hide Inv, Skips;
    SendAgainSkips(PollDo(s, Recv(false)), true);
  }

  /** Such runs do occur: the plugin completes the handshake, loads the agent, the transport starts to
      listen, and the first attempt to send fails. */
  const PRELUDE: seq<Step> :=
    [ByPoll(NewConnection(0)), ByPoll(TakeLock), ByPoll(TakeSocket), ByPoll(TakeFinish(true)),
     ByPoll(Handshake(true)), ByPoll(LoadAgent), ByAgent(Start), ByPoll(Recv(false)), ByPoll(SendAgain(true))]

  const CONNECTED :=
    INIT.(p := INIT.p.(socket := Some(0)), record := Record({0}, {}, {}))

  lemma Connects() returns (s1: Sys, s2: Sys, s3: Sys)
    ensures PollCan(INIT, NewConnection(0)) && s1 == PollDo(INIT, NewConnection(0))
    ensures PollCan(s1, TakeLock) && s2 == PollDo(s1, TakeLock)
    ensures PollCan(s2, TakeSocket) && s3 == PollDo(s2, TakeSocket)
    ensures PollCan(s3, TakeFinish(true)) && CONNECTED == PollDo(s3, TakeFinish(true))
  {
    s1 := PollDo(INIT, NewConnection(0));
    s2 := PollDo(s1, TakeLock);
    s3 := PollDo(s2, TakeSocket);
    assert s3.lock.held == map[];
  }

  lemma Completes() returns (s5: Sys, s6: Sys, s7: Sys)
    ensures PollCan(CONNECTED, Handshake(true)) && s5 == PollDo(CONNECTED, Handshake(true))
    ensures PollCan(s5, LoadAgent) && s6 == PollDo(s5, LoadAgent)
    ensures AgentCan(s6, Start) && s7 == AgentDo(s6, Start)
    ensures PollCan(s7, Recv(false)) && s7.toPlugin[0] == StartListen && s7.p.socket.Some? && s7.p.performed
    ensures PollCan(PollDo(s7, Recv(false)), SendAgain(true)) && PollDo(s7, Recv(false)).p.performed
  {
    s5 := PollDo(CONNECTED, Handshake(true));
    s6 := PollDo(s5, LoadAgent);
    s7 := AgentDo(s6, Start);
  }

  lemma PreludeIsARun() returns (states: seq<Sys>)
    ensures IsRun(states, PRELUDE) && Repeats(states[8], PRELUDE[8])
    ensures exists i :: 0 <= i < |states| && !Skips(states[i])
  {
    hide PollCan, PollDo, AgentCan, AgentDo, Skips;
    var s1, s2, s3 := Connects();
    var s5, s6, s7 := Completes();
    var s8 := PollDo(s7, Recv(false));
    states := [INIT, s1, s2, s3, CONNECTED, s5, s6, s7, s8, PollDo(s8, SendAgain(true))];
    assert IsRun(states, PRELUDE);
    SkipsThroughout(states, PRELUDE);
  }
}
