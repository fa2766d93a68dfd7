/** Safety of whole runs of the server, for every interleaving of the loop thread with `deleteClient`
    and `finish` calls and every behaviour of the socket layer. */
module ServerTheorems {
  import opened Sockets
  import opened ServerMachine
  import opened ServerHistory
  import opened ServerInvariant
  import opened ServerSteps
  import opened ServerFinish

  lemma ReachableInv(run: seq<Action>)
    requires CanRun(INIT, run)
    ensures Inv(Run(INIT, run))
  {
    InvInit();
    InvRun(INIT, run);
  }

  /** Callback protocol: whatever calls are made between the loop's actions, each connection sees one
      connect, then data, then at most one disconnect, all under one handle. */
  lemma CallbacksOfRuns(run: seq<Action>, id: nat)
    requires CanRun(INIT, run)
    ensures var log := Run(INIT, run).log; CallbackProtocol(Callbacks(log, id), Track(log, id).fd, id)
  {
    ReachableInv(run);
    assert Conforms(Run(INIT, run), id);
    CallbacksOfLife(Run(INIT, run).log, id);
  }

  /** Nothing is left unsaid: a connection's connect is published if and only if it was accepted, and its
      disconnect if and only if Recv returned 0 on it, except the one the loop thread is at work on. */
  lemma NoticesOfRuns(run: seq<Action>, id: nat)
    requires CanRun(INIT, run)
    ensures var s := Run(INIT, run);
      && (WasAccepted(s.log, id) <==>
          WasAnnounced(s.log, id)
          || (s.phase.Scanning? && match s.phase.stage
                                   case Accepting(_, i, _, _) => i == id
                                   case Stored(_, i) => i == id
                                   case Armed(_, i) => i == id
                                   case _ => false))
      && (HasEnded(s.log, id) <==>
          WasDisconnected(s.log, id)
          || (s.phase.Scanning? && (s.phase.stage == Ended(id) || s.phase.stage == Dropped(id))))
  {
    ReachableInv(run);
    assert Conforms(Run(INIT, run), id);
    MarksOfLife(Run(INIT, run).log, id);
    hide WasAccepted, WasAnnounced, HasEnded, WasDisconnected;
  }

  /** Byte conservation: the bytes published for a connection are those received from it, in order, except
      a chunk the loop thread holds at this moment; and the handle they are published under was last
      announced for that very connection. */
  lemma BytesOfRuns(run: seq<Action>, id: nat)
    requires CanRun(INIT, run)
    ensures var s := Run(INIT, run);
      && Attributed(s.log)
      && Published(s.log, id) <= Received(s.log, id)
      && (Received(s.log, id) == Published(s.log, id)
          || (s.phase.Scanning? && s.phase.stage.Got? && s.phase.stage.id == id
              && Received(s.log, id) == Published(s.log, id) + s.phase.stage.data))
    ensures var log := Run(INIT, run).log;
      forall i :: 0 <= i < |log| && log[i].Data? && log[i].id == id ==> 1 <= |log[i].data| <= MAX_PACKET_SIZE
  {
    ReachableInv(run);
    var s := Run(INIT, run);
    assert Conforms(s, id);
    BytesOfLife(s.log, id);
    forall i | 0 <= i < |s.log| && s.log[i].Data? && s.log[i].id == id
      ensures 1 <= |s.log[i].data| <= MAX_PACKET_SIZE
    {
      ChunksOfLife(s.log, id, i);
    }
  }

  /** Table safety: every key is the open descriptor of its entry, and never the listening socket. */
  lemma TableOfRuns(run: seq<Action>, h: Fd)
    requires CanRun(INIT, run) && h in Run(INIT, run).clients
    ensures var s := Run(INIT, run);
      h in s.open && s.clients[h].sockfd == h && h != INVALID_SOCKET && h != s.sockfd
  {
    ReachableInv(run);
  }

  /** No descriptor is closed twice or closed when not open, and at any moment exactly the descriptors
      opened and not held any more have been closed. */
  lemma ClosesOfRuns(run: seq<Action>, id: nat)
    requires CanRun(INIT, run)
    ensures var s := Run(INIT, run);
      && NoBadClose(s.log)
      && Closes(s.log, id) == if id < s.ids && !Held(s, id) then 1 else 0
  {
    ReachableInv(run);
    var s := Run(INIT, run);
    assert Conforms(s, id);
    ClosesOfLife(s.log, id);
    if f :| f in s.open && s.open[f] == id {
      OpenIsMortal(s, f);
    }
  }

  ghost predicate Held(s: State, id: nat) {
    exists f :: f in s.open && s.open[f] == id
  }

  predicate IsFinished(s: State) {
    && s.stop && (s.phase.Fresh? || s.phase.StartFailed? || s.phase.Exited?)
    && s.clients == map[] && s.sockfd == INVALID_SOCKET
  }

  ghost predicate NeverStarts(run: seq<Action>) {
    forall i :: 0 <= i < |run| ==> !run[i].Start?
  }

  /** Nothing follows `finish`, exactly: later calls of any kind make no callback, no socket call and no change
      if and only if none of them is the first `start` of a server that was finished before it was started. */
  lemma {:induction false} FinishIsFinal(s: State, run: seq<Action>)
    requires IsFinished(s) && CanRun(s, run)
    ensures Run(s, run) == s <==> NeverStarts(run)
    decreases |run|
  {
    if run != [] {
      if run[0].Start? {
        StartLeavesFresh(s, run[0]);
        hide Next, Enabled;
        NeverFreshAgain(Next(s, run[0]), run[1..]);
      } else {
        FinalStep(s, run[0]);
        hide Next, Enabled;
        FinishIsFinal(s, run[1..]);
        assert forall i :: 0 <= i < |run| - 1 ==> run[i + 1] == run[1..][i];
      }
    }
  }

  lemma StartLeavesFresh(s: State, a: Action)
    requires Enabled(s, a) && a.Start?
    ensures s.phase.Fresh? && !Next(s, a).phase.Fresh?
  {
  }

  lemma {:induction false} NeverFreshAgain(s: State, run: seq<Action>)
    requires !s.phase.Fresh? && CanRun(s, run)
    ensures !Run(s, run).phase.Fresh?
    decreases |run|
  {
    hide Next, Enabled;
    if run != [] {
      StaysStarted(s, run[0]);
      NeverFreshAgain(Next(s, run[0]), run[1..]);
    }
  }

  lemma StaysStarted(s: State, a: Action)
    requires !s.phase.Fresh? && Enabled(s, a)
    ensures !Next(s, a).phase.Fresh?
  {
    if a.FinishEnd? {
      CloseAllPhase(s, a.order);
    }
  }

  lemma {:induction false} CloseAllPhase(s: State, order: seq<Fd>)
    ensures CloseAll(s, order).phase == s.phase
    decreases |order|
  {
    if order != [] {
      CloseAllPhase(Close(s, order[0]), order[1..]);
    }
  }

  lemma FinalStep(s: State, a: Action)
    requires IsFinished(s) && Enabled(s, a) && !a.Start?
    ensures Next(s, a) == s
  {
  }

  /** Stopped, with nobody connected and the loop thread absent or at its test. */
  predicate Stopped(s: State) {
    s.stop && s.clients == map[] && !s.phase.Selecting? && !s.phase.Scanning?
  }

  /** The log went on from `log` by opening and closing sockets only. */
  ghost predicate OnlySockets(log: seq<Event>, log': seq<Event>) {
    log <= log' && forall i :: |log| <= i < |log'| ==> log'[i].SocketCall? || log'[i].CloseCall? || log'[i].CloseOnClosed?
  }

  /** Even then nobody is accepted, received from or called back: `m_stop` is never reset, so the loop thread
      of a late `start` exits at its first test. */
  lemma {:induction false} FinishIsSilent(s: State, run: seq<Action>)
    requires Stopped(s) && CanRun(s, run)
    ensures Stopped(Run(s, run)) && OnlySockets(s.log, Run(s, run).log)
    decreases |run|
  {
    hide Next, Enabled;
    if run != [] {
      SilentStep(s, run[0]);
      FinishIsSilent(Next(s, run[0]), run[1..]);
    }
  }

  lemma FirstIsKey(order: seq<Fd>, keys: set<Fd>)
    requires Enumerates(order, keys)
    ensures order == [] || order[0] in keys
  {
  }

  lemma SilentStep(s: State, a: Action)
    requires Stopped(s) && Enabled(s, a)
    ensures Stopped(Next(s, a)) && OnlySockets(s.log, Next(s, a).log)
  {
    if a.FinishEnd? {
      FirstIsKey(a.order, s.clients.Keys);
    }
  }

  /** After `finish`, everything opened (by a failed `start` too) has been closed exactly once;
      afterwards something changes if and only if the first `start` comes then, and nobody is called back. */
  lemma FinishClosesEverything(run: seq<Action>, order: seq<Fd>, later: seq<Action>, id: nat)
    requires CanRun(INIT, run) && Enabled(Run(INIT, run), FinishEnd(order))
    requires CanRun(Next(Run(INIT, run), FinishEnd(order)), later)
    ensures var t := Next(Run(INIT, run), FinishEnd(order));
      && t.open == map[] && IsFinished(t)
      && Closes(t.log, id) == (if id < t.ids then 1 else 0)
      && (Run(t, later) == t <==> NeverStarts(later))
      && OnlySockets(t.log, Run(t, later).log)
  {
    ReachableInv(run);
    var s := Run(INIT, run);
    FinishStep(s, order);
    FinishShape(s, order);
    FinishLives(s, order, id);
    var t := Next(s, FinishEnd(order));
    assert Conforms(t, id);
    ClosesOfLife(t.log, id);
    FinishIsFinal(t, later);
    FinishIsSilent(t, later);
  }
}
