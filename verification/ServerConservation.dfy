/** Descriptors opened, closed and held, at lock granularity. */
module ServerConservation {
  import opened Sockets
  import opened ServerMachine
  import opened ServerHistory
  import opened ServerInvariant
  import opened ServerSteps
  import opened ServerFinish
  import opened ServerTheorems
  import opened ServerHandles

  /** Descriptors opened minus descriptors closed. */
  function Balance(log: seq<Event>): int {
    if log == [] then 0
    else
      var e := log[|log| - 1];
      Balance(log[..|log| - 1]) + if e.SocketCall? || e.Accepted? then 1 else if e.CloseCall? then -1 else 0
  }

  lemma BalanceSnoc(log: seq<Event>, e: Event)
    ensures Balance(log + [e]) == Balance(log) + if e.SocketCall? || e.Accepted? then 1 else if e.CloseCall? then -1 else 0
  {
    assert (log + [e])[..|log|] == log;
  }

  predicate Balanced(s: State) {
    Balance(s.log) == |s.open|
  }

  lemma CloseBalanced(s: State, fd: Fd)
    requires Balanced(s)
    ensures Balanced(Close(s, fd))
  {
    BalanceSnoc(s.log, if fd in s.open then CloseCall(fd, s.open[fd]) else CloseOnClosed(fd));
    assert (s.open - {fd}).Keys == s.open.Keys - {fd};
  }

  lemma {:induction false} CloseAllBalanced(s: State, order: seq<Fd>)
    requires Balanced(s)
    ensures Balanced(CloseAll(s, order))
    decreases |order|
  {
    if order != [] {
      CloseBalanced(s, order[0]);
      CloseAllBalanced(Close(s, order[0]), order[1..]);
    }
  }

  lemma OpenBalanced(s: State, fd: Fd, e: Event)
    requires Balanced(s) && fd !in s.open && (e.SocketCall? || e.Accepted?)
    ensures Balanced(Log(Open(s, fd), e))
  {
    BalanceSnoc(s.log, e);
  }

  lemma DeleteBalanced(s: State, h: Fd)
    requires Balanced(s)
    ensures Balanced(Next(s, DeleteClient(h)))
  {
    if h in s.clients {
      var fd := s.clients[h].sockfd;
      CloseBalanced(s, fd);
      BalanceSnoc(Remove(s, h).log, Deleted(h, if fd in s.open then s.open[fd] else 0));
    }
  }

  lemma LoopDeleteBalanced(s: State)
    requires Balanced(s) && Enabled(s, LoopDelete)
    ensures Balanced(Next(s, LoopDelete))
  {
    if s.phase.fd in s.clients {
      CloseBalanced(s, s.clients[s.phase.fd].sockfd);
    }
  }

  lemma AcceptBalanced(s: State, a: Action)
    requires Balanced(s) && Enabled(s, a) && a.Accept?
    ensures Balanced(Next(s, a))
  {
    var e := AcceptCall(s.phase.fd);
    BalanceSnoc(s.log, e);
    if a.fd != INVALID_SOCKET {
      OpenBalanced(Log(s, e), a.fd, Accepted(a.fd, s.ids, a.ip, a.port));
    }
  }

  lemma FinishBalanced(s: State, order: seq<Fd>)
    requires Balanced(s) && Enabled(s, FinishEnd(order))
    ensures Balanced(Next(s, FinishEnd(order)))
  {
    FinishShape(s, order);
    hide Next, Enabled, CloseAll, Doomed;
    CloseAllBalanced(s, Doomed(s, order));
  }

  lemma PublishBalanced(s: State, a: Action)
    requires Balanced(s) && Enabled(s, a) && IsPublish(a)
    ensures Balanced(Next(s, a))
  {
    BalanceSnoc(s.log, CallbackOf(s.phase));
  }

  lemma StartBalanced(s: State, o: StartOutcome)
    requires Balanced(s) && Enabled(s, Start(o)) && !o.NoSocket?
    ensures Balanced(Next(s, Start(o)))
  {
    OpenBalanced(s, o.fd, SocketCall(o.fd, s.ids));
  }

  lemma BalancedStep(s: State, a: Action)
    requires Balanced(s) && Enabled(s, a)
    ensures Balanced(Next(s, a))
  {
    hide Next, Enabled;
    if IsQuiet(a) {
      QuietShape(s, a);
    } else if IsPublish(a) {
      PublishBalanced(s, a);
    } else {
      match a
      case Start(o) => StartBalanced(s, o);
      case Recv(n, data) =>
        RecvShape(s, a);
        BalanceSnoc(s.log, RecvEvent(s, s.phase.fd, n, data));
      case LoopDelete => LoopDeleteBalanced(s);
      case Accept(_, _, _) => AcceptBalanced(s, a);
      case DeleteClient(h) => DeleteBalanced(s, h);
      case FinishEnd(order) => FinishBalanced(s, order);
    }
  }

  lemma {:induction false} BalancedRun(s: State, run: seq<Action>)
    requires Balanced(s) && CanRun(s, run)
    ensures Balanced(Run(s, run))
    decreases |run|
  {
    hide Next, Enabled;
    if run != [] {
      BalancedStep(s, run[0]);
      BalancedRun(Next(s, run[0]), run[1..]);
    }
  }

  predicate InFlight(s: State) {
    s.phase.Scanning? && s.phase.stage.Accepting?
  }

  function Listener(s: State): set<Fd> {
    if s.sockfd != INVALID_SOCKET then {s.sockfd} else {}
  }

  function Flight(s: State): set<Fd> {
    if InFlight(s) then {s.phase.stage.newfd} else {}
  }

  /** Every open descriptor is a client's, the listener or the one in flight, and only one of them. */
  lemma OpenKeys(s: State)
    requires Inv(s)
    ensures s.open.Keys == s.clients.Keys + Listener(s) + Flight(s)
    ensures s.clients.Keys !! Listener(s) && s.clients.Keys !! Flight(s) && Listener(s) !! Flight(s)
  {
    hide Conforms, Attributed, NoBadClose, Track;
    forall f | f in s.open ensures f in s.clients.Keys + Listener(s) + Flight(s) {
      OwnerOf(s, f);
    }
    forall f | f in s.clients.Keys + Listener(s) + Flight(s) ensures f in s.open {
    }
    assert s.open.Keys <= s.clients.Keys + Listener(s) + Flight(s) <= s.open.Keys;
  }

  lemma OpenSet(s: State)
    requires Inv(s)
    ensures |s.open| == |s.clients| + (if s.sockfd != INVALID_SOCKET then 1 else 0) + (if InFlight(s) then 1 else 0)
  {
    OpenKeys(s);
    hide Inv;
    Sizes(s.clients.Keys, Listener(s), Flight(s));
    assert |s.open| == |s.open.Keys| && |s.clients| == |s.clients.Keys|;
  }

  lemma Sizes(xs: set<Fd>, ys: set<Fd>, zs: set<Fd>)
    requires xs !! ys && xs !! zs && ys !! zs
    ensures |xs + ys + zs| == |xs| + |ys| + |zs|
  {
    assert |xs + ys| == |xs| + |ys|;
    assert |xs + ys + zs| == |xs + ys| + |zs|;
  }

  lemma OwnerOf(s: State, f: Fd)
    requires Inv(s) && f in s.open
    ensures f in s.clients || f == s.sockfd || (InFlight(s) && f == s.phase.stage.newfd)
  {
    assert Conforms(s, s.open[f]);
    OpenIsMortal(s, f);
  }

  // The first descriptor a server opens is its listening socket.
  const LISTENER: nat := 0

  function Accepts(log: seq<Event>): nat {
    if log == [] then 0 else Accepts(log[..|log| - 1]) + if log[|log| - 1].Accepted? then 1 else 0
  }

  function SocketCalls(log: seq<Event>): nat {
    if log == [] then 0 else SocketCalls(log[..|log| - 1]) + if log[|log| - 1].SocketCall? then 1 else 0
  }

  function ClientCloses(log: seq<Event>): nat {
    if log == [] then 0
    else
      var e := log[|log| - 1];
      ClientCloses(log[..|log| - 1]) + if e.CloseCall? && e.id != LISTENER then 1 else 0
  }

  /** The balance is that of the clients and that of the listening socket. */
  lemma {:induction false} BalanceSplits(log: seq<Event>)
    ensures Balance(log) == Accepts(log) - ClientCloses(log) + SocketCalls(log) - Closes(log, LISTENER)
  {
    if log != [] {
      BalanceSplits(log[..|log| - 1]);
    }
  }

  /** Every Socket call made the listener, and what was opened first is the listener. */
  ghost predicate ListenerIsFirst(s: State) {
    && (forall i :: 0 <= i < |s.log| && s.log[i].SocketCall? ==> s.log[i].id == LISTENER)
    && (s.ids > 0 ==> Track(s.log, LISTENER).life.Listening?)
  }

  /** A listening socket stays one. */
  lemma {:induction false} ListeningStays(log: seq<Event>, log': seq<Event>, id: nat)
    requires log <= log' && Track(log, id).life.Listening? && !Track(log', id).life.Wrong?
    ensures Track(log', id).life.Listening?
    decreases |log'|
  {
    if |log'| > |log| {
      var before := log'[..|log'| - 1];
      assert log <= before;
      ListeningStays(log, before, id);
    } else {
      assert log == log';
    }
  }

  lemma {:induction false} ListenerWasMade(log: seq<Event>, id: nat) returns (i: nat)
    requires Track(log, id).life.Listening?
    ensures i < |log| && log[i].SocketCall? && log[i].id == id
  {
    var e, before := log[|log| - 1], log[..|log| - 1];
    if e.SocketCall? && e.id == id {
      i := |log| - 1;
    } else {
      i := ListenerWasMade(before, id);
      assert before[i] == log[i];
    }
  }

  lemma ListenerStart(s: State, a: Action)
    requires Inv(s) && Enabled(s, a) && a.Start? && ListenerIsFirst(s)
    ensures ListenerIsFirst(Next(s, a))
  {
    hide Conforms, Attributed, NoBadClose;
    if !a.outcome.NoSocket? {
      TrackSnoc(s.log, SocketCall(a.outcome.fd, s.ids), LISTENER);
      assert Track(s.log, LISTENER) == UNBORN by { UnbornAtStart(s); }
    }
  }

  lemma UnbornAtStart(s: State)
    requires Inv(s) && s.phase.Fresh?
    ensures Track(s.log, LISTENER) == UNBORN
  {
    assert Conforms(s, LISTENER);
  }

  lemma ListenerStep(s: State, a: Action)
    requires Inv(s) && Enabled(s, a) && ListenerIsFirst(s)
    ensures ListenerIsFirst(Next(s, a))
  {
    if a.Start? {
      ListenerStart(s, a);
    } else {
      var t := Next(s, a);
      OthersOpenNoSocket(s, a);
      IdsAreOpened(s, a);
      InvStep(s, a);
      assert Conforms(t, LISTENER);
      hide Next, Enabled, Conforms, Table;
      if s.ids > 0 {
        ListeningStays(s.log, t.log, LISTENER);
      }
    }
  }

  lemma OthersOpenNoSocket(s: State, a: Action)
    requires Enabled(s, a) && !a.Start?
    ensures s.log <= Next(s, a).log
    ensures forall i :: |s.log| <= i < |Next(s, a).log| ==> !Next(s, a).log[i].SocketCall?
  {
    if a.FinishEnd? {
      CloseAllGrows(s, a.order);
    } else {
      hide Next, Enabled;
      LogShape(s, a);
    }
  }

  /** Only a running server, which has its listener, opens more. */
  lemma IdsAreOpened(s: State, a: Action)
    requires Inv(s) && Enabled(s, a) && !a.Start?
    ensures Next(s, a).ids > 0 ==> s.ids > 0
  {
    hide Conforms, Track, Attributed, NoBadClose;
    if a.FinishEnd? {
      CloseAllIds(s, a.order);
    } else if a.Accept? {
      assert s.open[s.sockfd] < s.ids;
    }
  }

  lemma {:induction false} CloseAllIds(s: State, order: seq<Fd>)
    ensures CloseAll(s, order).ids == s.ids
    decreases |order|
  {
    if order != [] {
      CloseAllIds(Close(s, order[0]), order[1..]);
    }
  }

  lemma {:induction false} ListenerRun(s: State, run: seq<Action>)
    requires Inv(s) && CanRun(s, run) && ListenerIsFirst(s)
    ensures ListenerIsFirst(Run(s, run))
    decreases |run|
  {
    hide Inv, Next, Enabled, ListenerIsFirst;
    if run != [] {
      InvStep(s, run[0]);
      ListenerStep(s, run[0]);
      ListenerRun(Next(s, run[0]), run[1..]);
    }
  }

  lemma {:induction false} SocketsOfListener(log: seq<Event>)
    requires forall i :: 0 <= i < |log| && log[i].SocketCall? ==> log[i].id == LISTENER
    requires !Track(log, LISTENER).life.Wrong?
    ensures SocketCalls(log) == if Track(log, LISTENER).life.Listening? then 1 else 0
  {
    if log != [] {
      var before := log[..|log| - 1];
      assert forall i :: 0 <= i < |before| ==> before[i] == log[i];
      SocketsOfListener(before);
    }
  }

  /** The listener is open exactly as long as the server holds it. */
  lemma ListenerHeld(s: State)
    requires Inv(s) && ListenerIsFirst(s)
    ensures SocketCalls(s.log) - Closes(s.log, LISTENER) == if s.sockfd != INVALID_SOCKET then 1 else 0
  {
    assert Conforms(s, LISTENER);
    SocketsOfListener(s.log);
    ClosesOfLife(s.log, LISTENER);
    if s.sockfd != INVALID_SOCKET {
      var id := s.open[s.sockfd];
      var i := ListenerWasMade(s.log, id);
    }
  }

  lemma {:induction false} NeverAccepted(log: seq<Event>, id: nat, i: nat)
    requires Track(log, id).life.Listening? && i < |log|
    ensures !(log[i].Accepted? && log[i].id == id)
  {
    var before := log[..|log| - 1];
    if i < |before| {
      assert before[i] == log[i];
      if Track(before, id).life.Listening? {
        NeverAccepted(before, id, i);
      } else {
        UnbornIsSilent(before, id, i);
      }
    }
  }

  lemma ClientsAreNotListener(s: State, i: nat)
    requires Inv(s) && ListenerIsFirst(s) && i < |s.log| && s.log[i].Accepted?
    ensures s.log[i].id != LISTENER
  {
    if s.ids > 0 {
      NeverAccepted(s.log, LISTENER, i);
    } else {
      assert Conforms(s, LISTENER);
      UnbornIsSilent(s.log, LISTENER, i);
    }
  }

  /** Descriptor conservation at lock granularity, in every reachable state: accepts = closes of clients + clients
      in the table + at most one accept not yet stored; Socket calls = closes of the listener + the listener
      held; Socket makes the listener and Accept never does. */
  lemma Conservation(run: seq<Action>)
    requires CanRun(INIT, run)
    ensures var s := Run(INIT, run);
      && Accepts(s.log) == ClientCloses(s.log) + |s.clients| + (if InFlight(s) then 1 else 0)
      && Balance(s.log) == |s.clients| + (if s.sockfd != INVALID_SOCKET then 1 else 0) + (if InFlight(s) then 1 else 0)
      && SocketCalls(s.log) == Closes(s.log, LISTENER) + (if s.sockfd != INVALID_SOCKET then 1 else 0)
      && (forall i :: 0 <= i < |s.log| && s.log[i].SocketCall? ==> s.log[i].id == LISTENER)
      && (forall i :: 0 <= i < |s.log| && s.log[i].Accepted? ==> s.log[i].id != LISTENER)
  {
    ReachableInv(run);
    InvInit();
    var s := Run(INIT, run);
    BalancedRun(INIT, run);
    ListenerRun(INIT, run);
    OpenSet(s);
    BalanceSplits(s.log);
    ListenerHeld(s);
    forall i | 0 <= i < |s.log| && s.log[i].Accepted? ensures s.log[i].id != LISTENER {
      ClientsAreNotListener(s, i);
    }
  }
}
