/** The TCP client as a state machine: one connection, a receive thread and `finish` calls from another
    thread, in every interleaving. */
module ClientMachine {
  import opened Sockets

  /** `live`: the descriptor was open when the call was made. */
  datatype Event =
    | SocketCall(fd: Fd)
    | SelectCall(fd: Fd, live: bool)
    | RecvCall(fd: Fd, live: bool, n: int, data: seq<Byte>)
    | CloseCall(fd: Fd, live: bool)
    | Callback(callback: Notice)

  datatype Notice = Data(data: seq<Byte>) | Disconnect

  /** Where the receive thread is. */
  datatype Phase =
    | Fresh | ConnectFailed
    | AtTest | InSelect | InRecv
    | HasData(data: seq<Byte>)  // about to publish it
    | HasEnded                  // m_stop set, about to publish the disconnect
    | Exited

  datatype State = State(open: set<Fd>, sockfd: Fd, stop: bool, phase: Phase, log: seq<Event>)

  const INIT := State({}, INVALID_SOCKET, false, Fresh, [])

  datatype ConnectOutcome = NoSocket | SetupFailed(fd: Fd) | Connected(fd: Fd)

  datatype Action =
    | ConnectTo(outcome: ConnectOutcome)
    | Test
    | SelectReturns(n: int, isSet: bool)
    | Recv(n: int, data: seq<Byte>)
    | PublishData
    | PublishDisconnect
    | FinishBegin
    | FinishEnd

  predicate NoThread(p: Phase) {
    p.Fresh? || p.ConnectFailed? || p.Exited?
  }

  predicate Enabled(s: State, a: Action) {
    match a
    case ConnectTo(o) => s.phase.Fresh? && (o.NoSocket? || (o.fd >= 0 && o.fd !in s.open))
    case Test => s.phase.AtTest?
    case SelectReturns(_, _) => s.phase.InSelect?
    case Recv(n, data) => s.phase.InRecv? && RecvResult(n, data)
    case PublishData => s.phase.HasData?
    case PublishDisconnect => s.phase.HasEnded?
    case FinishBegin => true
    case FinishEnd => s.stop && NoThread(s.phase)
  }

  function Log(s: State, e: Event): State {
    s.(log := s.log + [e])
  }

  function Next(s: State, a: Action): State
    requires Enabled(s, a)
  {
    match a
    case ConnectTo(NoSocket) => s.(phase := ConnectFailed)
    case ConnectTo(SetupFailed(fd)) =>
      Log(s.(open := s.open + {fd}, sockfd := fd, phase := ConnectFailed), SocketCall(fd))
    case ConnectTo(Connected(fd)) => Log(s.(open := s.open + {fd}, sockfd := fd, phase := AtTest), SocketCall(fd))
    case Test =>
      if s.stop then s.(phase := Exited)
      else Log(s.(phase := InSelect), SelectCall(s.sockfd, s.sockfd in s.open))
    case SelectReturns(n, isSet) =>
      s.(phase := if n <= 0 then (if s.stop then Exited else AtTest) else if isSet then InRecv else AtTest)
    case Recv(n, data) =>
      var t := Log(s, RecvCall(s.sockfd, s.sockfd in s.open, n, data));
      if n < 1 then t.(stop := true, phase := HasEnded) else t.(phase := HasData(data))
    case PublishData => Log(s.(phase := AtTest), Callback(Data(s.phase.data)))
    case PublishDisconnect => Log(s.(phase := Exited), Callback(Disconnect))
    case FinishBegin => s.(stop := true)
    case FinishEnd =>
      if s.sockfd != INVALID_SOCKET
      then Log(s.(open := s.open - {s.sockfd}, sockfd := INVALID_SOCKET), CloseCall(s.sockfd, s.sockfd in s.open))
      else s
  }

  predicate CanRun(s: State, run: seq<Action>)
    decreases |run|
  {
    run == [] || (Enabled(s, run[0]) && CanRun(Next(s, run[0]), run[1..]))
  }

  function Run(s: State, run: seq<Action>): State
    requires CanRun(s, run)
    decreases |run|
  {
    if run == [] then s else Run(Next(s, run[0]), run[1..])
  }

  datatype Result = Result(n: int, data: seq<Byte>)

  /** The results of the Recv calls, in order. */
  function Results(log: seq<Event>): seq<Result> {
    if log == [] then []
    else
      var e, before := log[|log| - 1], Results(log[..|log| - 1]);
      if e.RecvCall? then before + [Result(e.n, e.data)] else before
  }

  /** The callbacks made, in order. */
  function Notices(log: seq<Event>): seq<Notice> {
    if log == [] then []
    else
      var e, before := log[|log| - 1], Notices(log[..|log| - 1]);
      if e.Callback? then before + [e.callback] else before
  }

  function Closes(log: seq<Event>): nat {
    if log == [] then 0 else Closes(log[..|log| - 1]) + if log[|log| - 1].CloseCall? then 1 else 0
  }

  function Opens(log: seq<Event>): nat {
    if log == [] then 0 else Opens(log[..|log| - 1]) + if log[|log| - 1].SocketCall? then 1 else 0
  }

  lemma LogSnoc(log: seq<Event>, e: Event)
    ensures Results(log + [e]) == if e.RecvCall? then Results(log) + [Result(e.n, e.data)] else Results(log)
    ensures Notices(log + [e]) == if e.Callback? then Notices(log) + [e.callback] else Notices(log)
    ensures Closes(log + [e]) == Closes(log) + if e.CloseCall? then 1 else 0
    ensures Opens(log + [e]) == Opens(log) + if e.SocketCall? then 1 else 0
  {
    assert (log + [e])[..|log|] == log;
  }

  /** What the application should be told: the chunks received before the first result below 1, then one
      disconnect if there was such a result. */
  function Owed(rs: seq<Result>): seq<Notice> {
    if rs == [] then []
    else if rs[0].n < 1 then [Disconnect]
    else [Data(rs[0].data)] + Owed(rs[1..])
  }

  ghost predicate NoFailure(rs: seq<Result>) {
    forall i :: 0 <= i < |rs| ==> rs[i].n >= 1
  }

  lemma {:induction false} OwedSnoc(rs: seq<Result>, r: Result)
    requires NoFailure(rs)
    ensures Owed(rs + [r]) == Owed(rs) + [if r.n < 1 then Disconnect else Data(r.data)]
  {
    if rs == [] {
      assert ([r])[1..] == [] && rs + [r] == [r];
    } else {
      OwedSnoc(rs[1..], r);
      assert (rs + [r])[1..] == rs[1..] + [r];
    }
  }

  /** The callback the thread is about to make. */
  function Pending(p: Phase): seq<Notice> {
    match p
    case HasData(data) => [Data(data)]
    case HasEnded => [Disconnect]
    case _ => []
  }

  predicate Live(e: Event) {
    (e.SelectCall? || e.RecvCall? || e.CloseCall?) ==> e.live
  }

  ghost predicate AllLive(log: seq<Event>) {
    forall i :: 0 <= i < |log| ==> Live(log[i])
  }

  ghost predicate Inv(s: State) {
    && s.open == (if s.sockfd != INVALID_SOCKET then {s.sockfd} else {})
    && (!NoThread(s.phase) ==> s.sockfd != INVALID_SOCKET)
    && (s.phase.Fresh? ==> s.sockfd == INVALID_SOCKET)
    && AllLive(s.log)
    && Notices(s.log) + Pending(s.phase) == Owed(Results(s.log))
    && (!s.phase.HasEnded? && !s.phase.Exited? ==> NoFailure(Results(s.log)))
    && (!NoFailure(Results(s.log)) ==> s.stop)
    && Opens(s.log) == Closes(s.log) + |s.open|
    && Opens(s.log) <= (if s.phase.Fresh? then 0 else 1)
  }

  lemma RecvStep(s: State, a: Action)
    requires Inv(s) && Enabled(s, a) && a.Recv?
    ensures Inv(Next(s, a))
  {
    hide Results, Notices, Owed, Closes, Opens;
    LogSnoc(s.log, RecvCall(s.sockfd, s.sockfd in s.open, a.n, a.data));
    OwedSnoc(Results(s.log), Result(a.n, a.data));
  }

  lemma PublishStep(s: State, a: Action)
    requires Inv(s) && Enabled(s, a) && (a.PublishData? || a.PublishDisconnect?)
    ensures Inv(Next(s, a))
  {
    hide Results, Notices, Owed, Closes, Opens;
    LogSnoc(s.log, Callback(Pending(s.phase)[0]));
  }

  lemma OtherStep(s: State, a: Action)
    requires Inv(s) && Enabled(s, a) && !a.Recv? && !a.PublishData? && !a.PublishDisconnect?
    ensures Inv(Next(s, a))
  {
    hide Results, Notices, Owed, Closes, Opens, NoFailure;
    match a
    case ConnectTo(o) => if !o.NoSocket? { LogSnoc(s.log, SocketCall(o.fd)); }
    case Test => LogSnoc(s.log, SelectCall(s.sockfd, s.sockfd in s.open));
    case FinishEnd => LogSnoc(s.log, CloseCall(s.sockfd, s.sockfd in s.open));
    case _ =>
  }

  lemma InvStep(s: State, a: Action)
    requires Inv(s) && Enabled(s, a)
    ensures Inv(Next(s, a))
  {
    hide Inv, Next;
    if a.Recv? {
      RecvStep(s, a);
    } else if a.PublishData? || a.PublishDisconnect? {
      PublishStep(s, a);
    } else {
      OtherStep(s, a);
    }
  }

  lemma {:induction false} InvRun(s: State, run: seq<Action>)
    requires Inv(s) && CanRun(s, run)
    ensures Inv(Run(s, run))
    decreases |run|
  {
    hide Inv, Next, Enabled;
    if run != [] {
      InvStep(s, run[0]);
      InvRun(Next(s, run[0]), run[1..]);
    }
  }

  /** Client lifecycle, for every interleaving of `finish` with the receive loop: the callbacks made are
      what the Recv results call for, except one the thread is about to make; no Select, Recv or Close uses
      a descriptor that is not open; the descriptor is closed at most once, and not while the thread runs. */
  lemma ClientLifecycle(run: seq<Action>)
    requires CanRun(INIT, run)
    ensures var s := Run(INIT, run);
      && Notices(s.log) + Pending(s.phase) == Owed(Results(s.log))
      && (s.phase.Exited? ==> Notices(s.log) == Owed(Results(s.log)))
      && AllLive(s.log) && Closes(s.log) <= 1
      && (!NoThread(s.phase) ==> Closes(s.log) == 0 && s.sockfd in s.open)
  {
    InvRun(INIT, run);
  }

  predicate IsFinished(s: State) {
    s.stop && NoThread(s.phase) && s.sockfd == INVALID_SOCKET
  }

  ghost predicate NeverConnects(run: seq<Action>) {
    forall i :: 0 <= i < |run| ==> !run[i].ConnectTo?
  }

  /** Nothing follows `finish`, exactly: later calls of any kind make no callback, no socket call and no change
      if and only if none of them is the first `connectTo` of a client that was finished before it. */
  lemma {:induction false} FinishIsFinal(s: State, run: seq<Action>)
    requires IsFinished(s) && CanRun(s, run)
    ensures Run(s, run) == s <==> NeverConnects(run)
    ensures Inv(s) ==> s.open == {}
    decreases |run|
  {
    if run != [] {
      if run[0].ConnectTo? {
        NeverFreshAgain(Next(s, run[0]), run[1..]);
      } else {
        assert Next(s, run[0]) == s;
        FinishIsFinal(s, run[1..]);
        assert forall i :: 0 <= i < |run| - 1 ==> run[i + 1] == run[1..][i];
      }
    }
  }

  lemma {:induction false} NeverFreshAgain(s: State, run: seq<Action>)
    requires !s.phase.Fresh? && CanRun(s, run)
    ensures !Run(s, run).phase.Fresh?
    decreases |run|
  {
    if run != [] {
      NeverFreshAgain(Next(s, run[0]), run[1..]);
    }
  }

  /** A late `connectTo`: a client finished before it was connected opens a socket all the same. */
  lemma LateConnect() returns (run: seq<Action>, late: Action)
    ensures CanRun(INIT, run) && IsFinished(Run(INIT, run)) && Enabled(Run(INIT, run), late)
    ensures Next(Run(INIT, run), late).log == [SocketCall(0)] && Next(Run(INIT, run), late).open == {0}
  {
    run, late := [FinishBegin, FinishEnd], ConnectTo(Connected(0));
    var s1 := Next(INIT, FinishBegin);
    assert run[1..] == [FinishEnd] && [FinishEnd][1..] == [];
    assert Run(s1, [FinishEnd]) == Next(s1, FinishEnd) == s1;
  }

  /** Stopped, with the receive thread absent or at its test. */
  predicate Stopped(s: State) {
    s.stop && (NoThread(s.phase) || s.phase.AtTest?)
  }

  ghost predicate OnlySockets(log: seq<Event>, log': seq<Event>) {
    log <= log' && forall i :: |log| <= i < |log'| ==> log'[i].SocketCall? || log'[i].CloseCall?
  }

  /** Even then nothing is received and nobody is called back: `m_stop` is never reset, so the receive thread
      of a late `connectTo` exits at its first test. */
  lemma {:induction false} FinishIsSilent(s: State, run: seq<Action>)
    requires Stopped(s) && CanRun(s, run)
    ensures Stopped(Run(s, run)) && OnlySockets(s.log, Run(s, run).log)
    decreases |run|
  {
    if run != [] {
      var t := Next(s, run[0]);
      assert Stopped(t) && OnlySockets(s.log, t.log);
      hide Next, Enabled;
      FinishIsSilent(t, run[1..]);
    }
  }

  /** After every `finish` the descriptor, if one was ever opened (also by a failed `connectTo`), has been closed
      exactly once. */
  lemma FinishCloses(run: seq<Action>)
    requires CanRun(INIT, run) && Enabled(Run(INIT, run), FinishEnd)
    ensures var t := Next(Run(INIT, run), FinishEnd);
      t.open == {} && IsFinished(t) && Closes(t.log) == Opens(t.log) <= 1
  {
    InvRun(INIT, run);
    InvStep(Run(INIT, run), FinishEnd);
  }

  function StepsToExit(p: Phase): nat {
    match p
    case AtTest => 1
    case InSelect => 1
    case InRecv => 2
    case HasData(_) => 2
    case HasEnded => 1
    case _ => 0
  }

  /** The receive thread's next action when the socket layer has nothing for it. */
  function OwnAction(p: Phase): Action {
    match p
    case InSelect => SelectReturns(0, false)
    case InRecv => Recv(-1, [])
    case HasData(_) => PublishData
    case HasEnded => PublishDisconnect
    case _ => Test
  }

  /** The join in `finish` is always served: from every state in which `m_stop` is set, the receive thread exits
      after at most two steps of its own. */
  lemma {:induction false} JoinIsServed(s: State) returns (rest: seq<Action>)
    requires s.stop
    ensures CanRun(s, rest) && Enabled(Run(s, rest), FinishEnd) && |rest| <= StepsToExit(s.phase) <= 2
    decreases StepsToExit(s.phase)
  {
    if NoThread(s.phase) {
      rest := [];
    } else {
      var a := OwnAction(s.phase);
      var more := JoinIsServed(Next(s, a));
      rest := [a] + more;
      assert rest[1..] == more;
    }
  }
}
