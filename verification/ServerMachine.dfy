/** The TCP server as a state machine at lock granularity.  Every action is one critical section of
    `m_mutex`, one socket call or one callback; the loop thread's actions interleave freely with the
    `deleteClient` and `finish` calls of any other thread. */
module ServerMachine {
  import opened Sockets

  datatype Client = Client(ip: string, sockfd: Fd, port: nat, isConnected: bool)

  /** What happened, in order.  `id` numbers the descriptors this server has opened: a descriptor number
      that is closed and issued again gets a new id. */
  datatype Event =
    | SocketCall(fd: Fd, id: nat)
    | AcceptCall(on: Fd)
    | Accepted(fd: Fd, id: nat, ip: string, port: nat)
    | RecvCall(fd: Fd, id: nat, n: int, data: seq<Byte>)
    | RecvOnClosed(fd: Fd)
    | CloseCall(fd: Fd, id: nat)
    | CloseOnClosed(fd: Fd)
    | Connect(fd: Fd, id: nat)
    | Data(fd: Fd, id: nat, data: seq<Byte>)
    | Disconnect(fd: Fd, id: nat)
    | Deleted(fd: Fd, id: nat)

  /** Where the loop thread is in the handling of one ready descriptor. */
  datatype Stage =
    | Ready                                            // at the loop test
    | Found                                            // a client: about to call Recv
    | Ended(id: nat)                                   // Recv returned 0: about to call deleteClient
    | Dropped(id: nat)                                 // about to publish the disconnect
    | Got(id: nat, data: seq<Byte>)                    // about to publish the data
    | Absent                                           // not a client: about to call Accept
    | Accepting(newfd: Fd, id: nat, ip: string, port: nat) // accepted, not yet in the table
    | Stored(newfd: Fd, id: nat)                       // in the table, not yet in m_fds
    | Armed(newfd: Fd, id: nat)                        // about to publish the connect

  datatype Phase =
    | Fresh
    | StartFailed
    | Top
    | Selecting(snapshot: set<Fd>, max: int)
    | Scanning(ready: set<Fd>, max: int, fd: Fd, stage: Stage)
    | Exited

  /** `open` maps the descriptors opened through this server and not yet closed to their ids. */
  datatype State = State(open: map<Fd, nat>, sockfd: Fd, fds: set<Fd>, clients: map<Fd, Client>,
                         stop: bool, phase: Phase, ids: nat, log: seq<Event>)

  const INIT := State(map[], INVALID_SOCKET, {}, map[], false, Fresh, 0, [])

  datatype StartOutcome = NoSocket | SetupFailed(fd: Fd) | Running(fd: Fd)

  datatype Action =
    | Start(outcome: StartOutcome)
    | Snapshot(max: int)
    | SelectReturns(n: int, ready: set<Fd>)
    | Visit
    | Recv(n: int, data: seq<Byte>)
    | LoopDelete
    | PublishDisconnect
    | PublishData
    | Accept(fd: Fd, ip: string, port: nat)
    | Store
    | Arm
    | PublishConnect
    | Exit
    | DeleteClient(handle: Fd)
    | FinishBegin
    | FinishEnd(order: seq<Fd>)

  /** `findMaxFd`: one more than the largest of the listening socket and the clients' sockets. */
  predicate IsMaxFd(s: State, max: int) {
    && s.sockfd < max
    && (forall h :: h in s.clients ==> s.clients[h].sockfd < max)
    && (s.sockfd == max - 1 || exists h :: h in s.clients && s.clients[h].sockfd == max - 1)
  }

  predicate Enumerates(order: seq<Fd>, keys: set<Fd>) {
    && (forall i, j :: 0 <= i < j < |order| ==> order[i] != order[j])
    && (forall i :: 0 <= i < |order| ==> order[i] in keys)
    && (forall h :: h in keys ==> h in order)
  }

  predicate IssuedBy(s: State, fd: Fd) {
    fd >= 0 && fd !in s.open
  }

  predicate Enabled(s: State, a: Action) {
    match a
    case Start(o) => s.phase.Fresh? && (o.NoSocket? || IssuedBy(s, o.fd))
    case Snapshot(max) => s.phase.Top? && !s.stop && IsMaxFd(s, max)
    case SelectReturns(n, ready) =>
      s.phase.Selecting? && ready <= s.phase.snapshot && forall f :: f in ready ==> 0 <= f < s.phase.max
    case Visit => s.phase.Scanning? && s.phase.stage.Ready?
    case Recv(n, data) => s.phase.Scanning? && s.phase.stage.Found? && RecvResult(n, data) && (s.phase.fd in s.open || n < 0)
    case LoopDelete => s.phase.Scanning? && s.phase.stage.Ended?
    case PublishDisconnect => s.phase.Scanning? && s.phase.stage.Dropped?
    case PublishData => s.phase.Scanning? && s.phase.stage.Got?
    case Accept(fd, ip, port) =>
      s.phase.Scanning? && s.phase.stage.Absent?
      && (fd == INVALID_SOCKET || (s.phase.fd == s.sockfd && IssuedBy(s, fd)))
    case Store => s.phase.Scanning? && s.phase.stage.Accepting?
    case Arm => s.phase.Scanning? && s.phase.stage.Stored?
    case PublishConnect => s.phase.Scanning? && s.phase.stage.Armed?
    case Exit => s.phase.Top? && s.stop
    case DeleteClient(_) => true
    case FinishBegin => true
    case FinishEnd(order) =>
      s.stop && (s.phase.Fresh? || s.phase.StartFailed? || s.phase.Exited?) && Enumerates(order, s.clients.Keys)
  }

  function At(s: State, stage: Stage): State
    requires s.phase.Scanning?
  {
    s.(phase := s.phase.(stage := stage))
  }

  function NextFd(s: State): State
    requires s.phase.Scanning?
  {
    s.(phase := s.phase.(fd := s.phase.fd + 1, stage := Ready))
  }

  function Log(s: State, e: Event): State {
    s.(log := s.log + [e])
  }

  /** A descriptor issued by Socket or Accept. */
  function Open(s: State, fd: Fd): State {
    s.(open := s.open[fd := s.ids], ids := s.ids + 1)
  }

  function Close(s: State, fd: Fd): State {
    if fd in s.open then Log(s.(open := s.open - {fd}), CloseCall(fd, s.open[fd]))
    else Log(s, CloseOnClosed(fd))
  }

  /** The critical section of `deleteClient`. */
  function Remove(s: State, h: Fd): State {
    if h in s.clients then
      var fd := s.clients[h].sockfd;
      var t := Close(s, fd);
      t.(fds := t.fds - {fd}, clients := t.clients - {h})
    else s
  }

  function CloseAll(s: State, order: seq<Fd>): State
    decreases |order|
  {
    if order == [] then s else CloseAll(Close(s, order[0]), order[1..])
  }

  /** The callback that a stage is about to make. */
  function CallbackOf(p: Phase): Event
    requires p.Scanning? && (p.stage.Dropped? || p.stage.Got? || p.stage.Armed?)
  {
    match p.stage
    case Dropped(id) => Disconnect(p.fd, id)
    case Got(id, data) => Data(p.fd, id, data)
    case Armed(newfd, id) => Connect(newfd, id)
  }

  function RecvEvent(s: State, fd: Fd, n: int, data: seq<Byte>): Event {
    if fd in s.open then RecvCall(fd, s.open[fd], n, data) else RecvOnClosed(fd)
  }

  function Next(s: State, a: Action): State
    requires Enabled(s, a)
  {
    match a
    case Start(NoSocket) => s.(phase := StartFailed)
    case Start(SetupFailed(fd)) => Log(Open(s, fd).(sockfd := fd, phase := StartFailed), SocketCall(fd, s.ids))
    case Start(Running(fd)) => Log(Open(s, fd).(sockfd := fd, fds := {fd}, phase := Top), SocketCall(fd, s.ids))
    case Snapshot(max) => s.(phase := Selecting(s.fds, max))
    case SelectReturns(n, ready) =>
      s.(phase := if n <= 0 then Top else Scanning(ready, s.phase.max, 0, Ready))
    case Visit =>
      if s.phase.fd >= s.phase.max then s.(phase := Top)
      else if s.phase.fd !in s.phase.ready then NextFd(s)
      else At(s, if s.phase.fd in s.clients then Found else Absent)
    case Recv(n, data) =>
      var fd := s.phase.fd;
      var t := if n < 1 && fd in s.clients
               then s.(clients := s.clients[fd := s.clients[fd].(isConnected := false)]) else s;
      var u := Log(t, RecvEvent(s, fd, n, data));
      if n < 0 then NextFd(u) else At(u, if n == 0 then Ended(s.open[fd]) else Got(s.open[fd], data))
    case LoopDelete => At(Remove(s, s.phase.fd), Dropped(s.phase.stage.id))
    case PublishDisconnect => NextFd(Log(s, CallbackOf(s.phase)))
    case PublishData => NextFd(Log(s, CallbackOf(s.phase)))
    case Accept(fd, ip, port) =>
      var t := Log(s, AcceptCall(s.phase.fd));
      if fd == INVALID_SOCKET then NextFd(t)
      else At(Log(Open(t, fd), Accepted(fd, s.ids, ip, port)), Accepting(fd, s.ids, ip, port))
    case Store =>
      var Accepting(fd, id, ip, port) := s.phase.stage;
      At(s.(clients := if fd in s.clients then s.clients else s.clients[fd := Client(ip, fd, port, true)]),
         Stored(fd, id))
    case Arm =>
      var Stored(fd, id) := s.phase.stage;
      At(s.(fds := s.fds + {fd}), Armed(fd, id))
    case PublishConnect => NextFd(Log(s, CallbackOf(s.phase)))
    case Exit => s.(phase := Exited)
    case DeleteClient(h) =>
      if h in s.clients && s.clients[h].sockfd in s.open
      then Log(Remove(s, h), Deleted(h, s.open[s.clients[h].sockfd])) else Remove(s, h)
    case FinishBegin => s.(stop := true)
    case FinishEnd(order) =>
      var t := CloseAll(s, order);
      var u := if s.sockfd != INVALID_SOCKET then Close(t, s.sockfd) else t;
      u.(sockfd := INVALID_SOCKET, clients := map[])
  }

  /** A run: every action is enabled where it is taken. */
  predicate CanRun(s: State, run: seq<Action>)
    decreases |run|
  {
    run == [] || (Enabled(s, run[0]) && CanRun(Next(s, run[0]), run[1..]))
  }

  function Run(s: State, run: seq<Action>): State
    requires CanRun(s, run)
    decreases |run|
  {
    if run == [] then s else Run(Next(s, run[0]), run[1..])
  }

  lemma {:induction false} RunAppends(s: State, xs: seq<Action>, ys: seq<Action>)
    requires CanRun(s, xs) && CanRun(Run(s, xs), ys)
    ensures CanRun(s, xs + ys) && Run(s, xs + ys) == Run(Run(s, xs), ys)
    decreases |xs|
  {
    hide Next, Enabled;
    if xs == [] {
      assert xs + ys == ys;
    } else {
      RunAppends(Next(s, xs[0]), xs[1..], ys);
      assert (xs + ys)[1..] == xs[1..] + ys;
    }
  }

  /** A sequence of states linked by actions. */
  predicate Chain(states: seq<State>, acts: seq<Action>) {
    && |states| == |acts| + 1
    && forall i :: 0 <= i < |acts| ==> Enabled(states[i], acts[i]) && states[i + 1] == Next(states[i], acts[i])
  }

  lemma {:induction false} ChainRuns(states: seq<State>, acts: seq<Action>)
    requires Chain(states, acts)
    ensures CanRun(states[0], acts) && Run(states[0], acts) == states[|acts|]
    decreases |acts|
  {
    hide Next, Enabled;
    if acts != [] {
      ChainRuns(states[1..], acts[1..]);
    }
  }

  const ADD := [Store, Arm, PublishConnect]

  lemma AddSteps(s: State)
    requires s.phase.Scanning? && s.phase.stage.Accepting?
    ensures Enabled(s, Store) && Enabled(Next(s, Store), Arm) && Enabled(Next(Next(s, Store), Arm), PublishConnect)
    ensures var Accepting(fd, id, ip, port) := s.phase.stage;
      Next(Next(Next(s, Store), Arm), PublishConnect)
      == s.(clients := if fd in s.clients then s.clients else s.clients[fd := Client(ip, fd, port, true)],
            fds := s.fds + {fd}, log := s.log + [Connect(fd, id)],
            phase := s.phase.(fd := s.phase.fd + 1, stage := Ready))
  {
  }

  /** The loop thread's work on a new connection, spelled out. */
  lemma AddShape(s: State)
    requires s.phase.Scanning? && s.phase.stage.Accepting?
    ensures CanRun(s, ADD)
    ensures var Accepting(fd, id, ip, port) := s.phase.stage;
      Run(s, ADD)
      == s.(clients := if fd in s.clients then s.clients else s.clients[fd := Client(ip, fd, port, true)],
            fds := s.fds + {fd}, log := s.log + [Connect(fd, id)],
            phase := s.phase.(fd := s.phase.fd + 1, stage := Ready))
  {
    AddSteps(s);
    hide Next, Enabled, Run, CanRun;
    var s1 := Next(s, Store);
    var s2 := Next(s1, Arm);
    ChainRuns([s, s1, s2, Next(s2, PublishConnect)], ADD);
  }
}
