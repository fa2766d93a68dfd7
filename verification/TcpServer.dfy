/** include/sockets-cpp/TcpServer.h: the server's own methods, proved against the machine's actions. */
module TcpServer {
  import opened Sockets
  import opened ServerMachine
  import opened ServerInvariant
  import opened ServerFinish
  import opened ServerAgreement
  import opened ServerRounds

  /** The calls of Socket, failed ones too, and of Select, with what they returned. */
  datatype SysCall = Socketed(fd: Fd) | Selected(max: int, fds: set<Fd>, n: int, ready: set<Fd>)

  /** The socket layer: any behaviour the calls' contracts allow, with the record of what was called. */
  class SocketCore {
    var open: map<Fd, nat>
    var ids: nat
    ghost var log: seq<Event>  // socket calls and callbacks, in order
    ghost var calls: seq<SysCall>

    constructor ()
      ensures open == map[] && ids == 0 && log == [] && calls == []
    {
      open, ids, log, calls := map[], 0, [], [];
    }

    /** A descriptor that is not open, or INVALID_SOCKET. */
    method Issue() returns (fd: Fd)
      modifies `open, `ids
      ensures fd == INVALID_SOCKET ==> open == old(open) && ids == old(ids)
      ensures fd != INVALID_SOCKET ==> fd >= 0 && fd !in old(open) && open == old(open)[fd := old(ids)] && ids == old(ids) + 1
    {
      fd := *;
      if fd < 0 || fd in open {
        fd := INVALID_SOCKET;
      } else {
        open, ids := open[fd := ids], ids + 1;
      }
    }

    method Socket() returns (fd: Fd)
      modifies this
      ensures calls == old(calls) + [Socketed(fd)]
      ensures fd == INVALID_SOCKET ==> open == old(open) && ids == old(ids) && log == old(log)
      ensures fd != INVALID_SOCKET ==>
                fd >= 0 && fd !in old(open) && open == old(open)[fd := old(ids)]
                && ids == old(ids) + 1 && log == old(log) + [SocketCall(fd, old(ids))]
    {
      fd := Issue();
      calls := calls + [Socketed(fd)];
      if fd != INVALID_SOCKET {
        log := log + [SocketCall(fd, ids - 1)];
      }
    }

    /** Accept on a descriptor that is not listening fails. */
    method Accept(on: Fd, listener: Fd) returns (fd: Fd, ip: string, port: nat)
      modifies `open, `ids, `log
      ensures fd == INVALID_SOCKET ==> open == old(open) && ids == old(ids) && log == old(log) + [AcceptCall(on)]
      ensures fd != INVALID_SOCKET ==>
                on == listener && fd >= 0 && fd !in old(open)
                && open == old(open)[fd := old(ids)] && ids == old(ids) + 1
                && log == old(log) + [AcceptCall(on)] + [Accepted(fd, old(ids), ip, port)]
    {
      ip, port := *, *;
      log := log + [AcceptCall(on)];
      fd := INVALID_SOCKET;
      if on == listener {
        fd := Issue();
        if fd != INVALID_SOCKET {
          log := log + [Accepted(fd, ids - 1, ip, port)];
        }
      }
    }

    /** Select reports only descriptors that it was given and that are below `max`. */
    method Select(max: int, fds: set<Fd>) returns (n: int, ready: set<Fd>)
      modifies `calls
      ensures ready <= fds && forall f :: f in ready ==> 0 <= f < max
      ensures calls == old(calls) + [Selected(max, fds, n, ready)]
    {
      n, ready := *, *;
      ready := set f | f in ready && f in fds && 0 <= f < max;
      calls := calls + [Selected(max, fds, n, ready)];
    }

    method Recv(fd: Fd) returns (n: int, data: seq<Byte>)
      modifies `log
      ensures RecvResult(n, data) && (fd in open || n < 0)
      ensures log == old(log) + [if fd in open then RecvCall(fd, open[fd], n, data) else RecvOnClosed(fd)]
    {
      n, data := *, *;
      if |data| > MAX_PACKET_SIZE {
        data := data[..MAX_PACKET_SIZE];
      }
      if n >= 0 && fd in open {
        n := |data|;
        log := log + [RecvCall(fd, open[fd], n, data)];
      } else {
        n, data := -1, [];
        log := log + [if fd in open then RecvCall(fd, open[fd], n, data) else RecvOnClosed(fd)];
      }
    }

    method Close(fd: Fd)
      modifies `open, `log
      ensures if fd in old(open) then open == old(open) - {fd} && log == old(log) + [CloseCall(fd, old(open)[fd])]
              else open == old(open) && log == old(log) + [CloseOnClosed(fd)]
    {
      if fd in open {
        log := log + [CloseCall(fd, open[fd])];
        open := open - {fd};
      } else {
        log := log + [CloseOnClosed(fd)];
      }
    }
  }

  /** The raw results of the calls that `start` makes after creating the socket. */
  datatype Setup = Setup(reuseAddr: int, rcvBuf: int, sndBuf: int, bind: int, listen: int)

  class Server {
    const core: SocketCore
    var sockfd: Fd
    var fds: set<Fd>
    var clients: map<Fd, Client>
    var stop: bool
    ghost var phase: Phase  // where the loop thread is; Fresh, StartFailed and Exited mean there is none

    ghost function State(): State
      reads this, core
    {
      ServerMachine.State(core.open, sockfd, fds, clients, stop, phase, core.ids, core.log)
    }

    constructor (core: SocketCore)
      requires core.open == map[] && core.ids == 0 && core.log == []
      ensures this.core == core && State() == INIT
    {
      this.core := core;
      sockfd, fds, clients, stop, phase := INVALID_SOCKET, {}, map[], false, Fresh;
    }

    /** `start`: Socket is called exactly once, unless Initialize failed; everything succeeds exactly if it gave
        a descriptor and none of the five calls after it failed. */
    method Start(initialize: int, setup: Setup) returns (success: bool)
      requires State().phase == Fresh && sockfd == INVALID_SOCKET
      modifies this, core
      ensures initialize != 0 ==> !success && core.calls == old(core.calls) && sockfd == INVALID_SOCKET
      ensures initialize == 0 ==>
                && core.calls == old(core.calls) + [Socketed(sockfd)]
                && (success <==>
                    && sockfd != INVALID_SOCKET
                    && setup.reuseAddr >= 0 && setup.rcvBuf >= 0 && setup.sndBuf >= 0
                    && setup.bind != -1 && setup.listen != -1)
      ensures success ==> fds == {sockfd} && phase == Top
      ensures var outcome := if sockfd == INVALID_SOCKET then NoSocket
                             else if success then Running(sockfd) else SetupFailed(sockfd);
        Enabled(old(State()), Action.Start(outcome)) && State() == Next(old(State()), Action.Start(outcome))
    {
      success := false;
      phase := StartFailed;
      if initialize != 0 {
        return;
      }
      sockfd := core.Socket();
      if sockfd == INVALID_SOCKET {
        return;
      }
      if setup.reuseAddr < 0 {
        return;
      }
      if setup.rcvBuf < 0 {
        return;
      }
      if setup.sndBuf < 0 {
        return;
      }
      if setup.bind == -1 {
        return;
      }
      if setup.listen == -1 {
        return;
      }
      success := true;
      fds := {};
      fds := fds + {sockfd};
      phase := Top;
    }

    /** The critical section of `deleteClient`; the deletion is recorded as a caller's unless it is the
        loop thread's own. */
    method DeleteClient(handle: Fd, ghost byLoop: bool) returns (found: bool)
      requires Inv(State())
      modifies `fds, `clients, core
      ensures found <==> handle in old(clients)
      ensures State() == if byLoop then Remove(old(State()), handle) else Next(old(State()), Action.DeleteClient(handle))
      ensures clients == old(clients) - {handle} && core.calls == old(core.calls)
      ensures if found then core.open == old(core.open) - {handle} && fds == old(fds) - {handle}
              else core.open == old(core.open) && fds == old(fds)
    {
      if handle in clients {
        var client := clients[handle];
        ghost var id := core.open[client.sockfd];
        core.Close(client.sockfd);
        fds := fds - {client.sockfd};
        clients := clients - {handle};
        if !byLoop {
          core.log := core.log + [Deleted(handle, id)];
        }
        return true;
      }
      return false;
    }

    /** What other threads do while one waits. */
    method Await(after: State)
      modifies this, core
      ensures State() == after
    {
      core.open, core.ids, core.log := after.open, after.ids, after.log;
      sockfd, fds, clients, stop, phase := after.sockfd, after.fds, after.clients, after.stop, after.phase;
    }

    /** `finish`, called at any moment: while it waits to join, the loop thread (and any other) goes on with
        `rest`, which leaves the server in state `joined` with the loop thread gone. */
    method Finish(joined: State, order: seq<Fd>, ghost rest: seq<Action>) returns (ghost run: seq<Action>)
      requires Inv(State())
      requires var s := State().(stop := true);
        CanRun(s, rest) && joined == Run(s, rest) && Enabled(joined, FinishEnd(order))
      modifies this, core
      ensures run == [FinishBegin] + (rest + [FinishEnd(order)])
      ensures CanRun(old(State()), run) && State() == Run(old(State()), run)
      ensures core.open == map[] && clients == map[] && sockfd == INVALID_SOCKET
    {
      run := FinishRuns(State(), joined, rest, order);
      hide Inv, Next, Enabled, Run, CanRun, CloseAll;
      stop := true;
      Await(joined);
      CloseClients(order);
      if sockfd != INVALID_SOCKET {
        core.Close(sockfd);
        CloseAllSnoc(joined, order, joined.sockfd);
      }
      sockfd := INVALID_SOCKET;
      clients := map[];
    }

    method CloseClients(order: seq<Fd>)
      requires Enumerates(order, clients.Keys) && Inv(State())
      modifies core
      ensures State() == CloseAll(old(State()), order)
    {
      hide Inv, CloseAll;
      ghost var s0 := State();
      CloseAllKeeps(s0, order[..0]);
      for i := 0 to |order|
        invariant State() == CloseAll(s0, order[..i])
      {
        ClientsAreTheirHandles(s0, order[i]);
        core.Close(clients[order[i]].sockfd);
        CloseAllSnoc(s0, order[..i], order[i]);
        assert order[..i] + [order[i]] == order[..i + 1];
      }
      assert order[..|order|] == order;
    }

    /** `findMaxFd`, for any order in which the table is walked. */
    method FindMaxFd(order: seq<Fd>) returns (max: int)
      requires Enumerates(order, clients.Keys)
      ensures IsMaxFd(State(), max)
    {
      max := sockfd;
      for i := 0 to |order|
        invariant sockfd <= max
        invariant forall j :: 0 <= j < i ==> clients[order[j]].sockfd <= max
        invariant max == sockfd || exists h :: h in clients && clients[h].sockfd == max
      {
        var h := order[i];
        if clients[h].sockfd > max {
          max := clients[h].sockfd;
        }
        assert h in clients;
      }
      max := max + 1;
    }

    method GetClientInfo(handle: Fd) returns (found: bool, ip: string, port: nat, connected: bool)
      ensures found <==> handle in clients
      ensures found ==> var c := clients[handle]; ip == c.ip && port == c.port && connected == c.isConnected
    {
      found, ip, port, connected := false, "", 0, false;
      if handle in clients {
        var client := clients[handle];
        found, ip, port, connected := true, client.ip, client.port, client.isConnected;
      }
    }

    /** `Client::sendMsg`: `send` gives what the socket layer's Send returns for each descriptor, and
        `attempted` is the descriptor Send was called on, if it was. */
    static method SendMsg(client: Client, size: nat, send: Fd -> int) returns (success: bool, attempted: seq<Fd>)
      ensures attempted == if client.sockfd != INVALID_SOCKET then [client.sockfd] else []
      ensures success <==> client.sockfd == INVALID_SOCKET || send(client.sockfd) >= size
    {
      attempted := [];
      if client.sockfd != INVALID_SOCKET {
        attempted := [client.sockfd];
        var sent := send(client.sockfd);
        if sent < 0 {
          return false, attempted;
        }
        if sent < size {
          return false, attempted;
        }
      }
      success := true;
    }

    /** `sendBcast`, for any order in which the table is walked: success exactly when every client in the
        table took the whole message; on failure the clients sent to are a prefix of the order, all of them
        complete but the last. */
    method SendBcast(order: seq<Fd>, size: nat, send: Fd -> int) returns (success: bool, attempted: seq<Fd>)
      requires Enumerates(order, clients.Keys) && Inv(State())
      ensures success <==> forall h :: h in clients ==> send(h) >= size
      ensures attempted <= order && (success ==> attempted == order)
      ensures !success ==> attempted != [] && send(attempted[|attempted| - 1]) < size
      ensures forall i :: 0 <= i < |attempted| - 1 ==> send(attempted[i]) >= size
    {
      success, attempted := true, [];
      var i := 0;
      while i < |order| && success
        invariant 0 <= i <= |order|
        invariant attempted == order[..i]
        invariant success ==> forall j :: 0 <= j < i ==> send(order[j]) >= size
        invariant !success ==> i > 0 && send(order[i - 1]) < size
        invariant forall j :: 0 <= j < i - 1 ==> send(order[j]) >= size
        decreases |order| - i
      {
        ClientsAreTheirHandles(State(), order[i]);
        OpenIsValid(State(), order[i]);
        var ok, sent := SendMsg(clients[order[i]], size, send);
        success := success && ok;
        attempted := attempted + sent;
        i := i + 1;
      }
      if !success {
        assert order[i - 1] in clients;
      } else {
        assert order[..i] == order;
      }
    }

    /** `sendClientMessage`: the unknown handle is refused without a Send. */
    method SendClientMessage(handle: Fd, size: nat, send: Fd -> int) returns (found: bool, success: bool, attempted: seq<Fd>)
      requires Inv(State())
      ensures found <==> handle in clients
      ensures success <==> handle in clients && send(handle) >= size
      ensures attempted == if handle in clients then [handle] else []
    {
      found, success, attempted := false, false, [];
      if handle in clients {
        found := true;
        ClientsAreTheirHandles(State(), handle);
        OpenIsValid(State(), handle);
        success, attempted := SendMsg(clients[handle], size, send);
      }
    }

    /** The end of a connection: it is deleted, then its disconnect is published. */
    method DropClient(fd: Fd)
      requires Inv(State()) && phase.Scanning? && phase.stage.Ended? && phase.fd == fd
      modifies this, core
      ensures State() == Next(Next(old(State()), LoopDelete), PublishDisconnect)
      ensures core.calls == old(core.calls)
    {
      ghost var s1 := Next(State(), LoopDelete);
      hide Inv;
      var _ := DeleteClient(fd, true);
      phase := s1.phase;
      assert State() == s1;
      core.log := core.log + [Disconnect(fd, phase.stage.id)];
      phase := phase.(fd := fd + 1, stage := Ready);
    }

    /** The client branch of the scan: one Recv, and then the data, the disconnect or nothing. */
    method ServeClient(fd: Fd) returns (ghost acts: seq<Action>)
      requires Inv(State()) && phase.Scanning? && phase.stage == Found && phase.fd == fd && fd in clients
      modifies this, core
      ensures CanRun(old(State()), acts) && LoopActions(acts) && State() == Run(old(State()), acts)
      ensures core.calls == old(core.calls)
      ensures phase == old(phase).(fd := fd + 1, stage := Ready)
    {
      hide Inv, Run, CanRun, Next, Enabled, LoopActions;
      ghost var s0 := State();
      var n, data := core.Recv(fd);
      ghost var receive := Action.Recv(n, data);
      OwnActions(receive);
      ReceiveFacts(s0, n, data);
      ghost var s1 := Next(s0, receive);
      phase := s1.phase;
      if n < 1 {
        clients := clients[fd := clients[fd].(isConnected := false)];
        assert State() == s1;
        if n == 0 {
          InvStep(s0, receive);
          DropClient(fd);
          ghost var s2 := Next(s1, LoopDelete);
          acts := [receive, LoopDelete, PublishDisconnect];
          ChainRuns([s0, s1, s2, Next(s2, PublishDisconnect)], acts);
        } else {
          acts := [receive];
          ChainRuns([s0, s1], acts);
        }
      } else {
        assert State() == s1;
        core.log := core.log + [Data(fd, phase.stage.id, data)];
        phase := phase.(fd := fd + 1, stage := Ready);
        acts := [receive, PublishData];
        ChainRuns([s0, s1, Next(s1, PublishData)], acts);
      }
    }

    /** A new connection is stored under the lock, then armed, then announced. */
    method AddClient(clientfd: Fd, ip: string, port: nat)
      requires phase.Scanning? && phase.stage.Accepting?
      requires phase.stage == Accepting(clientfd, phase.stage.id, ip, port)
      modifies this, core
      ensures CanRun(old(State()), ADD) && State() == Run(old(State()), ADD)
      ensures clientfd !in old(clients) ==> clients == old(clients)[clientfd := Client(ip, clientfd, port, true)]
      ensures fds == old(fds) + {clientfd} && core.calls == old(core.calls)
      ensures phase == old(phase).(fd := old(phase).fd + 1, stage := Ready)
    {
      ghost var s0, id := State(), phase.stage.id;
      AddShape(s0);
      hide Next, Enabled;
      if clientfd !in clients {
        clients := clients[clientfd := Client(ip, clientfd, port, true)];
      }
      phase := phase.(stage := Stored(clientfd, id));
      fds := fds + {clientfd};
      phase := phase.(stage := Armed(clientfd, id));
      core.log := core.log + [Connect(clientfd, id)];
      phase := phase.(fd := phase.fd + 1, stage := Ready);
    }

    /** The other branch: one Accept, and then the new client, if any. */
    method ServeListener(fd: Fd) returns (ghost acts: seq<Action>)
      requires phase.Scanning? && phase.stage == Absent && phase.fd == fd
      modifies this, core
      ensures CanRun(old(State()), acts) && LoopActions(acts) && State() == Run(old(State()), acts)
      ensures core.calls == old(core.calls)
      ensures phase == old(phase).(fd := fd + 1, stage := Ready)
    {
      hide Run, CanRun, Next, Enabled;
      ghost var s0 := State();
      var clientfd, ip, port := core.Accept(fd, sockfd);
      ghost var accept := Action.Accept(clientfd, ip, port);
      AcceptFacts(s0, clientfd, ip, port);
      ghost var s1 := Next(s0, accept);
      phase := s1.phase;
      assert State() == s1;
      acts := [accept];
      ChainRuns([s0, s1], acts);
      if clientfd != INVALID_SOCKET {
        AddClient(clientfd, ip, port);
        RunAppends(s0, acts, ADD);
        acts := acts + ADD;
      }
    }

    /** One turn of the scan: the table, under the lock, decides which branch is taken. */
    method Turn(ready: set<Fd>, max: int, fd: Fd) returns (ghost acts: seq<Action>)
      requires Inv(State()) && phase == Scanning(ready, max, fd, Ready) && fd < max
      modifies this, core
      ensures CanRun(old(State()), acts) && LoopActions(acts) && State() == Run(old(State()), acts)
      ensures core.calls == old(core.calls)
      ensures phase == Scanning(ready, max, fd + 1, Ready)
    {
      hide Inv;
      ghost var s0, more := State(), [];
      InvStep(s0, Visit);
      phase := Next(s0, Visit).phase;
      assert State() == Next(s0, Visit);
      if fd in ready {
        if fd in clients {
          more := ServeClient(fd);
        } else {
          more := ServeListener(fd);
        }
      }
      RunVisitThen(s0, more);
      acts := [Visit] + more;
    }

    /** One iteration of `serverTask`: snapshot, select, scan.  Select is called exactly once, on all of `m_fds` and
        with a bound just above the listening socket and every client's; `n` and `ready` are its reply.  The
        round is a run of the machine; unless Select fails or times out, the ready descriptors are served
        safely, each exactly once, if and only if each of them is the listening socket or a client; the
        agreement of `m_fds` with the table is kept. */
    method ServeRound(order: seq<Fd>) returns (maxfds: int, n: int, ready: set<Fd>, ghost run: seq<Action>)
      requires Inv(State()) && phase == Top && !stop && Enumerates(order, clients.Keys)
      modifies this, core
      ensures core.calls == old(core.calls) + [Selected(maxfds, old(fds), n, ready)]
      ensures old(sockfd) < maxfds && forall h :: h in old(clients) ==> h < maxfds
      ensures maxfds - 1 == old(sockfd) || maxfds - 1 in old(clients)
      ensures |run| >= 2 && run[0] == Snapshot(maxfds) && run[1] == SelectReturns(n, ready)
      ensures CanRun(old(State()), run) && State() == Run(old(State()), run)
      ensures Inv(State()) && phase == Top
      ensures old(Agree(State())) ==> Agree(State())
      ensures n <= 0 ==> State() == old(State())
      ensures n > 0 ==>
                (RoundSafe(old(State()), ready, State()) <==>
                 forall f :: f in ready ==> f == old(sockfd) || f in old(clients))
    {
      hide Inv, Agree, RoundSafe, Run, CanRun, Next, Enabled, IsMaxFd;
      ghost var s0 := State();
      var snapshot := fds;
      maxfds := FindMaxFd(order);
      MaxBoundsHandles(s0, maxfds);
      n, ready := core.Select(maxfds, snapshot);
      ghost var begin := RoundBegins(s0, maxfds, n, ready);
      run := begin;
      if n <= 0 {
        return;
      }
      phase := Scanning(ready, maxfds, 0, Ready);
      ghost var s2, acts := State(), [];
      RunNothing(s2);
      for fd := 0 to maxfds
        invariant Inv(State()) && phase == Scanning(ready, maxfds, fd, Ready)
        invariant CanRun(s2, acts) && LoopActions(acts) && State() == Run(s2, acts)
        invariant core.calls == old(core.calls) + [Selected(maxfds, old(fds), n, ready)]
      {
        ghost var more := Turn(ready, maxfds, fd);
        InvRun(Run(s2, acts), more);
        RunAppends(s2, acts, more);
        acts := acts + more;
      }
      ghost var s3 := State();
      LastVisit(s3);
      RunAppends(s2, acts, [Visit]);
      phase := Top;
      acts := acts + [Visit];
      RunAppends(s0, begin, acts);
      run := begin + acts;
      RoundServes(s0, maxfds, n, ready, acts);
    }
  }

  /** `finish` as a run, and the state it ends in. */
  lemma FinishRuns(s: State, joined: State, rest: seq<Action>, order: seq<Fd>) returns (run: seq<Action>)
    requires Inv(s) && CanRun(s.(stop := true), rest) && joined == Run(s.(stop := true), rest)
    requires Enabled(joined, FinishEnd(order))
    ensures run == [FinishBegin] + (rest + [FinishEnd(order)]) && CanRun(s, run)
    ensures Inv(joined) && Enumerates(order, joined.clients.Keys)
    ensures Run(s, run) == CloseAll(joined, Doomed(joined, order)).(sockfd := INVALID_SOCKET, clients := map[])
    ensures Run(s, run).open == map[]
  {
    hide Inv, Next, Enabled, CloseAll, Run, CanRun, Enumerates, Doomed;
    var s1 := s.(stop := true);
    FinishBegins(s);
    InvRun(s1, rest);
    FinishEnds(joined, order);
    ChainRuns([joined, Next(joined, FinishEnd(order))], [FinishEnd(order)]);
    RunAppends(s1, rest, [FinishEnd(order)]);
    ChainRuns([s, s1], [FinishBegin]);
    RunAppends(s, [FinishBegin], rest + [FinishEnd(order)]);
    run := [FinishBegin] + (rest + [FinishEnd(order)]);
  }

  lemma FinishBegins(s: State)
    requires Inv(s)
    ensures Enabled(s, FinishBegin) && Next(s, FinishBegin) == s.(stop := true) && Inv(s.(stop := true))
  {
    InvStep(s, FinishBegin);
  }

  lemma FinishEnds(s: State, order: seq<Fd>)
    requires Inv(s) && Enabled(s, FinishEnd(order))
    ensures Enumerates(order, s.clients.Keys)
    ensures Next(s, FinishEnd(order)) == CloseAll(s, Doomed(s, order)).(sockfd := INVALID_SOCKET, clients := map[])
    ensures Next(s, FinishEnd(order)).open == map[]
  {
    hide Inv, CloseAll, Enumerates, Doomed;
    FinishShape(s, order);
    FinishLives(s, order, 0);
  }

  /** The loop of `finish` touches only the open descriptors and the log. */
  lemma {:induction false} CloseAllKeeps(s: State, order: seq<Fd>)
    ensures var t := CloseAll(s, order); t == s.(open := t.open, log := t.log)
    ensures order == [] ==> CloseAll(s, order) == s
    decreases |order|
  {
    if order != [] {
      CloseAllKeeps(ServerMachine.Close(s, order[0]), order[1..]);
    }
  }

  lemma ClientsAreTheirHandles(s: State, h: Fd)
    requires Inv(s) && h in s.clients
    ensures s.clients[h].sockfd == h
  {
  }

  lemma OpenIsValid(s: State, h: Fd)
    requires Inv(s) && h in s.clients
    ensures h != INVALID_SOCKET
  {
  }

  /** What a Recv on a client leads to, spelled out. */
  lemma ReceiveFacts(s: State, n: int, data: seq<Byte>)
    requires s.phase.Scanning? && s.phase.stage.Found? && s.phase.fd in s.clients && RecvResult(n, data)
    requires s.phase.fd in s.open || n < 0
    ensures var a, fd := Action.Recv(n, data), s.phase.fd;
      && Enabled(s, a)
      && var t := Next(s, a);
      && t == s.(clients := if n < 1 then s.clients[fd := s.clients[fd].(isConnected := false)] else s.clients,
                 log := s.log + [RecvEvent(s, fd, n, data)], phase := t.phase)
      && (n < 0 ==> t.phase == s.phase.(fd := fd + 1, stage := Ready))
      && (n == 0 ==>
            && t.phase == s.phase.(stage := Ended(s.open[fd])) && Enabled(t, LoopDelete)
            && Enabled(Next(t, LoopDelete), PublishDisconnect)
            && Next(Next(t, LoopDelete), PublishDisconnect).phase == s.phase.(fd := fd + 1, stage := Ready))
      && (n > 0 ==>
            && t.phase == s.phase.(stage := Got(s.open[fd], data)) && Enabled(t, PublishData)
            && Next(t, PublishData)
               == t.(log := t.log + [Data(fd, s.open[fd], data)], phase := s.phase.(fd := fd + 1, stage := Ready)))
  {
  }

  lemma AcceptFacts(s: State, newfd: Fd, ip: string, port: nat)
    requires s.phase.Scanning? && s.phase.stage.Absent?
    requires newfd == INVALID_SOCKET || (s.phase.fd == s.sockfd && IssuedBy(s, newfd))
    ensures var a, fd := Action.Accept(newfd, ip, port), s.phase.fd;
      && Enabled(s, a)
      && var t := Next(s, a);
      && (newfd == INVALID_SOCKET ==>
            t == s.(log := s.log + [AcceptCall(fd)], phase := s.phase.(fd := fd + 1, stage := Ready)))
      && (newfd != INVALID_SOCKET ==>
            t == s.(open := s.open[newfd := s.ids], ids := s.ids + 1,
                       log := s.log + [AcceptCall(fd)] + [Accepted(newfd, s.ids, ip, port)],
                       phase := s.phase.(stage := Accepting(newfd, s.ids, ip, port))))
  {
  }

  lemma OwnActions(receive: Action)
    requires receive.Recv?
    ensures LoopActions([receive]) && LoopActions([receive, PublishData])
    ensures LoopActions([receive, LoopDelete, PublishDisconnect])
  {
  }

  lemma RunVisitThen(s: State, more: seq<Action>)
    requires Enabled(s, Visit) && CanRun(Next(s, Visit), more)
    ensures CanRun(s, [Visit] + more) && Run(s, [Visit] + more) == Run(Next(s, Visit), more)
  {
    hide Next, Enabled;
    assert ([Visit] + more)[1..] == more;
  }

  /** The bound of Select, in terms of the handles. */
  lemma MaxBoundsHandles(s: State, max: int)
    requires Inv(s) && IsMaxFd(s, max)
    ensures s.sockfd < max && (forall h :: h in s.clients ==> h < max)
    ensures max - 1 == s.sockfd || max - 1 in s.clients
  {
    hide Conforms;
  }

  lemma RunNothing(s: State)
    ensures CanRun(s, []) && Run(s, []) == s
  {
  }

  /** The loop thread's own actions within a round. */
  ghost predicate LoopActions(run: seq<Action>) {
    RunStaysInRound(run) && NoDeletes(run)
  }

  /** The snapshot and Select's reply. */
  lemma RoundBegins(s0: State, max: int, n: int, ready: set<Fd>) returns (run: seq<Action>)
    requires Inv(s0) && s0.phase.Top? && !s0.stop && IsMaxFd(s0, max)
    requires ready <= s0.fds && forall f :: f in ready ==> 0 <= f < max
    ensures run == [Snapshot(max), SelectReturns(n, ready)] && CanRun(s0, run)
    ensures Run(s0, run) == s0.(phase := if n <= 0 then Top else Scanning(ready, max, 0, Ready))
    ensures Inv(Run(s0, run)) && max >= 0
  {
    var s1 := Next(s0, Snapshot(max));
    InvStep(s0, Snapshot(max));
    InvStep(s1, SelectReturns(n, ready));
    run := [Snapshot(max), SelectReturns(n, ready)];
    ChainRuns([s0, s1, Next(s1, SelectReturns(n, ready))], run);
  }

  lemma LastVisit(s: State)
    requires Inv(s) && s.phase.Scanning? && s.phase.stage.Ready? && s.phase.fd >= s.phase.max
    ensures CanRun(s, [Visit]) && Run(s, [Visit]) == s.(phase := Top) && Inv(Run(s, [Visit]))
  {
    InvStep(s, Visit);
    ChainRuns([s, Next(s, Visit)], [Visit]);
  }

  /** What the exact results say of a round made by the loop thread alone. */
  lemma RoundServes(s0: State, max: int, n: int, ready: set<Fd>, scan: seq<Action>)
    requires Inv(s0) && s0.phase.Top? && !s0.stop && IsMaxFd(s0, max) && n > 0
    requires ready <= s0.fds && forall f :: f in ready ==> 0 <= f < max
    requires var s2 := s0.(phase := Scanning(ready, max, 0, Ready));
      CanRun(s2, scan) && LoopActions(scan) && Run(s2, scan).phase.Top?
    ensures var t := Run(s0.(phase := Scanning(ready, max, 0, Ready)), scan);
      && (Agree(s0) ==> Agree(t))
      && (RoundSafe(s0, ready, t) <==> forall f :: f in ready ==> f == s0.sockfd || f in s0.clients)
  {
    var r := Round(max, [], n, ready, scan);
    var s1 := Next(s0, Snapshot(max));
    var s2 := Next(s1, SelectReturns(n, ready));
    assert AtSelect(s0, r) == s1;
    UndisturbedSpares(s2, scan);
    hide Run, CanRun, RoundSafe, Agree;
    ExactRound(s0, r);
    if Agree(s0) {
      RoundAgrees(s0, s1, n, ready, scan);
    }
  }

  lemma RoundAgrees(s0: State, s1: State, n: int, ready: set<Fd>, scan: seq<Action>)
    requires Inv(s0) && Agree(s0) && s1.phase.Selecting?
    requires Enabled(s0, Snapshot(s1.phase.max)) && s1 == Next(s0, Snapshot(s1.phase.max))
    requires Enabled(s1, SelectReturns(n, ready)) && CanRun(Next(s1, SelectReturns(n, ready)), scan) && NoDeletes(scan)
    ensures Agree(Run(Next(s1, SelectReturns(n, ready)), scan))
  {
    hide Inv, Agree, Next, Enabled;
    InvStep(s0, Snapshot(s1.phase.max));
    AgreeStep(s0, Snapshot(s1.phase.max));
    InvStep(s1, SelectReturns(n, ready));
    AgreeStep(s1, SelectReturns(n, ready));
    NoDeletesSpare(Next(s1, SelectReturns(n, ready)), scan);
    AgreeRun(Next(s1, SelectReturns(n, ready)), scan);
  }

  lemma {:induction false} NoDeletesSpare(s: State, run: seq<Action>)
    requires CanRun(s, run) && NoDeletes(run)
    ensures SparesUnarmed(s, run)
    decreases |run|
  {
    hide Next, Enabled;
    if run != [] {
      NoDeletesSpare(Next(s, run[0]), run[1..]);
    }
  }
}
