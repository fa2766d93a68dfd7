/** examples/serverApp.cpp: an application that mirrors the server's table of clients in a set. */
module ServerApp {
  import opened Sockets
  import opened ServerMachine
  import opened ServerHistory
  import opened ServerInvariant
  import opened ServerSteps
  import opened ServerFinish
  import opened ServerAgreement
  import TcpServer

  /** The server together with the application's set of clients. */
  datatype App = App(server: State, mirror: set<Fd>)

  /** The application never calls `deleteClient`, and nobody else has its server. */
  predicate AppEnabled(x: App, a: Action) {
    Enabled(x.server, a) && !a.DeleteClient?
  }

  /** What `onClientConnect` and `onClientDisconnect` make of the application's set. */
  function Connected(mirror: set<Fd>, clients: map<Fd, Client>, h: Fd): set<Fd> {
    if h in clients then mirror + {h} else mirror
  }

  function Disconnected(mirror: set<Fd>, h: Fd): set<Fd> {
    mirror - {h}
  }

  /** The callbacks run inside the loop's publishing actions: `onClientConnect` asks for the client's
      data and inserts the handle if the server knows it, `onClientDisconnect` erases it. */
  function AppNext(x: App, a: Action): App
    requires AppEnabled(x, a)
  {
    var t := Next(x.server, a);
    match a
    case PublishConnect =>
      App(t, Connected(x.mirror, x.server.clients, x.server.phase.stage.newfd))
    case PublishDisconnect => App(t, Disconnected(x.mirror, x.server.phase.fd))
    case _ => App(t, x.mirror)
  }

  predicate AppCanRun(x: App, run: seq<Action>)
    decreases |run|
  {
    run == [] || (AppEnabled(x, run[0]) && AppCanRun(AppNext(x, run[0]), run[1..]))
  }

  function AppRun(x: App, run: seq<Action>): App
    requires AppCanRun(x, run)
    decreases |run|
  {
    if run == [] then x else AppRun(AppNext(x, run[0]), run[1..])
  }

  /** Stored in the server's table, but not yet announced to the application. */
  function Entering(s: State): set<Fd> {
    if s.phase.Scanning? && (s.phase.stage.Stored? || s.phase.stage.Armed?) then {s.phase.stage.newfd} else {}
  }

  /** Deleted from the server's table, but the application has not been told. */
  function Departing(s: State): set<Fd> {
    if s.phase.Scanning? && s.phase.stage.Dropped? then {s.phase.fd} else {}
  }

  ghost predicate Mirrors(x: App) {
    && Inv(x.server)
    && (x.server.phase.Fresh? ==> x.mirror == {})
    && (LoopRuns(x.server) ==>
          && Entering(x.server) <= x.server.clients.Keys
          && (x.server.phase.Scanning? && (x.server.phase.stage.Found? || x.server.phase.stage.Ended?) ==>
                x.server.phase.fd in x.server.clients)
          && x.mirror == (x.server.clients.Keys - Entering(x.server)) + Departing(x.server))
  }

  lemma MirrorRemove(x: App)
    requires Mirrors(x) && AppEnabled(x, LoopDelete)
    ensures Mirrors(AppNext(x, LoopDelete))
  {
    var s := x.server;
    InvStep(s, LoopDelete);
    RemoveAgrees(s, s.phase.fd);
    hide Inv;
    assert x.mirror == s.clients.Keys;
    assert s.clients.Keys == (s.clients.Keys - {s.phase.fd}) + {s.phase.fd};
  }

  lemma MirrorStore(x: App)
    requires Mirrors(x) && AppEnabled(x, Store)
    ensures Mirrors(AppNext(x, Store))
  {
    InvStep(x.server, Store);
    var f, keys := x.server.phase.stage.newfd, x.server.clients.Keys;
    assert f !in keys;
    hide Inv;
    assert Next(x.server, Store).clients.Keys == keys + {f};
    assert (keys + {f}) - {f} == keys;
  }

  lemma MirrorConnect(x: App)
    requires Mirrors(x) && AppEnabled(x, PublishConnect)
    ensures Mirrors(AppNext(x, PublishConnect))
  {
    InvStep(x.server, PublishConnect);
    hide Inv;
    var f, keys := x.server.phase.stage.newfd, x.server.clients.Keys;
    assert (keys - {f}) + {f} == keys;
  }

  lemma MirrorRecv(x: App, a: Action)
    requires Mirrors(x) && AppEnabled(x, a) && a.Recv?
    ensures Mirrors(AppNext(x, a))
  {
    InvStep(x.server, a);
    RecvShape(x.server, a);
    hide Inv;
  }

  lemma MirrorPublish(x: App, a: Action)
    requires Mirrors(x) && AppEnabled(x, a) && (a.PublishData? || a.PublishDisconnect?)
    ensures Mirrors(AppNext(x, a))
  {
    hide Conforms, Attributed, NoBadClose;
    InvStep(x.server, a);
  }

  lemma MirrorStart(x: App, a: Action)
    requires Mirrors(x) && AppEnabled(x, a) && a.Start?
    ensures Mirrors(AppNext(x, a))
  {
    InvStep(x.server, a);
    hide Conforms, Attributed, NoBadClose, Track;
  }

  /** Accepting and arming move no one in or out of the two transitional sets. */
  lemma AcceptShifts(s: State, a: Action)
    requires Enabled(s, a) && (a.Accept? || a.Arm?)
    ensures var t := Next(s, a);
      && t.clients == s.clients && t.phase.Scanning? && !t.phase.stage.Found? && !t.phase.stage.Ended?
      && Entering(t) == Entering(s) && Departing(t) == Departing(s) && LoopRuns(s)
  {
  }

  lemma MirrorAccept(x: App, a: Action)
    requires Mirrors(x) && AppEnabled(x, a) && (a.Accept? || a.Arm?)
    ensures Mirrors(AppNext(x, a))
  {
    InvStep(x.server, a);
    AcceptShifts(x.server, a);
    hide Inv, Next, Enabled, Entering, Departing;
  }

  lemma MirrorLoop(x: App, a: Action)
    requires Mirrors(x) && AppEnabled(x, a)
    requires a.Snapshot? || a.SelectReturns? || a.Visit? || a.Exit? || a.FinishBegin?
    ensures Mirrors(AppNext(x, a))
  {
    InvStep(x.server, a);
    hide Inv;
  }

  lemma MirrorFinish(x: App, order: seq<Fd>)
    requires Mirrors(x) && AppEnabled(x, FinishEnd(order))
    ensures Mirrors(AppNext(x, FinishEnd(order)))
  {
    InvStep(x.server, FinishEnd(order));
    FinishShape(x.server, order);
    FinishLives(x.server, order, 0);
    hide Inv, CloseAll;
  }

  lemma MirrorStep(x: App, a: Action)
    requires Mirrors(x) && AppEnabled(x, a)
    ensures Mirrors(AppNext(x, a))
  {
    hide Mirrors, AppNext;
    if a.LoopDelete? {
      MirrorRemove(x);
    } else if a.FinishEnd? {
      MirrorFinish(x, a.order);
    } else if a.Store? {
      MirrorStore(x);
    } else if a.PublishConnect? {
      MirrorConnect(x);
    } else if a.Recv? {
      MirrorRecv(x, a);
    } else if a.PublishData? || a.PublishDisconnect? {
      MirrorPublish(x, a);
    } else if a.Start? {
      MirrorStart(x, a);
    } else if a.Accept? || a.Arm? {
      MirrorAccept(x, a);
    } else {
      MirrorLoop(x, a);
    }
  }

  lemma {:induction false} MirrorRun(x: App, run: seq<Action>)
    requires Mirrors(x) && AppCanRun(x, run)
    ensures Mirrors(AppRun(x, run))
    decreases |run|
  {
    hide Mirrors, AppNext, AppEnabled;
    if run != [] {
      MirrorStep(x, run[0]);
      MirrorRun(AppNext(x, run[0]), run[1..]);
    }
  }

  /** Mirror: at every step boundary of a running server the application's set is exactly the key set of
      the server's table. */
  lemma MirrorIsExact(run: seq<Action>)
    requires AppCanRun(App(INIT, {}), run)
    ensures var x := AppRun(App(INIT, {}), run);
      LoopRuns(x.server) && AtBoundary(x.server) ==> x.mirror == x.server.clients.Keys
  {
    InvInit();
    MirrorRun(App(INIT, {}), run);
  }

  /** Refusal, exactly, at lock granularity: in every state of a running server, a handle of the mirror is not in
      the server's table if and only if its client has been deleted and the disconnect is about to be
      published. */
  lemma RefusalIsExact(run: seq<Action>, idx: Fd)
    requires AppCanRun(App(INIT, {}), run) && LoopRuns(AppRun(App(INIT, {}), run).server)
    requires idx in AppRun(App(INIT, {}), run).mirror
    ensures var s := AppRun(App(INIT, {}), run).server; idx !in s.clients <==> idx in Departing(s)
  {
    InvInit();
    MirrorRun(App(INIT, {}), run);
    hide Conforms, AppRun, AppCanRun;
  }

  datatype SendOutcome = Broadcast(success: bool) | Sent(success: bool) | ServerRefused | NoSuchClient

  class Application {
    const server: TcpServer.Server
    var clients: set<Fd>

    constructor (server: TcpServer.Server)
      ensures this.server == server && clients == {}
    {
      this.server := server;
      clients := {};
    }

    method OnClientConnect(client: Fd)
      modifies `clients
      ensures clients == Connected(old(clients), server.clients, client)
    {
      var found, _, _, _ := server.GetClientInfo(client);
      if found {
        clients := clients + {client};
      }
    }

    method OnClientDisconnect(client: Fd)
      modifies `clients
      ensures clients == Disconnected(old(clients), client)
    {
      clients := clients - {client};
    }

    /** Index 0 is a broadcast.  When the mirror is exact, the server never refuses the handle and the
        message reaches the client the index names, or all of them. */
    method SendMsg(idx: int, size: nat, send: Fd -> int, order: seq<Fd>) returns (r: SendOutcome, attempted: seq<Fd>)
      requires Inv(server.State()) && Enumerates(order, server.clients.Keys)
      ensures r.Broadcast? <==> idx == 0
      ensures r.Broadcast? ==>
                && (r.success <==> forall h :: h in server.clients ==> send(h) >= size)
                && attempted <= order && (r.success ==> attempted == order)
                && (!r.success ==> attempted != [] && send(attempted[|attempted| - 1]) < size)
                && (forall i :: 0 <= i < |attempted| - 1 ==> send(attempted[i]) >= size)
      ensures r.Sent? ==> idx in server.clients && attempted == [idx] && (r.success <==> send(idx) >= size)
      ensures clients == server.clients.Keys ==>
                !r.ServerRefused? && (r.NoSuchClient? <==> idx != 0 && idx !in server.clients)
      ensures r.NoSuchClient? || r.ServerRefused? ==> attempted == []
    {
      if idx == 0 {
        var ok, sent := server.SendBcast(order, size, send);
        return Broadcast(ok), sent;
      } else if idx in clients {
        var found, ok, sent := server.SendClientMessage(idx, size, send);
        return if found then Sent(ok) else ServerRefused, sent;
      } else {
        return NoSuchClient, [];
      }
    }
  }
}
