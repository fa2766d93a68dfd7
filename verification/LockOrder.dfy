/** The two mutexes of a server application: `TcpServer::m_mutex` and `ServerApp::m_mutex`, taken by the
    loop thread and by any number of other threads.  No reachable state has a circular wait. */
module LockOrder {

  datatype Lock = AppMutex | ServerMutex

  /** What a thread does that matters for waiting. */
  datatype Op =
    | Acquire(lock: Lock)
    | Use(lock: Lock)  // reads or changes what the mutex guards: the server's table, the application's set
    | Release(lock: Lock)
    | CallBack
    | Join

  /** The calls other threads make. */
  datatype Call =
    | SendMsgBroadcast   // ServerApp::sendMsg(0, ...)
    | SendMsgToClient    // ServerApp::sendMsg of a mirrored handle
    | SendMsgUnknown     // ServerApp::sendMsg of any other handle
    | ServerApi          // deleteClient, sendBcast, sendClientMessage or getClientInfo, called directly
    | Finish

  /** One ready descriptor handled by the loop thread, with ServerApp's callbacks; a callback may make
      further calls of its own, but not `finish`, which would wait for itself. */
  datatype Turn =
    | DataTurn(more: seq<Call>)
    | DisconnectTurn(more: seq<Call>)
    | ConnectTurn(more: seq<Call>)
    | FailedTurn  // a failed Accept or Recv: no callback

  function Section(lock: Lock): seq<Op> {
    [Acquire(lock), Use(lock), Release(lock)]
  }

  /** The lock operations of each call, in source order. */
  function CallOps(c: Call): seq<Op> {
    match c
    case SendMsgBroadcast => [Acquire(AppMutex)] + Section(ServerMutex) + [Release(AppMutex)]
    case SendMsgToClient => [Acquire(AppMutex), Use(AppMutex)] + Section(ServerMutex) + [Release(AppMutex)]
    case SendMsgUnknown => Section(AppMutex)
    case ServerApi => Section(ServerMutex)
    case Finish => [Join] + Section(ServerMutex)
  }

  function CallsOps(cs: seq<Call>): seq<Op> {
    if cs == [] then [] else CallOps(cs[0]) + CallsOps(cs[1..])
  }

  function TurnOps(t: Turn): seq<Op> {
    match t
    case DataTurn(more) => Section(ServerMutex) + [CallBack] + CallsOps(more)
    case DisconnectTurn(more) =>
      Section(ServerMutex) + Section(ServerMutex) + [CallBack] + Section(AppMutex) + CallsOps(more)
    case ConnectTurn(more) =>
      Section(ServerMutex) + Section(ServerMutex) + [CallBack] + Section(ServerMutex) + Section(AppMutex) + CallsOps(more)
    case FailedTurn => Section(ServerMutex)
  }

  predicate CallsFromCallback(t: Turn) {
    t.FailedTurn? || Finish !in t.more
  }

  /** `todo[i]` is what thread i still has to do of its current call; thread 0 is the loop thread. */
  datatype Sys = Sys(todo: seq<seq<Op>>, owner: map<Lock, nat>, stop: bool, exited: bool)

  datatype Move = Step(thread: nat) | Begin(thread: nat, call: Call) | BeginTurn(turn: Turn) | LoopExit

  predicate OpEnabled(s: Sys, op: Op) {
    match op
    case Acquire(l) => l !in s.owner
    case Join => s.exited
    case _ => true
  }

  predicate Can(s: Sys, m: Move) {
    match m
    case Step(i) => i < |s.todo| && s.todo[i] != [] && OpEnabled(s, s.todo[i][0])
    case Begin(i, _) => 0 < i < |s.todo| && s.todo[i] == []
    case BeginTurn(t) => |s.todo| > 0 && s.todo[0] == [] && !s.exited && CallsFromCallback(t)
    case LoopExit => |s.todo| > 0 && s.todo[0] == [] && !s.exited && s.stop
  }

  function Do(s: Sys, m: Move): Sys
    requires Can(s, m)
  {
    match m
    case Step(i) =>
      var t := s.(todo := s.todo[i := s.todo[i][1..]]);
      (match s.todo[i][0]
       case Acquire(l) => t.(owner := t.owner[l := i])
       case Release(l) => t.(owner := t.owner - {l})
       case _ => t)
    case Begin(i, c) => s.(todo := s.todo[i := CallOps(c)], stop := s.stop || c == Finish)
    case BeginTurn(t) => s.(todo := s.todo[0 := TurnOps(t)])
    case LoopExit => s.(exited := true)
  }

  predicate CanMove(s: Sys, moves: seq<Move>)
    decreases |moves|
  {
    moves == [] || (Can(s, moves[0]) && CanMove(Do(s, moves[0]), moves[1..]))
  }

  function MoveAll(s: Sys, moves: seq<Move>): Sys
    requires CanMove(s, moves)
    decreases |moves|
  {
    if moves == [] then s else MoveAll(Do(s, moves[0]), moves[1..])
  }

  function Idle(threads: nat): Sys {
    Sys(seq(threads, _ => []), map[], false, false)
  }

  /** The discipline: ServerMutex is taken last and released first, nothing is taken twice, what a mutex guards
      is used under it, no callback runs under ServerMutex, and a thread that joins holds nothing. */
  predicate Disciplined(todo: seq<Op>, held: set<Lock>) {
    if todo == [] then held == {}
    else Permitted(todo[0], held) && Disciplined(todo[1..], Then(todo[0], held))
  }

  predicate Permitted(op: Op, held: set<Lock>) {
    match op
    case Acquire(l) => l !in held && ServerMutex !in held
    case Use(l) => l in held
    case Release(l) => l in held
    case CallBack => ServerMutex !in held
    case Join => held == {}
  }

  function Then(op: Op, held: set<Lock>): set<Lock> {
    match op
    case Acquire(l) => held + {l}
    case Release(l) => held - {l}
    case _ => held
  }

  lemma {:induction false} Appended(xs: seq<Op>, ys: seq<Op>, held: set<Lock>)
    requires Disciplined(xs, held) && Disciplined(ys, {})
    ensures Disciplined(xs + ys, held)
    decreases |xs|
  {
    if xs == [] {
      assert xs + ys == ys;
    } else {
      assert (xs + ys)[1..] == xs[1..] + ys;
      Appended(xs[1..], ys, Then(xs[0], held));
    }
  }

  lemma Prepend(op: Op, rest: seq<Op>, held: set<Lock>)
    requires Permitted(op, held) && Disciplined(rest, Then(op, held))
    ensures Disciplined([op] + rest, held)
  {
    assert ([op] + rest)[1..] == rest;
  }

  lemma SectionThen(lock: Lock, rest: seq<Op>, held: set<Lock>)
    requires lock !in held && ServerMutex !in held && Disciplined(rest, held)
    ensures Disciplined(Section(lock) + rest, held)
  {
    assert held + {lock} - {lock} == held;
    Prepend(Release(lock), rest, held + {lock});
    Prepend(Use(lock), [Release(lock)] + rest, held + {lock});
    Prepend(Acquire(lock), [Use(lock)] + ([Release(lock)] + rest), held);
    assert Section(lock) + rest == [Acquire(lock)] + ([Use(lock)] + ([Release(lock)] + rest));
  }

  lemma SectionIsDisciplined(lock: Lock)
    ensures Disciplined(Section(lock), {})
  {
    SectionThen(lock, [], {});
    assert Section(lock) + [] == Section(lock);
  }

  lemma NestedIsDisciplined()
    ensures Disciplined(CallOps(SendMsgBroadcast), {}) && Disciplined(CallOps(SendMsgToClient), {})
  {
    var app, end := {AppMutex}, [Release(AppMutex)];
    assert {} + app == app && app - {AppMutex} == {} && end == end + [];
    Prepend(Release(AppMutex), [], app);
    SectionThen(ServerMutex, end, app);
    var inner := Section(ServerMutex) + end;
    Prepend(Acquire(AppMutex), inner, {});
    assert CallOps(SendMsgBroadcast) == [Acquire(AppMutex)] + inner;
    Prepend(Use(AppMutex), inner, app);
    Prepend(Acquire(AppMutex), [Use(AppMutex)] + inner, {});
    assert CallOps(SendMsgToClient) == [Acquire(AppMutex)] + ([Use(AppMutex)] + inner);
  }

  /** The discipline is what the source does: every call and every turn follows it. */
  lemma CallsAreDisciplined(c: Call)
    ensures Disciplined(CallOps(c), {})
    ensures c != Finish ==> Join !in CallOps(c)
  {
    SectionIsDisciplined(AppMutex);
    SectionIsDisciplined(ServerMutex);
    NestedIsDisciplined();
    if c == Finish {
      assert CallOps(c)[1..] == Section(ServerMutex);
    }
  }

  lemma {:induction false} CallSequences(cs: seq<Call>)
    requires Finish !in cs
    ensures Disciplined(CallsOps(cs), {}) && Join !in CallsOps(cs)
  {
    if cs != [] {
      CallsAreDisciplined(cs[0]);
      CallSequences(cs[1..]);
      Appended(CallOps(cs[0]), CallsOps(cs[1..]), {});
    }
  }

  lemma TurnsAreDisciplined(t: Turn)
    requires CallsFromCallback(t)
    ensures Disciplined(TurnOps(t), {}) && Join !in TurnOps(t)
  {
    var app, srv := Section(AppMutex), Section(ServerMutex);
    SectionIsDisciplined(AppMutex);
    SectionIsDisciplined(ServerMutex);
    if !t.FailedTurn? {
      CallSequences(t.more);
      Appended(srv, srv, {});
      Appended(srv, app, {});
      assert Disciplined([CallBack], {}) by { assert [CallBack][1..] == []; }
      Appended(srv, [CallBack], {});
      Appended(srv + srv, [CallBack], {});
      match t
      case DataTurn(more) => Appended(srv + [CallBack], CallsOps(more), {});
      case DisconnectTurn(more) =>
        Appended(srv + srv + [CallBack], app, {});
        Appended(srv + srv + [CallBack] + app, CallsOps(more), {});
      case ConnectTurn(more) =>
        Appended(srv + srv + [CallBack], srv, {});
        Appended(srv + srv + [CallBack] + srv, app, {});
        Appended(srv + srv + [CallBack] + srv + app, CallsOps(more), {});
    }
  }

  function Held(s: Sys, i: nat): set<Lock> {
    set l | l in s.owner && s.owner[l] == i
  }

  /** Every thread holds exactly the locks its remaining operations account for. */
  ghost predicate SysInv(s: Sys) {
    && |s.todo| > 0
    && (forall l :: l in s.owner ==> s.owner[l] < |s.todo|)
    && (forall i :: 0 <= i < |s.todo| ==> Disciplined(s.todo[i], Held(s, i)))
    && Join !in s.todo[0]
    && (forall i :: 0 <= i < |s.todo| && Join in s.todo[i] ==> s.stop)
  }

  lemma StepKeepsInv(s: Sys, i: nat)
    requires SysInv(s) && Can(s, Step(i))
    ensures SysInv(Do(s, Step(i)))
  {
    var t := Do(s, Step(i));
    var op := s.todo[i][0];
    assert Disciplined(s.todo[i], Held(s, i));
    forall j | 0 <= j < |s.todo| ensures Disciplined(t.todo[j], Held(t, j)) {
      if j != i {
        assert op.Release? ==> op.lock in Held(s, i);
        assert Held(t, j) == Held(s, j);
      } else {
        match op
        case Acquire(l) => assert Held(t, i) == Held(s, i) + {l};
        case Release(l) => assert Held(t, i) == Held(s, i) - {l};
        case _ => assert Held(t, i) == Held(s, i);
      }
    }
  }

  lemma MoveKeepsInv(s: Sys, m: Move)
    requires SysInv(s) && Can(s, m)
    ensures SysInv(Do(s, m))
  {
    var t := Do(s, m);
    match m
    case Step(i) => StepKeepsInv(s, i);
    case Begin(i, c) =>
      CallsAreDisciplined(c);
      forall j | 0 <= j < |s.todo| ensures Disciplined(t.todo[j], Held(t, j)) {
        assert Disciplined(s.todo[j], Held(s, j)) && Held(t, j) == Held(s, j);
      }
    case BeginTurn(turn) =>
      TurnsAreDisciplined(turn);
      forall j | 0 <= j < |s.todo| ensures Disciplined(t.todo[j], Held(t, j)) {
        assert Disciplined(s.todo[j], Held(s, j)) && Held(t, j) == Held(s, j);
      }
    case LoopExit =>
      forall j | 0 <= j < |s.todo| ensures Disciplined(t.todo[j], Held(t, j)) {
        assert Disciplined(s.todo[j], Held(s, j)) && Held(t, j) == Held(s, j);
      }
  }

  lemma {:induction false} InvOfMoves(s: Sys, moves: seq<Move>)
    requires SysInv(s) && CanMove(s, moves)
    ensures SysInv(MoveAll(s, moves))
    decreases |moves|
  {
    if moves != [] {
      MoveKeepsInv(s, moves[0]);
      InvOfMoves(Do(s, moves[0]), moves[1..]);
    }
  }

  lemma ReachableInv(threads: nat, moves: seq<Move>)
    requires threads > 0 && CanMove(Idle(threads), moves)
    ensures SysInv(MoveAll(Idle(threads), moves))
  {
    var s := Idle(threads);
    forall i | 0 <= i < |s.todo| ensures Disciplined(s.todo[i], Held(s, i)) {
      assert Held(s, i) == {};
    }
    InvOfMoves(s, moves);
  }

  /** Thread i is stopped at an operation that thread j keeps from happening. */
  predicate WaitsFor(s: Sys, i: nat, j: nat)
    requires i < |s.todo|
  {
    s.todo[i] != [] &&
    match s.todo[i][0]
    case Acquire(l) => l in s.owner && s.owner[l] == j
    case Join => !s.exited && j == 0
    case _ => false
  }

  /** How far from running a waiting thread can be. */
  function Rank(s: Sys, i: nat): nat
    requires i < |s.todo|
  {
    if s.todo[i] == [] then 0
    else
      match s.todo[i][0]
      case Acquire(ServerMutex) => 1
      case Acquire(AppMutex) => 2
      case Join => 3
      case _ => 0
  }

  lemma WaitingLowersRank(s: Sys, i: nat, j: nat)
    requires SysInv(s) && i < |s.todo| && WaitsFor(s, i, j)
    ensures j < |s.todo| && Rank(s, j) < Rank(s, i)
  {
    assert Disciplined(s.todo[j], Held(s, j));
    if s.todo[i][0].Acquire? {
      assert s.todo[i][0].lock in Held(s, j);
    } else if s.todo[0] != [] {
      assert s.todo[0][0] in s.todo[0];
    }
  }

  lemma OwnerIsBusy(s: Sys, l: Lock)
    requires SysInv(s) && l in s.owner
    ensures s.todo[s.owner[l]] != []
  {
    assert l in Held(s, s.owner[l]);
    assert Disciplined(s.todo[s.owner[l]], Held(s, s.owner[l]));
  }

  predicate WaitChain(s: Sys, path: seq<nat>) {
    && (forall k :: 0 <= k < |path| ==> path[k] < |s.todo|)
    && (forall k :: 0 <= k < |path| - 1 ==> WaitsFor(s, path[k], path[k + 1]))
  }

  lemma {:induction false} ChainLowersRank(s: Sys, path: seq<nat>)
    requires SysInv(s) && WaitChain(s, path) && |path| >= 2
    ensures Rank(s, path[|path| - 1]) < Rank(s, path[0])
    decreases |path|
  {
    WaitingLowersRank(s, path[0], path[1]);
    if |path| > 2 {
      forall k | 0 <= k < |path[1..]| - 1 ensures WaitsFor(s, path[1..][k], path[1..][k + 1]) {
        assert WaitsFor(s, path[k + 1], path[k + 1 + 1]);
      }
      ChainLowersRank(s, path[1..]);
    }
  }

  /** Deadlock freedom, as no circular wait: in no state reachable by any number of threads is there a
      chain of waiting threads that closes on itself. */
  lemma NoCircularWait(threads: nat, moves: seq<Move>, path: seq<nat>)
    requires threads > 0 && CanMove(Idle(threads), moves)
    requires WaitChain(MoveAll(Idle(threads), moves), path) && |path| >= 2
    ensures path[0] != path[|path| - 1]
  {
    ReachableInv(threads, moves);
    ChainLowersRank(MoveAll(Idle(threads), moves), path);
  }

  /** Deadlock freedom, as progress: while any thread is in the middle of a call, some thread in the middle of
      one can take its next step; only a thread that waits to join may need the idle loop thread to exit. */
  lemma SomeoneCanMove(threads: nat, moves: seq<Move>, i: nat) returns (m: Move)
    requires threads > 0 && CanMove(Idle(threads), moves)
    requires var s := MoveAll(Idle(threads), moves); i < |s.todo| && s.todo[i] != []
    ensures var s := MoveAll(Idle(threads), moves);
      Can(s, m) && (m.Step? || (m.LoopExit? && exists j :: 0 <= j < |s.todo| && s.todo[j] != [] && s.todo[j][0] == Join))
  {
    ReachableInv(threads, moves);
    var s := MoveAll(Idle(threads), moves);
    m := Runnable(s, i);
  }

  lemma {:induction false} Runnable(s: Sys, i: nat) returns (m: Move)
    requires SysInv(s) && i < |s.todo| && s.todo[i] != []
    ensures Can(s, m) && (m.Step? || (m.LoopExit? && exists j :: 0 <= j < |s.todo| && s.todo[j] != [] && s.todo[j][0] == Join))
    decreases Rank(s, i)
  {
    if OpEnabled(s, s.todo[i][0]) {
      m := Step(i);
    } else if s.todo[i][0].Acquire? {
      var j := s.owner[s.todo[i][0].lock];
      WaitingLowersRank(s, i, j);
      OwnerIsBusy(s, s.todo[i][0].lock);
      m := Runnable(s, j);
    } else {
      WaitingLowersRank(s, i, 0);
      assert Join in s.todo[i];
      if s.todo[0] != [] {
        m := Runnable(s, 0);
      } else {
        m := LoopExit;
      }
    }
  }

  /** No callback runs and no mutex is taken by a thread that holds the server's mutex: the two mutexes are
      only ever nested application first, then server. */
  lemma ServerMutexIsInnermost(threads: nat, moves: seq<Move>, i: nat)
    requires threads > 0 && CanMove(Idle(threads), moves)
    requires var s := MoveAll(Idle(threads), moves);
      i < |s.todo| && s.todo[i] != [] && (s.todo[i][0].CallBack? || s.todo[i][0].Acquire?)
    ensures var s := MoveAll(Idle(threads), moves); !(ServerMutex in s.owner && s.owner[ServerMutex] == i)
  {
    ReachableInv(threads, moves);
    var s := MoveAll(Idle(threads), moves);
    assert Disciplined(s.todo[i], Held(s, i));
    assert ServerMutex !in Held(s, i);
  }

  /** What a mutex guards is used only by the thread that holds it, so by one thread at a time. */
  lemma UsesAreGuarded(threads: nat, moves: seq<Move>, i: nat, l: Lock)
    requires threads > 0 && CanMove(Idle(threads), moves)
    requires var s := MoveAll(Idle(threads), moves); i < |s.todo| && s.todo[i] != [] && s.todo[i][0] == Use(l)
    ensures var s := MoveAll(Idle(threads), moves); l in s.owner && s.owner[l] == i
    ensures var s := MoveAll(Idle(threads), moves);
      forall j :: 0 <= j < |s.todo| && j != i ==> s.todo[j] == [] || s.todo[j][0] != Use(l)
  {
    ReachableInv(threads, moves);
    var s := MoveAll(Idle(threads), moves);
    assert Disciplined(s.todo[i], Held(s, i));
    assert l in Held(s, i);
    forall j | 0 <= j < |s.todo| && j != i ensures s.todo[j] == [] || s.todo[j][0] != Use(l) {
      assert Disciplined(s.todo[j], Held(s, j));
      assert l !in Held(s, j);
    }
  }
}
