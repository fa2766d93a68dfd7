/** include/sockets-cpp/TcpClient.h: the client's own methods, proved against the machine's actions. */
module TcpClient {
  import opened Sockets
  import opened ClientMachine

  /** The raw results of the calls that `connectTo` makes after creating the socket. */
  datatype Setup = Setup(rcvBuf: int, sndBuf: int, lookup: int, connect: int)

  /** What the socket layer and the other threads do during one turn of the receive loop: `stopped` says
      that `finish` was called before its test of `m_stop`, `stoppedInSelect` during its Select. */
  datatype Reply = Reply(stopped: bool, n: int, stoppedInSelect: bool, isSet: bool, recv: Result)

  /** The actions of one turn, including the interleaved calls of `finish`. */
  function TurnActions(stop: bool, r: Reply): seq<Action> {
    if r.stopped then [FinishBegin] + [Test]
    else if stop then [Test]
    else if r.stoppedInSelect then [Test] + ([FinishBegin] + ([SelectReturns(r.n, r.isSet)] + ReceiveActions(r)))
    else [Test] + ([SelectReturns(r.n, r.isSet)] + ReceiveActions(r))
  }

  function ReceiveActions(r: Reply): seq<Action> {
    if r.n <= 0 || !r.isSet then []
    else [Recv(r.recv.n, r.recv.data)] + [if r.recv.n < 1 then PublishDisconnect else PublishData]
  }

  class Client {
    var open: set<Fd>
    var sockfd: Fd
    var stop: bool
    ghost var phase: Phase
    ghost var log: seq<Event>

    ghost function State(): State
      reads this
    {
      ClientMachine.State(open, sockfd, stop, phase, log)
    }

    constructor ()
      ensures State() == INIT
    {
      open, sockfd, stop, phase, log := {}, INVALID_SOCKET, false, Fresh, [];
    }

    /** `socket` is what Socket returns: a descriptor that is not open, or INVALID_SOCKET. */
    method ConnectTo(initialize: int, socket: Fd, setup: Setup) returns (success: bool)
      requires phase == Fresh && sockfd == INVALID_SOCKET
      requires socket == INVALID_SOCKET || (socket >= 0 && socket !in open)
      modifies this
      ensures success <==>
                && initialize == 0 && socket != INVALID_SOCKET
                && setup.rcvBuf >= 0 && setup.sndBuf >= 0 && setup.lookup == 0 && setup.connect != -1
      ensures if initialize == 0 && socket != INVALID_SOCKET
              then sockfd == socket && open == old(open) + {socket} && log == old(log) + [SocketCall(socket)]
              else sockfd == INVALID_SOCKET && open == old(open) && log == old(log)
      ensures phase == if success then AtTest else ConnectFailed
      ensures var outcome := if initialize != 0 || socket == INVALID_SOCKET then NoSocket
                             else if success then Connected(socket) else SetupFailed(socket);
        && Enabled(old(State()), ClientMachine.ConnectTo(outcome))
        && State() == Next(old(State()), ClientMachine.ConnectTo(outcome))
    {
      sockfd := INVALID_SOCKET;
      success := false;
      phase := ConnectFailed;
      if initialize != 0 {
        return;
      }
      sockfd := socket;
      if sockfd == INVALID_SOCKET {
        return;
      }
      open, log := open + {sockfd}, log + [SocketCall(sockfd)];
      if setup.rcvBuf < 0 {
        return;
      }
      if setup.sndBuf < 0 {
        return;
      }
      if setup.lookup != 0 {
        return;
      }
      if setup.connect == -1 {
        return;
      }
      phase := AtTest;
      success := true;
    }

    /** What the receive thread does while one waits. */
    method Await(after: State)
      modifies this
      ensures State() == after
    {
      open, sockfd, stop, phase, log := after.open, after.sockfd, after.stop, after.phase, after.log;
    }

    /** `finish`, called at any moment: while it waits to join, the receive thread goes on with `rest`, which
        leaves the client in state `joined` with the thread gone. */
    method Finish(joined: State, ghost rest: seq<Action>) returns (ghost run: seq<Action>)
      requires var s := State().(stop := true);
        CanRun(s, rest) && joined == Run(s, rest) && Enabled(joined, FinishEnd)
      modifies this
      ensures run == [FinishBegin] + (rest + [FinishEnd])
      ensures CanRun(old(State()), run) && State() == Run(old(State()), run)
      ensures IsFinished(State())
    {
      run := [FinishBegin] + (rest + [FinishEnd]);
      RunLast(joined, FinishEnd);
      RunAppends(State().(stop := true), rest, [FinishEnd]);
      RunCons(State(), FinishBegin, rest + [FinishEnd]);
      hide Run, CanRun;
      stop := true;
      Await(joined);
      if sockfd != INVALID_SOCKET {
        log := log + [CloseCall(sockfd, sockfd in open)];
        open := open - {sockfd};
      }
      sockfd := INVALID_SOCKET;
    }

    /** One turn of the receive loop, which is begun unless the flag is set at the test; `left` says that the
        thread has left the loop. */
    method ReceiveTurn(reply: Reply) returns (begun: bool, left: bool)
      requires phase == AtTest
      modifies this
      ensures begun == (!old(stop) && !reply.stopped) && left == (phase == Exited)
      ensures State() == AfterTurn(old(State()), reply)
    {
      if reply.stopped {
        stop := true;
      }
      if stop {
        phase := Exited;
        return false, true;
      }
      begun, left := true, false;
      log := log + [SelectCall(sockfd, sockfd in open)];
      if reply.stoppedInSelect {
        stop := true;
      }
      if reply.n <= 0 {
        if stop {
          phase, left := Exited, true;
        }
      } else if reply.isSet {
        log := log + [RecvCall(sockfd, sockfd in open, reply.recv.n, reply.recv.data)];
        if reply.recv.n < 1 {
          stop := true;
          log := log + [Callback(Disconnect)];
          phase, left := Exited, true;
        } else {
          log := log + [Callback(Data(reply.recv.data))];
        }
      }
    }

    /** `ReceiveTask`, for any sequence of replies of the socket layer.  It begins `turns` turns, with one Select
        each; Recv is called in exactly those whose Select reports the descriptor, and the callbacks are what
        its results call for.  A turn is begun unless the flag is set at the test; the thread leaves the loop
        there, at an empty Select with the flag set, and after a Recv below 1, and nowhere else. */
    method ReceiveTask(replies: seq<Reply>) returns (turns: nat, ghost run: seq<Action>)
      requires phase == AtTest && Inv(State())
      requires forall i :: 0 <= i < |replies| ==> RecvResult(replies[i].recv.n, replies[i].recv.data)
      modifies this
      ensures turns <= |replies| && (phase == Exited || phase == AtTest)
      ensures Selects(log) == Selects(old(log)) + turns
      ensures Results(log) == Results(old(log)) + Served(replies[..turns])
      ensures Notices(log) == Owed(Results(log))
      ensures turns > 0 ==> !old(stop)
      ensures forall j :: 0 <= j < turns ==> !replies[j].stopped
      ensures forall j :: 0 <= j < turns - 1 ==>
                !replies[j].stoppedInSelect && !(replies[j].n > 0 && replies[j].isSet && replies[j].recv.n < 1)
      ensures phase == Exited <==>
                || (turns < |replies| && (replies[turns].stopped || if turns == 0 then old(stop) else replies[turns - 1].stoppedInSelect))
                || (turns > 0 && replies[turns - 1].n <= 0 && replies[turns - 1].stoppedInSelect)
                || (turns > 0 && replies[turns - 1].n > 0 && replies[turns - 1].isSet && replies[turns - 1].recv.n < 1)
      ensures phase == AtTest ==> turns == |replies|
      ensures State() == AfterTurns(old(State()), replies)
      ensures CanRun(old(State()), run) && State() == Run(old(State()), run)
    {
      hide Inv, Run, CanRun, AfterTurns, AfterTurn, Recorded, Served, Selects, Results, Notices, Owed, TurnActions;
      run, turns := [], 0;
      ghost var s0 := State();
      AfterNothing(s0, replies);
      while turns < |replies|
        invariant 0 <= turns <= |replies| && phase == AtTest
        invariant CanRun(s0, run) && State() == Run(s0, run)
        invariant AfterTurns(s0, replies) == AfterTurns(State(), replies[turns..])
        invariant Recorded(s0, State(), replies[..turns])
        invariant stop == if turns == 0 then s0.stop else replies[turns - 1].stoppedInSelect
        invariant turns > 0 ==> !s0.stop
        invariant forall j :: 0 <= j < turns ==> !replies[j].stopped && GoesOn(replies[j])
        invariant forall j :: 0 <= j < turns - 1 ==> !replies[j].stoppedInSelect
        decreases |replies| - turns
      {
        ghost var s := State();
        ghost var acts := TurnActions(stop, replies[turns]);
        TurnRuns(s, replies[turns]);
        TurnOutcome(s, replies[turns]);
        AfterTurnsUnfold(s, replies[turns..]);
        RunAppends(s0, run, acts);
        run := run + acts;
        TurnRecords(s0, s, replies, turns);
        var begun, left := ReceiveTurn(replies[turns]);
        if begun {
          turns := turns + 1;
        }
        if left {
          break;
        }
      }
      AfterTurnsDone(State(), replies[turns..]);
      RecordedMeans(s0, State(), replies[..turns]);
      InvRun(s0, run);
      NoticesAreOwed(State());
    }
  }

  lemma NoticesAreOwed(s: State)
    requires Inv(s) && (s.phase.Exited? || s.phase.AtTest?)
    ensures Notices(s.log) == Owed(Results(s.log))
  {
  }

  /** The state after one turn of the loop. */
  function AfterTurn(s: State, r: Reply): State {
    if s.stop || r.stopped then s.(stop := true, phase := Exited)
    else
      var live := s.sockfd in s.open;
      var t := Log(s.(stop := r.stoppedInSelect), SelectCall(s.sockfd, live));
      if r.n <= 0 then t.(phase := if t.stop then Exited else AtTest)
      else if !r.isSet then t
      else AfterReceive(t, r)
  }

  function AfterReceive(s: State, r: Reply): State {
    var t := Log(s, RecvCall(s.sockfd, s.sockfd in s.open, r.recv.n, r.recv.data));
    if r.recv.n < 1 then Log(t.(stop := true, phase := Exited), Callback(Disconnect))
    else Log(t.(phase := AtTest), Callback(Data(r.recv.data)))
  }

  /** The state after the loop has used the replies or left. */
  function AfterTurns(s: State, replies: seq<Reply>): State
    decreases |replies|
  {
    if replies == [] || s.phase.Exited? then s else AfterTurns(AfterTurn(s, replies[0]), replies[1..])
  }

  lemma AfterNothing(s: State, replies: seq<Reply>)
    ensures CanRun(s, []) && Run(s, []) == s && Recorded(s, s, replies[..0]) && replies[0..] == replies
  {
  }

  lemma AfterTurnsUnfold(s: State, rs: seq<Reply>)
    requires s.phase == AtTest && rs != []
    ensures AfterTurns(s, rs) == AfterTurns(AfterTurn(s, rs[0]), rs[1..])
    ensures AfterTurn(s, rs[0]).phase.Exited? ==> AfterTurns(s, rs) == AfterTurn(s, rs[0])
  {
  }

  lemma AfterTurnsDone(s: State, rs: seq<Reply>)
    ensures rs == [] ==> AfterTurns(s, rs) == s
  {
  }

  /** How often Select was called. */
  function Selects(log: seq<Event>): nat {
    if log == [] then 0 else Selects(log[..|log| - 1]) + if log[|log| - 1].SelectCall? then 1 else 0
  }

  lemma SelectsSnoc(log: seq<Event>, e: Event)
    ensures Selects(log + [e]) == Selects(log) + if e.SelectCall? then 1 else 0
  {
    assert (log + [e])[..|log|] == log;
  }

  /** What Recv returned in the turns whose Select reported the descriptor. */
  function Served(rs: seq<Reply>): seq<Result> {
    if rs == [] then []
    else
      var r, before := rs[|rs| - 1], Served(rs[..|rs| - 1]);
      if r.n > 0 && r.isSet then before + [r.recv] else before
  }

  /** From `s0` to `s` the turns with replies `rs` were made. */
  ghost predicate Recorded(s0: State, s: State, rs: seq<Reply>) {
    && Selects(s.log) == Selects(s0.log) + |rs|
    && Results(s.log) == Results(s0.log) + Served(rs)
  }

  /** The turn comes back to the test. */
  predicate GoesOn(r: Reply) {
    !(r.n <= 0 && r.stoppedInSelect) && !(r.n > 0 && r.isSet && r.recv.n < 1)
  }

  /** How a turn ends. */
  lemma TurnOutcome(s: State, r: Reply)
    requires s.phase == AtTest
    ensures var t := AfterTurn(s, r);
      if s.stop || r.stopped then t.phase == Exited
      else if GoesOn(r) then t.phase == AtTest && t.stop == r.stoppedInSelect
      else t.phase == Exited
  {
  }

  lemma ServedSnoc(rs: seq<Reply>, r: Reply)
    ensures Served(rs + [r]) == if r.n > 0 && r.isSet then Served(rs) + [r.recv] else Served(rs)
  {
    assert (rs + [r])[..|rs|] == rs;
  }

  /** What a turn adds to the log. */
  function TurnEvents(fd: Fd, live: bool, r: Reply): seq<Event> {
    [SelectCall(fd, live)] +
    if r.n > 0 && r.isSet
    then [RecvCall(fd, live, r.recv.n, r.recv.data), Callback(if r.recv.n < 1 then Disconnect else Data(r.recv.data))]
    else []
  }

  lemma TurnLog(s: State, r: Reply)
    ensures AfterTurn(s, r).log
         == if s.stop || r.stopped then s.log else s.log + TurnEvents(s.sockfd, s.sockfd in s.open, r)
  {
  }

  lemma TurnCounts(log: seq<Event>, fd: Fd, live: bool, r: Reply)
    ensures Selects(log + TurnEvents(fd, live, r)) == Selects(log) + 1
    ensures Results(log + TurnEvents(fd, live, r)) == Results(log) + if r.n > 0 && r.isSet then [r.recv] else []
  {
    hide Selects, Results;
    var select := SelectCall(fd, live);
    LogSnoc(log, select);
    SelectsSnoc(log, select);
    if r.n > 0 && r.isSet {
      var e, c := RecvCall(fd, live, r.recv.n, r.recv.data), if r.recv.n < 1 then Disconnect else Data(r.recv.data);
      ReceiveRecords(log + [select], e, c);
      assert log + TurnEvents(fd, live, r) == log + [select] + [e] + [Callback(c)];
    } else {
      assert log + TurnEvents(fd, live, r) == log + [select];
    }
  }

  lemma RecordsOne(s0: State, s: State, t: State, rs: seq<Reply>, r: Reply)
    requires Recorded(s0, s, rs)
    requires Selects(t.log) == Selects(s.log) + 1
    requires Results(t.log) == Results(s.log) + if r.n > 0 && r.isSet then [r.recv] else []
    ensures Recorded(s0, t, rs + [r])
  {
    ServedSnoc(rs, r);
    hide Served, Selects, Results;
  }

  lemma TurnRecords(s0: State, s: State, replies: seq<Reply>, k: nat)
    requires k < |replies| && Recorded(s0, s, replies[..k])
    ensures var t := AfterTurn(s, replies[k]);
      Recorded(s0, t, if s.stop || replies[k].stopped then replies[..k] else replies[..k + 1])
  {
    var r := replies[k];
    TurnLog(s, r);
    var t := AfterTurn(s, r);
    hide Served, Selects, Results, AfterTurn, TurnEvents;
    if s.stop || r.stopped {
      SameRecords(s0, s, t, replies[..k]);
    } else {
      TurnCounts(s.log, s.sockfd, s.sockfd in s.open, r);
      hide Recorded;
      assert replies[..k + 1] == replies[..k] + [r];
      RecordsOne(s0, s, t, replies[..k], r);
    }
  }

  lemma SameRecords(s0: State, s: State, t: State, rs: seq<Reply>)
    requires Recorded(s0, s, rs) && t.log == s.log
    ensures Recorded(s0, t, rs)
  {
  }

  lemma ReceiveRecords(log: seq<Event>, e: Event, c: Notice)
    requires e.RecvCall?
    ensures var log' := log + [e] + [Callback(c)];
      Selects(log') == Selects(log) && Results(log') == Results(log) + [Result(e.n, e.data)]
  {
    LogSnoc(log, e);
    SelectsSnoc(log, e);
    LogSnoc(log + [e], Callback(c));
    SelectsSnoc(log + [e], Callback(c));
  }

  lemma RecordedMeans(s0: State, s: State, rs: seq<Reply>)
    requires Recorded(s0, s, rs)
    ensures Selects(s.log) == Selects(s0.log) + |rs| && Results(s.log) == Results(s0.log) + Served(rs)
  {
  }

  lemma RunCons(s: State, a: Action, rest: seq<Action>)
    requires Enabled(s, a) && CanRun(Next(s, a), rest)
    ensures CanRun(s, [a] + rest) && Run(s, [a] + rest) == Run(Next(s, a), rest)
  {
    hide Next, Enabled;
    assert ([a] + rest)[1..] == rest;
  }

  lemma RunLast(s: State, a: Action)
    requires Enabled(s, a)
    ensures CanRun(s, [a]) && Run(s, [a]) == Next(s, a)
  {
    hide Next, Enabled;
    assert [a][1..] == [];
  }

  lemma ReceiveRuns(s: State, r: Reply)
    requires RecvResult(r.recv.n, r.recv.data) && (r.n > 0 && r.isSet ==> s.phase.InRecv?)
    ensures CanRun(s, ReceiveActions(r))
    ensures Run(s, ReceiveActions(r)) == if r.n > 0 && r.isSet then AfterReceive(s, r) else s
  {
    if r.n > 0 && r.isSet {
      var receive, publish := Recv(r.recv.n, r.recv.data), if r.recv.n < 1 then PublishDisconnect else PublishData;
      RunLast(Next(s, receive), publish);
      RunCons(s, receive, [publish]);
    }
  }

  lemma TurnRuns(s: State, r: Reply)
    requires s.phase == AtTest && RecvResult(r.recv.n, r.recv.data)
    ensures CanRun(s, TurnActions(s.stop, r)) && Run(s, TurnActions(s.stop, r)) == AfterTurn(s, r)
  {
    hide Run, CanRun;
    if r.stopped {
      RunLast(Next(s, FinishBegin), Test);
      RunCons(s, FinishBegin, [Test]);
    } else if s.stop {
      RunLast(s, Test);
    } else {
      var select := SelectReturns(r.n, r.isSet);
      var s1 := Next(s, Test);
      var s2 := if r.stoppedInSelect then Next(s1, FinishBegin) else s1;
      ReceiveRuns(Next(s2, select), r);
      RunCons(s2, select, ReceiveActions(r));
      if r.stoppedInSelect {
        RunCons(s1, FinishBegin, [select] + ReceiveActions(r));
        RunCons(s, Test, [FinishBegin] + ([select] + ReceiveActions(r)));
      } else {
        RunCons(s, Test, [select] + ReceiveActions(r));
      }
    }
  }

  lemma {:induction false} RunAppends(s: State, xs: seq<Action>, ys: seq<Action>)
    requires CanRun(s, xs) && CanRun(Run(s, xs), ys)
    ensures CanRun(s, xs + ys) && Run(s, xs + ys) == Run(Run(s, xs), ys)
    decreases |xs|
  {
    hide Next, Enabled;
    if xs == [] {
      assert xs + ys == ys;
    } else {
      RunAppends(Next(s, xs[0]), xs[1..], ys);
      assert (xs + ys)[1..] == xs[1..] + ys;
    }
  }
}
