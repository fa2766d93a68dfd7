/** Concrete runs in which the server falls short: each shows that the condition of an exact result in
    `ServerTheorems`, `ServerAgreement`, `ServerHandles` or `ServerRounds` can fail. */
module ServerWitnesses {
  import opened ServerMachine
  import opened ServerInvariant
  import opened ServerTheorems
  import opened ServerAgreement
  import opened ServerHandles
  import opened ServerRounds

  const FIRST_EVENTS := [SocketCall(0, 0), AcceptCall(0), Accepted(1, 1, "", 0)]

  // Descriptor 1 is accepted and not yet in the table.
  const ACCEPTED := State(map[0 := 0, 1 := 1], 0, {0}, map[], false,
                          Scanning({0}, 1, 0, Accepting(1, 1, "", 0)), 2, FIRST_EVENTS)

  lemma AcceptedReached() returns (run: seq<Action>)
    ensures CanRun(INIT, run) && Run(INIT, run) == ACCEPTED
  {
    run := [Start(Running(0)), Snapshot(1), SelectReturns(1, {0}), Visit, Accept(1, "", 0)];
    var s1 := Next(INIT, run[0]);
    var s2 := Next(s1, run[1]);
    var s3 := Next(s2, run[2]);
    var s4 := Next(s3, run[3]);
    assert Next(s4, run[4]) == ACCEPTED;
    hide Next, Enabled;
    ChainRuns([INIT, s1, s2, s3, s4, ACCEPTED], run);
  }

  const DELETED_EVENTS := FIRST_EVENTS + [CloseCall(1, 1), Deleted(1, 1)]

  // It was deleted between its insertion in the table and its FD_SET.
  const UNARMED_DELETED := State(map[0 := 0], 0, {0}, map[], false,
                                 Scanning({0}, 1, 0, Stored(1, 1)), 2, DELETED_EVENTS)

  // Then its bit was set and its connect published.
  const RACED := State(map[0 := 0], 0, {0, 1}, map[], false,
                       Scanning({0}, 1, 1, Ready), 2, DELETED_EVENTS + [Connect(1, 1)])

  lemma RaceDelete() returns (run: seq<Action>)
    ensures CanRun(ACCEPTED, run) && Run(ACCEPTED, run) == UNARMED_DELETED
  {
    run := [Store, DeleteClient(1)];
    var s1 := Next(ACCEPTED, Store);
    var s2 := Next(s1, DeleteClient(1));
    assert s2.open == UNARMED_DELETED.open && s2.clients == UNARMED_DELETED.clients && s2.fds == UNARMED_DELETED.fds;
    assert s2.log == UNARMED_DELETED.log;
    hide Next, Enabled;
    ChainRuns([ACCEPTED, s1, UNARMED_DELETED], run);
  }

  lemma RaceArm() returns (run: seq<Action>)
    ensures CanRun(UNARMED_DELETED, run) && Run(UNARMED_DELETED, run) == RACED
  {
    run := [Arm, PublishConnect];
    var s1 := Next(UNARMED_DELETED, Arm);
    assert Next(s1, PublishConnect) == RACED;
    hide Next, Enabled;
    ChainRuns([UNARMED_DELETED, s1, RACED], run);
  }

  lemma RacedReached() returns (run: seq<Action>)
    ensures CanRun(INIT, run) && Run(INIT, run) == RACED
  {
    var accept := AcceptedReached();
    var delete := RaceDelete();
    var arm := RaceArm();
    hide Run, CanRun;
    RunAppends(INIT, accept, delete);
    RunAppends(INIT, accept + delete, arm);
    run := accept + delete + arm;
  }

  /** The race: a client deleted between the table insertion and FD_SET leaves `m_fds` with a closed
      descriptor that is neither the listener nor a client, and its connect is published after its end. */
  lemma DeleteRacesWithAccept() returns (run: seq<Action>)
    ensures CanRun(INIT, run)
    ensures var s := Run(INIT, run);
      && LoopRuns(s) && AtBoundary(s) && !Agree(s)
      && 1 in s.fds && 1 != s.sockfd && 1 !in s.clients && 1 !in s.open
      && |s.log| == 6 && s.log[4] == Deleted(1, 1) && s.log[5] == Connect(1, 1)
  {
    run := RacedReached();
    hide Run, CanRun;
    assert 1 in RACED.fds;
  }

  const AGAIN_EVENTS := RACED.log + [AcceptCall(0), Accepted(1, 2, "", 0)]

  // In the next round the number is issued again.
  const AGAIN := State(map[0 := 0, 1 := 2], 0, {0, 1}, map[], false,
                       Scanning({0}, 1, 0, Accepting(1, 2, "", 0)), 3, AGAIN_EVENTS)

  lemma NextRoundAccepts() returns (run: seq<Action>)
    ensures CanRun(RACED, run) && Run(RACED, run) == AGAIN
  {
    run := [Visit, Snapshot(1), SelectReturns(1, {0}), Visit, Accept(1, "", 0)];
    var s1 := Next(RACED, Visit);
    var s2 := Next(s1, Snapshot(1));
    var s3 := Next(s2, SelectReturns(1, {0}));
    var s4 := Next(s3, Visit);
    var s5 := Next(s4, Accept(1, "", 0));
    assert s5.log == AGAIN.log;
    hide Next, Enabled;
    ChainRuns([RACED, s1, s2, s3, s4, AGAIN], run);
  }

  /** Two connects of one handle and no release of the first connection in between: a caller had deleted it
      before its connect callback. */
  lemma ConnectsNotSeparated() returns (run: seq<Action>)
    ensures CanRun(INIT, run)
    ensures var log := Run(INIT, run).log;
      SameHandle(log, 5, 8) && !ReleasedIn(log, 5, 8, log[5].id) && DeletedBefore(log, 5, log[5].id)
  {
    var race := RacedReached();
    var accept := NextRoundAccepts();
    AddShape(AGAIN);
    hide Run, CanRun, Next;
    RunAppends(INIT, race, accept);
    RunAppends(INIT, race + accept, ADD);
    run := race + accept + ADD;
    LogNotSeparated(Run(INIT, run).log);
  }

  lemma LogNotSeparated(log: seq<Event>)
    requires log == AGAIN_EVENTS + [Connect(1, 2)]
    ensures SameHandle(log, 5, 8) && !ReleasedIn(log, 5, 8, log[5].id) && DeletedBefore(log, 5, log[5].id)
  {
    assert log[4] == Deleted(1, 1) && log[5] == Connect(1, 1) && log[8] == Connect(1, 2);
    assert log[6] == AcceptCall(0) && log[7] == Accepted(1, 2, "", 0);
    assert !Releases(log[6], 1) && !Releases(log[7], 1);
  }

  // One client, on descriptor 1, with the loop at its top.
  const ONE_CLIENT := State(map[0 := 0, 1 := 1], 0, {0, 1}, map[1 := Client("", 1, 0, true)], false, Top, 2,
                            FIRST_EVENTS + [Connect(1, 1)])

  lemma FirstClientStored() returns (run: seq<Action>)
    ensures CanRun(ACCEPTED, run) && Run(ACCEPTED, run) == ONE_CLIENT
  {
    AddShape(ACCEPTED);
    var s := Run(ACCEPTED, ADD);
    hide Run, CanRun;
    assert s.log == ONE_CLIENT.log;
    assert Next(s, Visit) == ONE_CLIENT;
    hide Next, Enabled;
    ChainRuns([s, ONE_CLIENT], [Visit]);
    RunAppends(ACCEPTED, ADD, [Visit]);
    run := ADD + [Visit];
  }

  lemma OneClientReached() returns (run: seq<Action>)
    ensures CanRun(INIT, run) && Run(INIT, run) == ONE_CLIENT
  {
    var accept := AcceptedReached();
    var store := FirstClientStored();
    hide Run, CanRun;
    RunAppends(INIT, accept, store);
    run := accept + store;
  }

  // The next round reports both descriptors; the client was deleted before the scan came to it.
  const BOTH_READY := ONE_CLIENT.(phase := Scanning({0, 1}, 2, 0, Ready))
  const SPOILED := State(map[0 := 0], 0, {0}, map[], false, Scanning({0, 1}, 2, 0, Ready), 2,
                         ONE_CLIENT.log + [CloseCall(1, 1), Deleted(1, 1)])

  // Its number was issued again in the same round, to a connection that Select did not report.
  const ACCEPTED_AGAIN := State(map[0 := 0, 1 := 2], 0, {0}, map[], false,
                                Scanning({0, 1}, 2, 0, Accepting(1, 2, "", 0)), 3,
                                SPOILED.log + [AcceptCall(0), Accepted(1, 2, "", 0)])
  const REISSUED := State(map[0 := 0, 1 := 2], 0, {0, 1}, map[1 := Client("", 1, 0, true)], false,
                          Scanning({0, 1}, 2, 1, Found), 3, ACCEPTED_AGAIN.log + [Connect(1, 2)])

  lemma BothReady()
    ensures Enabled(ONE_CLIENT, Snapshot(2))
    ensures var s1 := Next(ONE_CLIENT, Snapshot(2));
      Enabled(s1, SelectReturns(2, {0, 1})) && Next(s1, SelectReturns(2, {0, 1})) == BOTH_READY
  {
    assert ONE_CLIENT.clients[1].sockfd == 1;
  }

  lemma ClientDeleted()
    ensures Enabled(BOTH_READY, DeleteClient(1)) && Next(BOTH_READY, DeleteClient(1)) == SPOILED
  {
    var s := Next(BOTH_READY, DeleteClient(1));
    assert s.open == SPOILED.open && s.clients == SPOILED.clients && s.fds == SPOILED.fds;
    assert s.log == SPOILED.log;
  }

  lemma NumberIssued() returns (run: seq<Action>)
    ensures CanRun(SPOILED, run) && Run(SPOILED, run) == ACCEPTED_AGAIN && RunStaysInRound(run) && NoDeletes(run)
  {
    run := [Visit, Accept(1, "", 0)];
    var s1 := Next(SPOILED, Visit);
    var s2 := Next(s1, Accept(1, "", 0));
    assert s2.log == ACCEPTED_AGAIN.log;
    hide Next, Enabled;
    ChainRuns([SPOILED, s1, ACCEPTED_AGAIN], run);
  }

  lemma VisitClient(s: State)
    requires s.phase.Scanning? && s.phase.stage.Ready? && s.phase.fd < s.phase.max
    requires s.phase.fd in s.phase.ready && s.phase.fd in s.clients
    ensures Enabled(s, Visit) && Next(s, Visit) == At(s, Found)
  {
  }

  lemma FoundAgain()
    ensures CanRun(ACCEPTED_AGAIN, ADD + [Visit]) && Run(ACCEPTED_AGAIN, ADD + [Visit]) == REISSUED
  {
    AddShape(ACCEPTED_AGAIN);
    var s := Run(ACCEPTED_AGAIN, ADD);
    hide Run, CanRun, Next, Enabled;
    VisitClient(s);
    ChainRuns([s, REISSUED], [Visit]);
    RunAppends(ACCEPTED_AGAIN, ADD, [Visit]);
  }

  lemma NumberReissued() returns (run: seq<Action>)
    ensures CanRun(SPOILED, run) && Run(SPOILED, run) == REISSUED && RunStaysInRound(run) && NoDeletes(run)
  {
    var accept := NumberIssued();
    FoundAgain();
    hide Run, CanRun;
    RunAppends(SPOILED, accept, ADD + [Visit]);
    run := accept + (ADD + [Visit]);
  }

  lemma RecvOnReissued() returns (s: State)
    ensures Enabled(REISSUED, Recv(-1, [])) && s == Next(REISSUED, Recv(-1, []))
    ensures !CallsAreSafe(ONE_CLIENT, s.log)
  {
    s := Next(REISSUED, Recv(-1, []));
    assert s.log[9] == RecvCall(1, 2, -1, []);
    assert !SafeCall(ONE_CLIENT, s.log[9]);
  }

  lemma SpoiledScan() returns (scan: seq<Action>)
    ensures CanRun(BOTH_READY, scan) && RunStaysInRound(scan) && !CallsAreSafe(ONE_CLIENT, Run(BOTH_READY, scan).log)
    ensures scan != [] && scan[0] == DeleteClient(1) && NoDeletes(scan[1..])
  {
    ClientDeleted();
    var accept := NumberReissued();
    var s := RecvOnReissued();
    var rest := accept + [Recv(-1, [])];
    hide Next, Enabled, CallsAreSafe;
    ChainRuns([BOTH_READY, SPOILED], [DeleteClient(1)]);
    ChainRuns([REISSUED, s], [Recv(-1, [])]);
    hide Run, CanRun;
    RunAppends(SPOILED, accept, [Recv(-1, [])]);
    RunAppends(BOTH_READY, [DeleteClient(1)], rest);
    scan := [DeleteClient(1)] + rest;
    assert scan[1..] == rest;
  }

  lemma SpoiledRound() returns (r: Round)
    ensures IsRound(ONE_CLIENT, r) && !RoundSafe(ONE_CLIENT, r.ready, AfterRound(ONE_CLIENT, r))
    ensures r.waiting == [] && r.scan != [] && r.scan[0] == DeleteClient(1) && NoDeletes(r.scan[1..])
  {
    BothReady();
    var scan := SpoiledScan();
    hide Next, Enabled, CallsAreSafe;
    r := Round(2, [], 2, {0, 1}, scan);
    assert AtSelect(ONE_CLIENT, r) == Next(ONE_CLIENT, Snapshot(2));
  }

  /** A round spoiled by one `deleteClient` between two steps: the number is issued again and Recv is called on
      a connection that was not in the table at the snapshot. */
  lemma DeleteInRoundBreaksReuse() returns (before: seq<Action>, r: Round)
    ensures CanRun(INIT, before) && Agree(Run(INIT, before)) && IsRound(Run(INIT, before), r)
    ensures r.waiting == [] && r.scan != [] && r.scan[0] == DeleteClient(1) && NoDeletes(r.scan[1..])
    ensures var s0 := Run(INIT, before); !RoundSafe(s0, r.ready, AfterRound(s0, r))
  {
    before := OneClientReached();
    r := SpoiledRound();
    hide Run, CanRun, RoundSafe, IsRound, AfterRound;
    assert Agree(ONE_CLIENT);
  }

  /** A late `start`: a server finished before it was started opens a socket all the same. */
  lemma LateStart() returns (run: seq<Action>, late: Action)
    ensures CanRun(INIT, run) && IsFinished(Run(INIT, run)) && Enabled(Run(INIT, run), late)
    ensures var t := Next(Run(INIT, run), late); t.log == [SocketCall(0, 0)] && 0 in t.open && t.sockfd == 0
  {
    run, late := [FinishBegin, FinishEnd([])], Start(Running(0));
    var s1 := Next(INIT, FinishBegin);
    assert Next(s1, FinishEnd([])) == s1;
    assert Next(s1, late).log == [SocketCall(0, 0)];
    hide Next, Enabled;
    ChainRuns([INIT, s1, s1], run);
  }
}
