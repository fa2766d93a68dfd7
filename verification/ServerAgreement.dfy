/** `m_fds` against the table: exactly when they agree. */
module ServerAgreement {
  import opened Sockets
  import opened ServerMachine
  import opened ServerHistory
  import opened ServerInvariant
  import opened ServerSteps
  import opened ServerFinish
  import opened ServerTheorems

  /** The client that is in the table but, by the loop thread's order of work, not yet in `m_fds`. */
  function Unarmed(s: State): set<Fd> {
    if s.phase.Scanning? && s.phase.stage.Stored? then {s.phase.stage.newfd} else {}
  }

  /** While the loop runs, `m_fds` is the listening socket and the clients, but for the one not yet armed. */
  ghost predicate Agree(s: State) {
    LoopRuns(s) ==> Unarmed(s) <= s.clients.Keys && s.fds == {s.sockfd} + (s.clients.Keys - Unarmed(s))
  }

  /** The one way to break it: a caller deletes the client that is stored and not yet armed. */
  predicate DeletesUnarmed(s: State, a: Action) {
    a.DeleteClient? && a.handle in Unarmed(s)
  }

  /** Agreement, exactly: an action keeps `m_fds` in agreement with the table if and only if it is not the
      deletion of the client that the loop thread has stored and not yet armed. */
  lemma AgreeStep(s: State, a: Action)
    requires Inv(s) && Enabled(s, a) && Agree(s)
    ensures Agree(Next(s, a)) <==> !DeletesUnarmed(s, a)
  {
    hide Agree, Unarmed, Table, Next, Enabled;
    if a.DeleteClient? {
      AgreeDelete(s, a.handle);
    } else if a.LoopDelete? || a.Store? || a.Recv? {
      AgreeTable(s, a);
    } else if a.FinishEnd? {
      AgreeFinish(s, a.order);
    } else if a.Arm? {
      AgreeArm(s);
    } else if a.Start? {
      AgreeStart(s, a);
    } else {
      AgreeOther(s, a);
    }
  }

  lemma AgreeDelete(s: State, h: Fd)
    requires Inv(s) && Agree(s)
    ensures Agree(Next(s, DeleteClient(h))) <==> !DeletesUnarmed(s, DeleteClient(h))
  {
    hide Conforms;
    RemoveAgrees(s, h);
  }

  lemma AgreeTable(s: State, a: Action)
    requires Inv(s) && Enabled(s, a) && Agree(s) && (a.LoopDelete? || a.Store? || a.Recv?)
    ensures Agree(Next(s, a)) && !DeletesUnarmed(s, a)
  {
    hide Conforms;
    match a
    case LoopDelete => RemoveAgrees(s, s.phase.fd);
    case Store => assert Next(s, a).clients.Keys == s.clients.Keys + {s.phase.stage.newfd};
    case Recv(_, _) => assert Next(s, a).clients.Keys == s.clients.Keys;
  }

  lemma AgreeFinish(s: State, order: seq<Fd>)
    requires Inv(s) && Enabled(s, FinishEnd(order))
    ensures Agree(Next(s, FinishEnd(order))) && !DeletesUnarmed(s, FinishEnd(order))
  {
    FinishShape(s, order);
    FinishLives(s, order, 0);
    hide CloseAll, Inv;
  }

  lemma AgreeArm(s: State)
    requires Enabled(s, Arm) && Agree(s)
    ensures Agree(Next(s, Arm))
  {
    assert Next(s, Arm).fds == {s.sockfd} + s.clients.Keys;
  }

  lemma AgreeStart(s: State, a: Action)
    requires Table(s) && Enabled(s, a) && a.Start?
    ensures Agree(Next(s, a))
  {
    hide Track;
  }

  lemma AgreeOther(s: State, a: Action)
    requires Enabled(s, a) && Agree(s)
    requires IsPublish(a) || a.Accept? || (IsQuiet(a) && !a.Store? && !a.Arm? && !a.Start?)
    ensures Agree(Next(s, a))
  {
  }

  lemma RemoveAgrees(s: State, h: Fd)
    requires Table(s)
    ensures Remove(s, h).clients.Keys == s.clients.Keys - {h}
    ensures h in s.clients ==> Remove(s, h).fds == s.fds - {h}
    ensures h in s.clients ==> h != s.sockfd
  {
  }

  ghost predicate AlwaysAgrees(s: State, run: seq<Action>)
    requires CanRun(s, run)
    decreases |run|
  {
    Agree(s) && (run != [] ==> AlwaysAgrees(Next(s, run[0]), run[1..]))
  }

  predicate SparesUnarmed(s: State, run: seq<Action>)
    requires CanRun(s, run)
    decreases |run|
  {
    run != [] ==> !DeletesUnarmed(s, run[0]) && SparesUnarmed(Next(s, run[0]), run[1..])
  }

  lemma {:induction false} AgreeRun(s: State, run: seq<Action>)
    requires Inv(s) && Agree(s) && CanRun(s, run)
    ensures AlwaysAgrees(s, run) <==> SparesUnarmed(s, run)
    ensures AlwaysAgrees(s, run) ==> Agree(Run(s, run))
    decreases |run|
  {
    hide Inv, Next, Enabled, Agree, DeletesUnarmed;
    if run != [] {
      InvStep(s, run[0]);
      AgreeStep(s, run[0]);
      if !DeletesUnarmed(s, run[0]) {
        AgreeRun(Next(s, run[0]), run[1..]);
      }
    }
  }

  /** Agreement of whole runs, exactly: `m_fds` agrees with the table in every state of a run if and only
      if no caller deletes a client between its insertion in the table and its FD_SET. */
  lemma AgreementIsExact(run: seq<Action>)
    requires CanRun(INIT, run)
    ensures AlwaysAgrees(INIT, run) <==> SparesUnarmed(INIT, run)
  {
    InvInit();
    AgreeRun(INIT, run);
  }

  /** A step boundary of the loop: no ready descriptor is half handled. */
  predicate AtBoundary(s: State) {
    s.phase.Scanning? ==> s.phase.stage.Ready?
  }

  /** Clients are deleted only between the loop's steps, where callbacks may do it too. */
  predicate DeletesBetweenSteps(s: State, run: seq<Action>)
    requires CanRun(s, run)
    decreases |run|
  {
    run != [] ==>
      (run[0].DeleteClient? ==> AtBoundary(s)) && DeletesBetweenSteps(Next(s, run[0]), run[1..])
  }

  lemma {:induction false} BetweenStepsSpares(s: State, run: seq<Action>)
    requires CanRun(s, run) && DeletesBetweenSteps(s, run)
    ensures SparesUnarmed(s, run)
    decreases |run|
  {
    hide Next, Enabled;
    if run != [] {
      BetweenStepsSpares(Next(s, run[0]), run[1..]);
    }
  }

  /** Table and set agreement: at every step boundary of a running server `m_fds` is exactly the
      listening socket plus the table's keys, when clients are deleted between steps. */
  lemma FdsMatchTable(run: seq<Action>)
    requires CanRun(INIT, run) && DeletesBetweenSteps(INIT, run)
    ensures var s := Run(INIT, run); LoopRuns(s) && AtBoundary(s) ==>
      s.fds == {s.sockfd} + s.clients.Keys && s.sockfd !in s.clients && INVALID_SOCKET !in s.clients
  {
    BetweenStepsSpares(INIT, run);
    AgreementIsExact(run);
    AgreeRun(INIT, run);
    ReachableInv(run);
    var s := Run(INIT, run);
    if INVALID_SOCKET in s.clients {
      TableOfRuns(run, INVALID_SOCKET);
    }
  }
}
