/** The join in `finish` is always served: once `m_stop` is set, the loop thread can reach its exit on its own
    from wherever it is. */
module ServerExit {
  import opened Sockets
  import opened ServerMachine
  import opened ServerInvariant

  function StageSteps(stage: Stage): nat {
    match stage
    case Found => 3
    case Absent => 3
    case Accepting(_, _, _, _) => 3
    case Ended(_) => 2
    case Stored(_, _) => 2
    case Dropped(_) => 1
    case Got(_, _) => 1
    case Armed(_, _) => 1
    case Ready => 4
  }

  /** How many steps the loop thread is from its test, at most. */
  function StepsToTest(p: Phase): nat {
    match p
    case Selecting(_, _) => 2
    case Scanning(_, max, fd, stage) =>
      if fd < max then 5 * (max - fd) + StageSteps(stage) + 2
      else if stage.Ready? then 2 else StageSteps(stage) + 2
    case _ => 1
  }

  /** The loop thread's next action when the socket layer has nothing for it. */
  function OwnAction(p: Phase): Action {
    match p
    case Selecting(_, _) => SelectReturns(0, {})
    case Scanning(_, _, _, stage) =>
      (match stage
       case Ready => Visit
       case Found => Recv(-1, [])
       case Ended(_) => LoopDelete
       case Dropped(_) => PublishDisconnect
       case Got(_, _) => PublishData
       case Absent => Accept(INVALID_SOCKET, "", 0)
       case Accepting(_, _, _, _) => Store
       case Stored(_, _) => Arm
       case Armed(_, _) => PublishConnect)
    case _ => Exit
  }

  lemma OwnStep(s: State)
    requires s.stop && LoopRuns(s)
    ensures var a := OwnAction(s.phase);
      Enabled(s, a) && Next(s, a).stop
      && (s.phase.Top? ==> Next(s, a).phase.Exited?)
      && (!s.phase.Top? ==> LoopRuns(Next(s, a)) && StepsToTest(Next(s, a).phase) < StepsToTest(s.phase))
  {
  }

  /** The loop thread's way out. */
  lemma {:induction false} LoopCanExit(s: State) returns (rest: seq<Action>)
    requires s.stop && LoopRuns(s)
    ensures CanRun(s, rest) && Run(s, rest).phase.Exited? && Run(s, rest).stop
    ensures |rest| <= StepsToTest(s.phase)
    decreases StepsToTest(s.phase)
  {
    var a := OwnAction(s.phase);
    OwnStep(s);
    hide Next, Enabled, StepsToTest, OwnAction;
    if s.phase.Top? {
      rest := [a];
      ChainRuns([s, Next(s, a)], rest);
      AtLeastOne(s.phase);
    } else {
      var more := LoopCanExit(Next(s, a));
      rest := [a] + more;
      assert rest[1..] == more;
    }
  }

  lemma AtLeastOne(p: Phase)
    ensures StepsToTest(p) >= 1
  {
  }

  lemma {:induction false} CanEnumerate(keys: set<Fd>) returns (order: seq<Fd>)
    ensures Enumerates(order, keys)
  {
    if h :| h in keys {
      var rest := CanEnumerate(keys - {h});
      order := [h] + rest;
    } else {
      order := [];
    }
  }

  /** From every state in which `finish` has set `m_stop`, its join returns after a bounded number of the loop
      thread's own steps, and its critical section can then be entered. */
  lemma JoinIsServed(s: State) returns (rest: seq<Action>, order: seq<Fd>)
    requires s.stop
    ensures CanRun(s, rest) && Enabled(Run(s, rest), FinishEnd(order))
    ensures |rest| <= StepsToTest(s.phase)
  {
    rest := [];
    if LoopRuns(s) {
      rest := LoopCanExit(s);
    }
    order := CanEnumerate(Run(s, rest).clients.Keys);
  }
}
