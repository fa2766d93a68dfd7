/** One round of `serverTask`: a snapshot of `m_fds`, a select, and a scan of the ready descriptors in
    ascending order, while numbers freed by the scan itself may be issued again by Accept. */
module ServerRounds {
  import opened Sockets
  import opened ServerMachine
  import opened ServerHistory
  import opened ServerInvariant
  import opened ServerSteps
  import opened ServerFinish
  import opened ServerTheorems
  import opened ServerConservation
  import opened ServerAgreement

  predicate IsCall(e: Event) {
    e.AcceptCall? || e.RecvCall? || e.RecvOnClosed?
  }

  function CallFd(e: Event): Fd
    requires IsCall(e)
  {
    if e.AcceptCall? then e.on else e.fd
  }

  /** The descriptors on which Accept or Recv was called since log position `n`, in order. */
  function Calls(log: seq<Event>, n: nat): seq<Fd> {
    if |log| <= n then []
    else
      var e, before := log[|log| - 1], Calls(log[..|log| - 1], n);
      if IsCall(e) then before + [CallFd(e)] else before
  }

  lemma CallsSnoc(log: seq<Event>, e: Event, n: nat)
    requires n <= |log|
    ensures Calls(log + [e], n) == if IsCall(e) then Calls(log, n) + [CallFd(e)] else Calls(log, n)
  {
    assert (log + [e])[..|log|] == log;
  }

  ghost predicate Ascending(fds: seq<Fd>) {
    forall i, j :: 0 <= i < j < |fds| ==> fds[i] < fds[j]
  }

  /** Accept only on the listening socket, Recv only on connections that were in the table at `s0`. */
  ghost predicate CallsAreSafe(s0: State, log: seq<Event>) {
    forall i :: |s0.log| <= i < |log| ==> SafeCall(s0, log[i])
  }

  predicate SafeCall(s0: State, e: Event) {
    match e
    case AcceptCall(on) => on == s0.sockfd
    case RecvCall(fd, id, _, _) => fd in s0.clients && fd in s0.open && s0.open[fd] == id
    case RecvOnClosed(_) => false
    case _ => true
  }

  /** `f` is still what it was at the snapshot. */
  predicate Intact(s0: State, s: State, f: Fd) {
    f == s0.sockfd || (f in s0.clients && f in s0.open && f in s.clients && f in s.open && s.open[f] == s0.open[f])
  }

  /** The scan has passed every descriptor below this one. */
  function Passed(p: Phase): Fd
    requires p.Scanning?
  {
    if p.stage.Ready? || p.stage.Found? || p.stage.Absent? then p.fd else p.fd + 1
  }

  /** `s` is inside the round whose snapshot was taken at `s0`. */
  ghost predicate InRound(s0: State, s: State) {
    && |s0.log| <= |s.log| && s.sockfd == s0.sockfd
    && CallsAreSafe(s0, s.log)
    && (s.phase.Selecting? || s.phase.Scanning?)
    && (s.phase.Selecting? ==>
          && s.phase.snapshot == s0.fds && Calls(s.log, |s0.log|) == []
          && forall f :: f in s.clients ==> Intact(s0, s, f))
    && (s.phase.Scanning? ==> ScanInv(s0, s, s.phase, Calls(s.log, |s0.log|)))
  }

  ghost predicate ScanInv(s0: State, s: State, p: Phase, calls: seq<Fd>)
    requires p.Scanning?
  {
    && Ascending(calls)
    && (forall f :: f in p.ready ==> 0 <= f < p.max)
    && (forall f :: f in calls <==> f in p.ready && f < Passed(p))
    && (forall f :: f in p.ready && f >= Passed(p) ==> Intact(s0, s, f))
    && (!p.stage.Ready? ==> p.fd in p.ready)
    && (p.stage.Found? ==> p.fd != s0.sockfd)
    && (p.stage.Absent? ==> p.fd == s0.sockfd)
  }

  /** The ways to spoil a round: Select reports a descriptor that is neither the listening socket nor a client,
      or a caller deletes a client that is ready and that the scan has not called on yet. */
  predicate Spoils(s: State, a: Action) {
    match a
    case SelectReturns(n, ready) => n > 0 && exists f :: f in ready && f != s.sockfd && f !in s.clients
    case DeleteClient(h) => s.phase.Scanning? && h in s.clients && h in s.phase.ready && h >= Passed(s.phase)
    case _ => false
  }

  /** The actions of a round once its snapshot is taken: the loop thread's, and any calls of other threads. */
  predicate StaysInRound(a: Action) {
    !a.Snapshot? && !a.Exit? && !a.FinishEnd?
  }

  lemma RoundStarts(s0: State, max: int)
    requires Inv(s0) && Enabled(s0, Snapshot(max))
    ensures InRound(s0, Next(s0, Snapshot(max)))
  {
  }

  lemma CallStep(s0: State, s: State, a: Action, e: Event)
    requires Inv(s) && InRound(s0, s) && Enabled(s, a)
    requires (a.Recv? && e == RecvEvent(s, s.phase.fd, a.n, a.data)) || (a.Accept? && e == AcceptCall(s.phase.fd))
    ensures SafeCall(s0, e) && CallFd(e) == s.phase.fd
    ensures Calls(s.log + [e], |s0.log|) == Calls(s.log, |s0.log|) + [s.phase.fd]
    ensures Ascending(Calls(s.log, |s0.log|) + [s.phase.fd])
    ensures forall f :: f in Calls(s.log, |s0.log|) + [s.phase.fd] <==> f in s.phase.ready && f < s.phase.fd + 1
  {
    hide Conforms, Calls;
    var calls := Calls(s.log, |s0.log|);
    CallsSnoc(s.log, e, |s0.log|);
    AscendingSnoc(calls, s.phase.fd);
  }

  lemma AscendingSnoc(fds: seq<Fd>, fd: Fd)
    requires Ascending(fds) && forall f :: f in fds ==> f < fd
    ensures Ascending(fds + [fd])
  {
    assert forall i :: 0 <= i < |fds| ==> fds[i] in fds;
  }

  /** A logged event that keeps the calls safe. */
  lemma SafeSnoc(s0: State, log: seq<Event>, e: Event)
    requires CallsAreSafe(s0, log) && SafeCall(s0, e) && |s0.log| <= |log|
    ensures CallsAreSafe(s0, log + [e])
    ensures !IsCall(e) ==> Calls(log + [e], |s0.log|) == Calls(log, |s0.log|)
  {
    CallsSnoc(log, e, |s0.log|);
  }

  lemma RoundRecv(s0: State, s: State, a: Action)
    requires Inv(s) && InRound(s0, s) && Enabled(s, a) && a.Recv?
    ensures InRound(s0, Next(s, a))
  {
    hide Calls, Ascending, Inv, Table, CallsAreSafe;
    var e := RecvEvent(s, s.phase.fd, a.n, a.data);
    CallStep(s0, s, a, e);
    SafeSnoc(s0, s.log, e);
  }

  lemma RoundAccept(s0: State, s: State, a: Action)
    requires Inv(s) && InRound(s0, s) && Enabled(s, a) && a.Accept?
    ensures InRound(s0, Next(s, a))
  {
    hide Calls, Ascending, Inv, Table, CallsAreSafe;
    var e := AcceptCall(s.phase.fd);
    CallStep(s0, s, a, e);
    SafeSnoc(s0, s.log, e);
    SafeSnoc(s0, s.log + [e], Accepted(a.fd, s.ids, a.ip, a.port));
  }

  lemma RoundLoopDelete(s0: State, s: State)
    requires Inv(s) && InRound(s0, s) && Enabled(s, LoopDelete)
    ensures InRound(s0, Next(s, LoopDelete))
  {
    hide Calls, Ascending, Conforms, CallsAreSafe;
    if s.phase.fd in s.clients {
      SafeSnoc(s0, s.log, CloseCall(s.phase.fd, s.open[s.phase.fd]));
    }
  }

  lemma RoundPublish(s0: State, s: State, a: Action)
    requires InRound(s0, s) && Enabled(s, a) && (a.PublishData? || a.PublishDisconnect? || a.PublishConnect?)
    ensures InRound(s0, Next(s, a))
  {
    hide Calls, Ascending, CallsAreSafe;
    SafeSnoc(s0, s.log, CallbackOf(s.phase));
  }

  lemma RoundSelects(s0: State, s: State, a: Action)
    requires InRound(s0, s) && Enabled(s, a) && a.SelectReturns? && !Spoils(s, a) && !Next(s, a).phase.Top?
    ensures InRound(s0, Next(s, a))
  {
    hide CallsAreSafe;
  }

  /** A caller's deletion that does not spoil the round. */
  lemma RoundDelete(s0: State, s: State, h: Fd)
    requires Inv(s) && InRound(s0, s) && !Spoils(s, DeleteClient(h))
    ensures InRound(s0, Next(s, DeleteClient(h)))
  {
    hide Calls, Ascending, Conforms, CallsAreSafe;
    if h in s.clients {
      var e, e' := CloseCall(h, s.open[h]), Deleted(h, s.open[h]);
      DeleteShape(s, h);
      hide Next;
      SafeSnoc(s0, s.log, e);
      SafeSnoc(s0, s.log + [e], e');
    }
  }

  lemma RoundQuiet(s0: State, s: State, a: Action)
    requires InRound(s0, s) && Enabled(s, a) && (a.Store? || a.Arm? || a.FinishBegin?)
    ensures InRound(s0, Next(s, a))
  {
    hide CallsAreSafe;
  }

  lemma RoundVisit(s0: State, s: State)
    requires Inv(s) && InRound(s0, s) && Enabled(s, Visit) && !Next(s, Visit).phase.Top?
    ensures InRound(s0, Next(s, Visit))
  {
    hide CallsAreSafe, Ascending, Calls, Conforms, Attributed, NoBadClose, Track;
  }

  lemma RoundStep(s0: State, s: State, a: Action)
    requires Inv(s) && InRound(s0, s) && Enabled(s, a) && StaysInRound(a) && !Spoils(s, a)
    ensures Next(s, a).phase.Top? || InRound(s0, Next(s, a))
    ensures s.phase.Scanning? && !Next(s, a).phase.Top? ==>
      Next(s, a).phase.Scanning? && Next(s, a).phase.ready == s.phase.ready
    ensures s.phase.Scanning? && Next(s, a).phase.Top? ==>
      Next(s, a).log == s.log && s.phase.fd >= s.phase.max
  {
    hide Inv, InRound, Spoils;
    RoundIsScanning(s0, s);
    if a.Recv? {
      RoundRecv(s0, s, a);
    } else if a.Accept? {
      RoundAccept(s0, s, a);
    } else if a.LoopDelete? {
      RoundLoopDelete(s0, s);
    } else if a.PublishData? || a.PublishDisconnect? || a.PublishConnect? {
      RoundPublish(s0, s, a);
    } else if !Next(s, a).phase.Top? {
      if a.Visit? {
        RoundVisit(s0, s);
      } else if a.SelectReturns? {
        RoundSelects(s0, s, a);
      } else if a.DeleteClient? {
        RoundDelete(s0, s, a.handle);
      } else {
        RoundQuiet(s0, s, a);
      }
    }
  }

  lemma RoundIsScanning(s0: State, s: State)
    requires InRound(s0, s)
    ensures s.phase.Selecting? || s.phase.Scanning?
  {
  }

  predicate RunStaysInRound(run: seq<Action>) {
    forall i :: 0 <= i < |run| ==> StaysInRound(run[i])
  }

  /** What a round promises about the calls it has made: they are safe, on ready descriptors, and in
      ascending order, so at most one each; at its end, exactly one each. */
  ghost predicate RoundSafe(s0: State, ready: set<Fd>, s: State) {
    var calls := Calls(s.log, |s0.log|);
    && |s0.log| <= |s.log| && CallsAreSafe(s0, s.log) && Ascending(calls)
    && (forall f :: f in calls ==> f in ready)
    && (s.phase.Top? ==> forall f :: f in ready ==> f in calls)
  }

  lemma InRoundIsSafe(s0: State, s: State)
    requires InRound(s0, s) && s.phase.Scanning?
    ensures RoundSafe(s0, s.phase.ready, s)
    ensures s.phase.fd >= s.phase.max ==> RoundSafe(s0, s.phase.ready, s.(phase := Top))
  {
  }

  /** The scan of a round: under way and safe so far, or back at the top and safe. */
  ghost predicate ScanIsFine(s0: State, ready: set<Fd>, s: State) {
    (InRound(s0, s) && s.phase.Scanning? && s.phase.ready == ready) || (s.phase.Top? && RoundSafe(s0, ready, s))
  }

  lemma FineStep(s0: State, ready: set<Fd>, s: State, a: Action)
    requires Inv(s) && Enabled(s, a) && StaysInRound(a) && !Spoils(s, a) && ScanIsFine(s0, ready, s)
    ensures ScanIsFine(s0, ready, Next(s, a))
  {
    hide Inv, InRound;
    if s.phase.Scanning? {
      InRoundIsSafe(s0, s);
      RoundStep(s0, s, a);
    } else {
      AtTop(s0, ready, s, a);
    }
  }

  lemma AtTop(s0: State, ready: set<Fd>, s: State, a: Action)
    requires Inv(s) && Enabled(s, a) && StaysInRound(a) && s.phase.Top? && RoundSafe(s0, ready, s)
    ensures Next(s, a).phase.Top? && RoundSafe(s0, ready, Next(s, a))
  {
    if a.DeleteClient? && a.handle in s.clients {
      var h := a.handle;
      var e, e' := CloseCall(h, s.open[h]), Deleted(h, s.open[h]);
      DeleteShape(s, h);
      SafeSnoc(s0, s.log, e);
      SafeSnoc(s0, s.log + [e], e');
    }
  }

  /** No call on `f` can be safe any more. */
  predicate Lost(s0: State, s: State, f: Fd) {
    f != s0.sockfd && !(f in s0.clients && f in s0.open && f in s.open && s.open[f] == s0.open[f])
  }

  /** The scan has still to call on `f`, which is lost, or an unsafe call has been made. */
  ghost predicate Failing(s0: State, s: State, f: Fd) {
    && |s0.log| <= |s.log| && s0.ids <= s.ids
    && (CallsAreSafe(s0, s.log) ==>
          && s.phase.Scanning? && f in s.phase.ready && Passed(s.phase) <= f < s.phase.max
          && Lost(s0, s, f) && s.sockfd == s0.sockfd)
  }

  lemma UnsafeStays(s0: State, log: seq<Event>, log': seq<Event>)
    requires log <= log' && !CallsAreSafe(s0, log)
    ensures !CallsAreSafe(s0, log')
  {
    var i :| |s0.log| <= i < |log| && !SafeCall(s0, log[i]);
    assert log'[i] == log[i];
  }

  /** The call on a lost descriptor is unsafe, whatever has become of its number. */
  lemma FailingCall(s0: State, s: State, a: Action, f: Fd)
    requires Enabled(s, a) && (a.Recv? || a.Accept?) && s.phase.fd == f && Lost(s0, s, f) && |s0.log| <= |s.log|
    ensures !CallsAreSafe(s0, Next(s, a).log)
  {
    var log := Next(s, a).log;
    assert log[|s.log|] == if a.Recv? then RecvEvent(s, f, a.n, a.data) else AcceptCall(f);
    assert !SafeCall(s0, log[|s.log|]);
  }

  /** A lost descriptor stays lost: a number issued again has a new id. */
  lemma LostStays(s0: State, s: State, a: Action, f: Fd)
    requires Table(s0) && Enabled(s, a) && StaysInRound(a) && Lost(s0, s, f) && s0.ids <= s.ids
    ensures Lost(s0, Next(s, a), f)
  {
    hide Track;
  }

  lemma VisitMoves(s: State, f: Fd)
    requires Enabled(s, Visit) && f in s.phase.ready && Passed(s.phase) <= f < s.phase.max
    ensures var p := Next(s, Visit).phase;
      p.Scanning? && p.ready == s.phase.ready && p.max == s.phase.max && Passed(p) <= f
    ensures Next(s, Visit).sockfd == s.sockfd
  {
  }

  lemma ScanMoves(s: State, a: Action, f: Fd)
    requires Enabled(s, a) && StaysInRound(a) && s.phase.Scanning?
    requires f in s.phase.ready && Passed(s.phase) <= f < s.phase.max
    requires a.Recv? || a.Accept? ==> s.phase.fd != f
    ensures var p := Next(s, a).phase;
      p.Scanning? && p.ready == s.phase.ready && p.max == s.phase.max && Passed(p) <= f
    ensures Next(s, a).sockfd == s.sockfd
  {
    if a.Visit? {
      hide Next;
      VisitMoves(s, f);
    }
  }

  lemma FailingStep(s0: State, s: State, a: Action, f: Fd)
    requires Table(s0) && Enabled(s, a) && StaysInRound(a) && Failing(s0, s, f)
    ensures Failing(s0, Next(s, a), f)
  {
    hide Table, Next, Enabled, Lost, CallsAreSafe;
    LogShape(s, a);
    if !CallsAreSafe(s0, s.log) {
      UnsafeStays(s0, s.log, Next(s, a).log);
    } else if (a.Recv? || a.Accept?) && s.phase.fd == f {
      FailingCall(s0, s, a, f);
    } else {
      LostStays(s0, s, a, f);
      ScanMoves(s, a, f);
    }
  }

  lemma {:induction false} FailingRun(s0: State, s: State, run: seq<Action>, f: Fd)
    requires Table(s0) && CanRun(s, run) && RunStaysInRound(run) && Failing(s0, s, f)
    ensures Failing(s0, Run(s, run), f)
    decreases |run|
  {
    hide Table, Next, Enabled, Failing;
    if run != [] {
      FailingStep(s0, s, run[0], f);
      FailingRun(s0, Next(s, run[0]), run[1..], f);
    }
  }

  /** A deletion that spoils the round loses the deleted descriptor. */
  lemma DeletionLoses(s0: State, s: State, h: Fd)
    requires Inv(s) && InRound(s0, s) && s0.ids <= s.ids && s.phase.Scanning? && Spoils(s, DeleteClient(h))
    ensures Failing(s0, Next(s, DeleteClient(h)), h)
  {
    hide Conforms, Calls, CallsAreSafe;
    DeleteShape(s, h);
    hide Next;
  }

  predicate Spares(s: State, run: seq<Action>)
    requires CanRun(s, run)
    decreases |run|
  {
    run != [] ==> !Spoils(s, run[0]) && Spares(Next(s, run[0]), run[1..])
  }

  /** The scan, exactly: it is safe if no action spoils it, and unsafe once it is over if one did. */
  lemma {:induction false} ScanRun(s0: State, ready: set<Fd>, s: State, run: seq<Action>)
    requires Inv(s0) && Inv(s) && s0.ids <= s.ids && CanRun(s, run) && RunStaysInRound(run) && ScanIsFine(s0, ready, s)
    ensures Spares(s, run) ==> RoundSafe(s0, ready, Run(s, run))
    ensures !Spares(s, run) && Run(s, run).phase.Top? ==> !RoundSafe(s0, ready, Run(s, run))
    decreases |run|
  {
    hide Inv, InRound, RoundSafe, Next, Enabled, Spoils;
    if run == [] {
      FineIsSafe(s0, ready, s);
    } else {
      InvStep(s, run[0]);
      LogShape(s, run[0]);
      if Spoils(s, run[0]) {
        ScanSpoiled(s0, ready, s, run);
      } else {
        FineStep(s0, ready, s, run[0]);
        hide ScanIsFine;
        ScanRun(s0, ready, Next(s, run[0]), run[1..]);
      }
    }
  }

  lemma FineIsSafe(s0: State, ready: set<Fd>, s: State)
    requires ScanIsFine(s0, ready, s)
    ensures RoundSafe(s0, ready, s)
  {
    hide InRound, RoundSafe;
    if !s.phase.Top? {
      InRoundIsSafe(s0, s);
    }
  }

  lemma ScanSpoiled(s0: State, ready: set<Fd>, s: State, run: seq<Action>)
    requires Inv(s0) && Inv(s) && s0.ids <= s.ids && CanRun(s, run) && RunStaysInRound(run)
    requires ScanIsFine(s0, ready, s) && run != [] && Spoils(s, run[0])
    ensures Run(s, run).phase.Top? ==> !RoundSafe(s0, ready, Run(s, run))
  {
    SpoilsByDeletion(s0, ready, s, run[0]);
    var h := run[0].handle;
    DeletionLoses(s0, s, h);
    FailingRun(s0, Next(s, run[0]), run[1..], h);
    hide Inv, Next, Enabled, CallsAreSafe;
  }

  lemma SpoilsByDeletion(s0: State, ready: set<Fd>, s: State, a: Action)
    requires ScanIsFine(s0, ready, s) && Enabled(s, a) && Spoils(s, a)
    ensures a.DeleteClient? && s.phase.Scanning? && InRound(s0, s)
  {
  }

  /** A round: the snapshot of `m_fds`; what callers do until Select returns; its reply; and the scan, with
      what callers do meanwhile. */
  datatype Round = Round(max: int, waiting: seq<Action>, n: int, ready: set<Fd>, scan: seq<Action>)

  ghost predicate OnlyCallers(run: seq<Action>) {
    forall i :: 0 <= i < |run| ==> run[i].DeleteClient? || run[i].FinishBegin?
  }

  ghost predicate IsRound(s0: State, r: Round) {
    && Enabled(s0, Snapshot(r.max))
    && OnlyCallers(r.waiting) && CanRun(Next(s0, Snapshot(r.max)), r.waiting)
    && Enabled(AtSelect(s0, r), SelectReturns(r.n, r.ready)) && r.n > 0
    && CanRun(Next(AtSelect(s0, r), SelectReturns(r.n, r.ready)), r.scan) && RunStaysInRound(r.scan)
  }

  /** The state in which Select returns. */
  function AtSelect(s0: State, r: Round): State
    requires Enabled(s0, Snapshot(r.max)) && CanRun(Next(s0, Snapshot(r.max)), r.waiting)
  {
    Run(Next(s0, Snapshot(r.max)), r.waiting)
  }

  ghost function AfterRound(s0: State, r: Round): State
    requires IsRound(s0, r)
  {
    Run(Next(AtSelect(s0, r), SelectReturns(r.n, r.ready)), r.scan)
  }

  /** Nothing spoils the round. */
  ghost predicate Spared(s0: State, r: Round)
    requires IsRound(s0, r)
  {
    var reply := SelectReturns(r.n, r.ready);
    !Spoils(AtSelect(s0, r), reply) && Spares(Next(AtSelect(s0, r), reply), r.scan)
  }

  lemma {:induction false} WaitingRun(s0: State, s: State, run: seq<Action>)
    requires Inv(s) && InRound(s0, s) && s0.ids <= s.ids && s.phase.Selecting? && CanRun(s, run) && OnlyCallers(run)
    ensures var t := Run(s, run); Inv(t) && InRound(s0, t) && s0.ids <= t.ids && t.phase == s.phase
    decreases |run|
  {
    hide Inv, InRound, Next, Enabled;
    if run != [] {
      InvStep(s, run[0]);
      LogShape(s, run[0]);
      RoundStep(s0, s, run[0]);
      WaitingStep(s, run[0]);
      WaitingRun(s0, Next(s, run[0]), run[1..]);
    }
  }

  lemma WaitingStep(s: State, a: Action)
    requires Enabled(s, a) && (a.DeleteClient? || a.FinishBegin?)
    ensures Next(s, a).phase == s.phase
  {
  }

  /** A descriptor that Select reports, neither the listening socket nor a client, is lost. */
  lemma ReportLoses(s0: State, s: State, a: Action, f: Fd)
    requires Inv(s) && InRound(s0, s) && s0.ids <= s.ids && Enabled(s, a) && a.SelectReturns? && a.n > 0
    requires f in a.ready && f != s.sockfd && f !in s.clients
    ensures Failing(s0, Next(s, a), f)
  {
    if f in s.open {
      OwnerOf(s, f);
    }
  }

  lemma RoundReachesSelect(s0: State, r: Round)
    requires Inv(s0) && IsRound(s0, r)
    ensures var s2 := AtSelect(s0, r); Inv(s2) && InRound(s0, s2) && s0.ids <= s2.ids && s2.phase.Selecting?
  {
    hide Inv, InRound;
    InvStep(s0, Snapshot(r.max));
    RoundStarts(s0, r.max);
    WaitingRun(s0, Next(s0, Snapshot(r.max)), r.waiting);
  }

  lemma SelectedIsFine(s0: State, s: State, n: int, ready: set<Fd>)
    requires Inv(s) && InRound(s0, s) && Enabled(s, SelectReturns(n, ready)) && n > 0
    requires !Spoils(s, SelectReturns(n, ready))
    ensures ScanIsFine(s0, ready, Next(s, SelectReturns(n, ready)))
  {
    hide Inv, InRound, Spoils;
    RoundStep(s0, s, SelectReturns(n, ready));
  }

  /** Descriptor reuse safety: in a round that nothing spoils, Accept is called only on the listening socket
      and Recv only on connections that were in the table at the snapshot and were reported ready, at most
      once each, whatever numbers the system issues again meanwhile; and by the end of the round every
      ready descriptor has been served. */
  lemma ReuseSafety(s0: State, r: Round)
    requires Inv(s0) && IsRound(s0, r) && Spared(s0, r)
    ensures RoundSafe(s0, r.ready, AfterRound(s0, r))
  {
    hide Inv, InRound, RoundSafe, Spoils, ScanIsFine, Next, Enabled;
    RoundReachesSelect(s0, r);
    var s2, reply := AtSelect(s0, r), SelectReturns(r.n, r.ready);
    InvStep(s2, reply);
    LogShape(s2, reply);
    SelectedIsFine(s0, s2, r.n, r.ready);
    ScanRun(s0, r.ready, Next(s2, reply), r.scan);
  }

  lemma ExactRound(s0: State, r: Round)
    requires Inv(s0) && IsRound(s0, r) && AfterRound(s0, r).phase.Top?
    ensures RoundSafe(s0, r.ready, AfterRound(s0, r)) <==> Spared(s0, r)
  {
    hide Inv, InRound, RoundSafe, ScanIsFine, Next, Enabled, Spoils;
    RoundReachesSelect(s0, r);
    var s2, reply := AtSelect(s0, r), SelectReturns(r.n, r.ready);
    InvStep(s2, reply);
    LogShape(s2, reply);
    if Spoils(s2, reply) {
      ReportSpoils(s0, s2, r);
    } else {
      SelectedIsFine(s0, s2, r.n, r.ready);
      ScanRun(s0, r.ready, Next(s2, reply), r.scan);
    }
  }

  /** Reuse safety, exactly, for every round of every run and whatever callers do meanwhile: once the scan is
      over, its calls have been safe and complete if and only if nothing spoiled the round. */
  lemma RoundIsExact(before: seq<Action>, r: Round)
    requires CanRun(INIT, before) && IsRound(Run(INIT, before), r) && AfterRound(Run(INIT, before), r).phase.Top?
    ensures var s0 := Run(INIT, before); RoundSafe(s0, r.ready, AfterRound(s0, r)) <==> Spared(s0, r)
  {
    ReachableInv(before);
    ExactRound(Run(INIT, before), r);
  }

  lemma ReportSpoils(s0: State, s: State, r: Round)
    requires Inv(s0) && Inv(s) && InRound(s0, s) && s0.ids <= s.ids && r.n > 0
    requires Enabled(s, SelectReturns(r.n, r.ready)) && Spoils(s, SelectReturns(r.n, r.ready))
    requires CanRun(Next(s, SelectReturns(r.n, r.ready)), r.scan) && RunStaysInRound(r.scan)
    ensures var t := Run(Next(s, SelectReturns(r.n, r.ready)), r.scan);
      t.phase.Top? ==> !RoundSafe(s0, r.ready, t)
  {
    var reply := SelectReturns(r.n, r.ready);
    var f :| f in r.ready && f != s.sockfd && f !in s.clients;
    hide Inv, InRound, Next, Enabled;
    ReportLoses(s0, s, reply, f);
    FailingRun(s0, Next(s, reply), r.scan, f);
  }

  ghost predicate NoDeletes(run: seq<Action>) {
    forall i :: 0 <= i < |run| ==> !run[i].DeleteClient?
  }

  /** Only the loop itself deletes clients. */
  ghost predicate Undisturbed(r: Round) {
    NoDeletes(r.waiting) && NoDeletes(r.scan)
  }

  /** No descriptor that the scan can reach is in `m_fds` without being the listening socket or a client. */
  ghost predicate NoStaleBit(s: State, max: int) {
    forall f :: f in s.fds && 0 <= f < max ==> f == s.sockfd || f in s.clients
  }

  lemma {:induction false} WaitingKeeps(s: State, run: seq<Action>)
    requires CanRun(s, run) && OnlyCallers(run) && NoDeletes(run)
    ensures var t := Run(s, run); t.clients == s.clients && t.sockfd == s.sockfd && t.phase == s.phase
    decreases |run|
  {
    if run != [] {
      WaitingKeeps(Next(s, run[0]), run[1..]);
    }
  }

  lemma {:induction false} UndisturbedSpares(s: State, run: seq<Action>)
    requires CanRun(s, run) && RunStaysInRound(run) && NoDeletes(run) && !s.phase.Selecting?
    ensures Spares(s, run)
    decreases |run|
  {
    if run != [] {
      NotSelecting(s, run[0]);
      hide Next, Enabled;
      UndisturbedSpares(Next(s, run[0]), run[1..]);
    }
  }

  lemma NotSelecting(s: State, a: Action)
    requires Enabled(s, a) && StaysInRound(a) && !s.phase.Selecting?
    ensures !a.SelectReturns? && !Next(s, a).phase.Selecting?
  {
  }

  lemma UndisturbedIsSpared(s0: State, r: Round)
    requires IsRound(s0, r) && Undisturbed(r) && NoStaleBit(s0, r.max)
    ensures Spared(s0, r)
  {
    var s2, reply := AtSelect(s0, r), SelectReturns(r.n, r.ready);
    WaitingKeeps(Next(s0, Snapshot(r.max)), r.waiting);
    assert !Spoils(s2, reply);
    assert !Next(s2, reply).phase.Selecting?;
    hide Next, Enabled, Spoils;
    UndisturbedSpares(Next(s2, reply), r.scan);
  }

  /** The scan of a round that reports only `f`, which is neither a client nor the listening socket. */
  lemma {:induction false} StaleScan(s: State, f: Fd) returns (scan: seq<Action>)
    requires s.phase.Scanning? && s.phase.ready == {f} && s.phase.stage == Ready && s.phase.fd <= f < s.phase.max
    requires f !in s.clients && f != s.sockfd
    ensures CanRun(s, scan) && RunStaysInRound(scan) && NoDeletes(scan)
    ensures Run(s, scan).log == s.log + [AcceptCall(f)]
    decreases f - s.phase.fd
  {
    var t := Next(s, Visit);
    if s.phase.fd == f {
      var accept := Accept(INVALID_SOCKET, "", 0);
      scan := [Visit, accept];
      ChainRuns([s, t, Next(t, accept)], scan);
    } else {
      var rest := StaleScan(t, f);
      scan := [Visit] + rest;
      assert scan[1..] == rest;
    }
  }

  /** A stale bit in `m_fds` makes some round unsafe. */
  lemma StaleBitIsUnsafe(s0: State, max: int, f: Fd) returns (r: Round)
    requires Enabled(s0, Snapshot(max)) && f in s0.fds && 0 <= f < max && f !in s0.clients && f != s0.sockfd
    ensures r.max == max && Undisturbed(r) && IsRound(s0, r) && !RoundSafe(s0, r.ready, AfterRound(s0, r))
  {
    var s1 := Next(s0, Snapshot(max));
    assert Run(s1, []) == s1;
    var scan := StaleScan(Next(s1, SelectReturns(1, {f})), f);
    r := Round(max, [], 1, {f}, scan);
    assert AfterRound(s0, r).log == s0.log + [AcceptCall(f)];
    assert !SafeCall(s0, AfterRound(s0, r).log[|s0.log|]);
  }

  /** From a reachable state every round in which only the loop deletes clients is safe if and only if
      `m_fds` holds no stale descriptor within the reach of the scan. */
  lemma ReuseIsExact(before: seq<Action>, max: int)
    requires CanRun(INIT, before) && Enabled(Run(INIT, before), Snapshot(max))
    ensures var s0 := Run(INIT, before);
      NoStaleBit(s0, max) <==>
      forall r: Round :: r.max == max && IsRound(s0, r) && Undisturbed(r) ==> RoundSafe(s0, r.ready, AfterRound(s0, r))
  {
    hide RoundSafe, IsRound, AfterRound;
    var s0 := Run(INIT, before);
    ReachableInv(before);
    if f :| f in s0.fds && 0 <= f < max && f != s0.sockfd && f !in s0.clients {
      var r := StaleBitIsUnsafe(s0, max, f);
    } else {
      forall r: Round | r.max == max && IsRound(s0, r) && Undisturbed(r)
        ensures RoundSafe(s0, r.ready, AfterRound(s0, r))
      {
        UndisturbedIsSpared(s0, r);
        ReuseSafety(s0, r);
      }
    }
  }

  /** Agreement of `m_fds` with the table leaves no stale bit. */
  lemma AgreementIsEnough(s: State, max: int)
    requires Agree(s) && LoopRuns(s)
    ensures NoStaleBit(s, max)
  {
  }
}
