/** Handles are raw descriptor numbers that may be issued again: when two connections that share a
    handle are told apart by the callbacks. */
module ServerHandles {
  import opened Sockets
  import opened ServerMachine
  import opened ServerHistory
  import opened ServerInvariant
  import opened ServerSteps
  import opened ServerFinish
  import opened ServerTheorems
  import opened ServerAgreement

  predicate Releases(e: Event, id: nat) {
    (e.Disconnect? || e.Deleted?) && e.id == id
  }

  lemma {:induction false} ConnectFacts(log: seq<Event>, id: nat, i: nat)
    requires !Track(log, id).life.Wrong? && i < |log| && log[i].Connect? && log[i].id == id
    ensures Track(log, id).fd == log[i].fd
    ensures var life := Track(log, id).life; !life.Unborn? && !life.Listening? && !life.New?
  {
    var before := log[..|log| - 1];
    if i < |before| {
      assert before[i] == log[i];
      ConnectFacts(before, id, i);
    }
  }

  lemma {:induction false} ReleasedSomewhere(log: seq<Event>, id: nat) returns (k: nat)
    requires !Track(log, id).life.Wrong? && Track(log, id).released
    ensures k < |log| && Releases(log[k], id) && log[k].fd == Track(log, id).fd
  {
    var e, before := log[|log| - 1], log[..|log| - 1];
    if Releases(e, id) {
      k := |log| - 1;
    } else {
      k := ReleasedSomewhere(before, id);
      assert before[k] == log[k];
    }
  }

  lemma {:induction false} NoDisconnectBeforeConnect(log: seq<Event>, id: nat, k: nat)
    requires Track(log, id).life.New? && k < |log|
    ensures !(log[k].Disconnect? && log[k].id == id)
  {
    var before := log[..|log| - 1];
    if k < |before| {
      assert before[k] == log[k];
      if Track(before, id).life.New? {
        NoDisconnectBeforeConnect(before, id, k);
      } else {
        UnbornIsSilent(before, id, k);
      }
    }
  }

  lemma {:induction false} UnbornIsSilent(log: seq<Event>, id: nat, k: nat)
    requires Track(log, id).life.Unborn? && k < |log|
    ensures !IsAbout(log[k], id)
  {
    var before := log[..|log| - 1];
    if k < |before| {
      assert before[k] == log[k];
      UnbornIsSilent(before, id, k);
    }
  }

  lemma {:induction false} PrefixIsFine(log: seq<Event>, id: nat, i: nat)
    requires !Track(log, id).life.Wrong? && i <= |log|
    ensures !Track(log[..i], id).life.Wrong?
  {
    if i == |log| {
      assert log[..i] == log;
    } else {
      var before := log[..|log| - 1];
      PrefixIsFine(before, id, i);
      assert before[..i] == log[..i];
    }
  }

  /** A release found before the connect can only be a caller's `deleteClient`. */
  lemma EarlyRelease(log: seq<Event>, id: nat, i: nat, k: nat)
    requires !Track(log, id).life.Wrong? && k < i < |log|
    requires log[i].Connect? && log[i].id == id && Releases(log[k], id)
    ensures log[k].Deleted? && Track(log[..i], id).life.New? && Track(log[..i + 1], id).life.Active?
  {
    PrefixIsFine(log, id, i + 1);
    assert log[..i + 1][..i] == log[..i];
    assert log[..i][k] == log[k];
    NoDisconnectBeforeConnect(log[..i], id, k);
  }

  ghost predicate DeletedBefore(log: seq<Event>, i: nat, id: nat) {
    exists k :: 0 <= k < i <= |log| && log[k].Deleted? && log[k].id == id
  }

  ghost predicate ReleasedIn(log: seq<Event>, i: nat, j: nat, id: nat) {
    exists k :: i < k < j <= |log| && Releases(log[k], id)
  }

  predicate SameHandle(log: seq<Event>, i: nat, j: nat) {
    i < j < |log| && log[i].Connect? && log[j].Connect? && log[i].fd == log[j].fd
  }

  /** Two connects of one handle: the first connection's handle was released in between, or had been
      deleted by a caller even before its own connect was published. */
  ghost predicate Separated(log: seq<Event>) {
    forall i: nat, j: nat :: SameHandle(log, i, j) ==>
      ReleasedIn(log, i, j, log[i].id) || DeletedBefore(log, i, log[i].id)
  }

  lemma SeparatedExtends(log: seq<Event>, log': seq<Event>)
    requires Separated(log) && log <= log'
    requires forall i :: |log| <= i < |log'| ==> !log'[i].Connect?
    ensures Separated(log')
  {
    forall i: nat, j: nat | SameHandle(log', i, j)
      ensures ReleasedIn(log', i, j, log'[i].id) || DeletedBefore(log', i, log'[i].id)
    {
      assert SameHandle(log, i, j);
      if ReleasedIn(log, i, j, log[i].id) {
        var k :| i < k < j && Releases(log[k], log[i].id);
        assert Releases(log'[k], log'[i].id);
      } else {
        var k :| 0 <= k < i && log[k].Deleted? && log[k].id == log[i].id;
        assert log'[k].Deleted?;
      }
    }
  }

  lemma SeparatedConnect(log: seq<Event>, e: Event)
    requires Separated(log) && e.Connect?
    requires forall i: nat :: i < |log| && log[i].Connect? && log[i].fd == e.fd ==>
               ReleasedIn(log, i, |log|, log[i].id) || DeletedBefore(log, i, log[i].id)
    ensures Separated(log + [e])
  {
    var log' := log + [e];
    forall i: nat, j: nat | SameHandle(log', i, j)
      ensures ReleasedIn(log', i, j, log'[i].id) || DeletedBefore(log', i, log'[i].id)
    {
      assert j < |log| ==> SameHandle(log, i, j);
      assert log'[i] == log[i];
      if ReleasedIn(log, i, j, log[i].id) {
        var k :| i < k < j && Releases(log[k], log[i].id);
        assert Releases(log'[k], log'[i].id);
      } else {
        var k :| 0 <= k < i && log[k].Deleted? && log[k].id == log[i].id;
        assert log'[k].Deleted?;
      }
    }
  }

  lemma LogGrows(s: State, a: Action)
    requires Enabled(s, a)
    ensures s.log <= Next(s, a).log
    ensures forall i :: |s.log| <= i < |Next(s, a).log| ==>
              (Next(s, a).log[i].Connect? ==> a.PublishConnect?) && (Next(s, a).log[i].Deleted? ==> a.DeleteClient?)
  {
    if a.FinishEnd? {
      CloseAllGrows(s, a.order);
    } else {
      hide Next, Enabled;
      LogShape(s, a);
    }
  }

  /** When a handle is announced again, its earlier connections have been released. */
  lemma ConnectAfterRelease(s: State, i: nat)
    requires Inv(s) && Enabled(s, PublishConnect) && i < |s.log|
    requires s.log[i].Connect? && s.log[i].fd == s.phase.stage.newfd
    ensures ReleasedIn(s.log, i, |s.log|, s.log[i].id) || DeletedBefore(s.log, i, s.log[i].id)
  {
    var id := s.log[i].id;
    assert Conforms(s, id) && Conforms(s, s.phase.stage.id);
    if id >= s.ids {
      UnbornIsSilent(s.log, id, i);
    }
    ConnectFacts(s.log, id, i);
    assert Track(s.log, id).released;
    var k := ReleasedSomewhere(s.log, id);
    if k < i {
      EarlyRelease(s.log, id, i, k);
    }
  }

  lemma SeparatedStep(s: State, a: Action)
    requires Inv(s) && Enabled(s, a) && Separated(s.log)
    ensures Separated(Next(s, a).log)
  {
    hide Inv, Separated;
    if a.PublishConnect? {
      forall i: nat | i < |s.log| && s.log[i].Connect? && s.log[i].fd == s.phase.stage.newfd
        ensures ReleasedIn(s.log, i, |s.log|, s.log[i].id) || DeletedBefore(s.log, i, s.log[i].id)
      {
        ConnectAfterRelease(s, i);
      }
      SeparatedConnect(s.log, CallbackOf(s.phase));
    } else {
      LogGrows(s, a);
      SeparatedExtends(s.log, Next(s, a).log);
    }
  }

  lemma {:induction false} SeparatedRun(s: State, run: seq<Action>)
    requires Inv(s) && CanRun(s, run) && Separated(s.log)
    ensures Separated(Run(s, run).log)
    decreases |run|
  {
    hide Inv, Next, Enabled, Separated;
    if run != [] {
      InvStep(s, run[0]);
      SeparatedStep(s, run[0]);
      SeparatedRun(Next(s, run[0]), run[1..]);
    }
  }

  /** Deleted by a caller before its connect was published. */
  predicate IsFrozen(st: Status) {
    st.life.Active? && st.closed && st.released
  }

  lemma FrozenAtConnect(log: seq<Event>, id: nat, i: nat)
    requires !Track(log, id).life.Wrong? && i < |log|
    requires log[i].Connect? && log[i].id == id && DeletedBefore(log, i, id)
    ensures IsFrozen(Track(log[..i + 1], id))
  {
    var d :| 0 <= d < i && log[d].Deleted? && log[d].id == id;
    PrefixIsFine(log, id, i);
    assert log[..i][d] == log[d];
    DeletedStays(log[..i], id, d);
    EarlyRelease(log, id, i, d);
    assert log[..i + 1][..i] == log[..i];
  }

  /** Nothing more can happen to it. */
  lemma {:induction false} FrozenForGood(log: seq<Event>, id: nat, i: nat, k: nat)
    requires !Track(log, id).life.Wrong? && i < k < |log| && IsFrozen(Track(log[..i + 1], id))
    ensures IsFrozen(Track(log, id)) && !Releases(log[k], id)
    decreases |log|
  {
    var before := log[..|log| - 1];
    PrefixIsFine(log, id, |log| - 1);
    assert before[..i + 1] == log[..i + 1];
    if i < |before| - 1 {
      FrozenForGood(before, id, i, if k < |before| then k else |before| - 1);
      assert k < |before| ==> before[k] == log[k];
    } else {
      assert before == log[..i + 1];
    }
  }

  /** A connection deleted before its connect was published is never released again. */
  lemma FrozenLife(log: seq<Event>, id: nat, i: nat, k: nat)
    requires !Track(log, id).life.Wrong? && i < k < |log|
    requires log[i].Connect? && log[i].id == id && DeletedBefore(log, i, id)
    ensures !Releases(log[k], id)
  {
    FrozenAtConnect(log, id, i);
    FrozenForGood(log, id, i, k);
  }

  lemma {:induction false} DeletedStays(log: seq<Event>, id: nat, d: nat)
    requires !Track(log, id).life.Wrong? && d < |log| && log[d].Deleted? && log[d].id == id
    ensures Track(log, id).closed && Track(log, id).released
  {
    var before := log[..|log| - 1];
    PrefixIsFine(log, id, |log| - 1);
    if d < |before| {
      assert before[d] == log[d];
      DeletedStays(before, id, d);
    }
  }

  /** Separation, exactly: in every run, between two connects of one handle its first connection is
      released (by a disconnect or a successful `deleteClient`) if and only if no caller had deleted it
      before its connect callback ran. */
  lemma ConnectsAreSeparated(run: seq<Action>, i: nat, j: nat)
    requires CanRun(INIT, run) && SameHandle(Run(INIT, run).log, i, j)
    ensures var log := Run(INIT, run).log;
      ReleasedIn(log, i, j, log[i].id) <==> !DeletedBefore(log, i, log[i].id)
  {
    InvInit();
    InvRun(INIT, run);
    SeparatedRun(INIT, run);
    var s := Run(INIT, run);
    var id := s.log[i].id;
    assert Conforms(s, id);
    if id >= s.ids {
      UnbornIsSilent(s.log, id, i);
    }
    if DeletedBefore(s.log, i, id) && ReleasedIn(s.log, i, j, id) {
      var k :| i < k < j && Releases(s.log[k], id);
      FrozenLife(s.log, id, i, k);
    }
  }

  /** The deletion logged at `k` came before the connect callback of the connection. */
  predicate IsEarlyDelete(log: seq<Event>, k: nat)
    requires k < |log|
  {
    log[k].Deleted? && Track(log[..k], log[k].id).life.New?
  }

  ghost predicate NoEarlyDelete(log: seq<Event>) {
    forall k :: 0 <= k < |log| ==> !IsEarlyDelete(log, k)
  }

  /** A caller deletes the client that the loop thread has stored and not yet announced. */
  predicate DeletesJoining(s: State, a: Action) {
    a.DeleteClient? && a.handle in s.clients
    && s.phase.Scanning? && (s.phase.stage.Stored? || s.phase.stage.Armed?) && a.handle == s.phase.stage.newfd
  }

  predicate SparesJoining(s: State, run: seq<Action>)
    requires CanRun(s, run)
    decreases |run|
  {
    run != [] ==> !DeletesJoining(s, run[0]) && SparesJoining(Next(s, run[0]), run[1..])
  }

  lemma EarlyExtends(log: seq<Event>, log': seq<Event>)
    requires log <= log' && forall k :: |log| <= k < |log'| ==> !IsEarlyDelete(log', k)
    ensures NoEarlyDelete(log) <==> NoEarlyDelete(log')
  {
    forall k | 0 <= k < |log| ensures IsEarlyDelete(log, k) == IsEarlyDelete(log', k) {
      assert log[..k] == log'[..k];
    }
  }

  lemma EarlyStays(log: seq<Event>, log': seq<Event>, k: nat)
    requires log <= log' && k < |log| && IsEarlyDelete(log, k)
    ensures !NoEarlyDelete(log')
  {
    assert log[..k] == log'[..k];
    assert IsEarlyDelete(log', k);
  }

  /** A successful deletion is logged as early exactly if its connection is stored and not yet announced. */
  lemma EarlyDeletion(s: State, h: Fd)
    requires Inv(s) && h in s.clients
    ensures var log := Next(s, DeleteClient(h)).log;
      && |log| == |s.log| + 2 && s.log <= log && !IsEarlyDelete(log, |s.log|)
      && (IsEarlyDelete(log, |s.log| + 1) <==> DeletesJoining(s, DeleteClient(h)))
  {
    var id := s.open[h];
    var e, e' := CloseCall(h, id), Deleted(h, id);
    DeleteShape(s, h);
    var log := Next(s, DeleteClient(h)).log;
    TrackSnoc(s.log, e, id);
    assert log[..|s.log| + 1] == s.log + [e];
    assert Conforms(s, id);
    hide Next;
  }

  lemma EarlyStep(s: State, a: Action)
    requires Inv(s) && Enabled(s, a) && NoEarlyDelete(s.log)
    ensures NoEarlyDelete(Next(s, a).log) <==> !DeletesJoining(s, a)
  {
    hide Inv, NoEarlyDelete, Next;
    LogGrows(s, a);
    var log := Next(s, a).log;
    if a.DeleteClient? && a.handle in s.clients {
      EarlyDeletion(s, a.handle);
      if DeletesJoining(s, a) {
        EarlyStays(log, log, |s.log| + 1);
      } else {
        EarlyExtends(s.log, log);
      }
    } else {
      if a.DeleteClient? {
        QuietDelete(s, a);
      }
      EarlyExtends(s.log, log);
    }
  }

  lemma QuietDelete(s: State, a: Action)
    requires Enabled(s, a) && a.DeleteClient? && a.handle !in s.clients
    ensures Next(s, a) == s
  {
  }

  lemma {:induction false} EarlyRun(s: State, run: seq<Action>)
    requires Inv(s) && CanRun(s, run) && NoEarlyDelete(s.log)
    ensures NoEarlyDelete(Run(s, run).log) <==> SparesJoining(s, run)
    decreases |run|
  {
    hide Inv, Next, Enabled, NoEarlyDelete, DeletesJoining;
    if run != [] {
      InvStep(s, run[0]);
      EarlyStep(s, run[0]);
      if DeletesJoining(s, run[0]) {
        EarlyForever(Next(s, run[0]), run[1..]);
      } else {
        EarlyRun(Next(s, run[0]), run[1..]);
      }
    }
  }

  lemma {:induction false} EarlyForever(s: State, run: seq<Action>)
    requires CanRun(s, run) && !NoEarlyDelete(s.log)
    ensures !NoEarlyDelete(Run(s, run).log)
    decreases |run|
  {
    hide Next, Enabled;
    if run != [] {
      LogGrows(s, run[0]);
      var k :| 0 <= k < |s.log| && IsEarlyDelete(s.log, k);
      EarlyStays(s.log, Next(s, run[0]).log, k);
      EarlyForever(Next(s, run[0]), run[1..]);
    }
  }

  lemma {:induction false} NewSinceBirth(log: seq<Event>, id: nat, k: nat)
    requires Track(log, id).life.New? && k <= |log|
    ensures Track(log[..k], id).life.New? || Track(log[..k], id) == UNBORN
  {
    if k == |log| {
      assert log[..k] == log;
    } else {
      var before := log[..|log| - 1];
      assert before[..k] == log[..k];
      if Track(before, id).life.New? {
        NewSinceBirth(before, id, k);
      } else {
        UnbornSinceStart(before, id, k);
      }
    }
  }

  lemma {:induction false} UnbornSinceStart(log: seq<Event>, id: nat, k: nat)
    requires Track(log, id) == UNBORN && k <= |log|
    ensures Track(log[..k], id) == UNBORN
  {
    if k == |log| {
      assert log[..k] == log;
    } else {
      UnbornSinceStart(log[..|log| - 1], id, k);
      assert log[..|log| - 1][..k] == log[..k];
    }
  }

  /** A connection deleted before its connect was deleted early. */
  lemma DeletedBeforeIsEarly(log: seq<Event>, id: nat, i: nat)
    requires !Track(log, id).life.Wrong? && i < |log| && log[i].Connect? && log[i].id == id && DeletedBefore(log, i, id)
    ensures !NoEarlyDelete(log)
  {
    var k :| 0 <= k < i && log[k].Deleted? && log[k].id == id;
    EarlyRelease(log, id, i, k);
    NewSinceBirth(log[..i], id, k);
    assert log[..i][..k] == log[..k];
    PrefixIsFine(log, id, k + 1);
    assert log[..k + 1][..k] == log[..k];
    assert IsEarlyDelete(log, k);
  }

  /** Callers who delete only announced clients see every two connects of a handle separated. */
  lemma SparingSeparates(run: seq<Action>, i: nat, j: nat)
    requires CanRun(INIT, run) && SparesJoining(INIT, run) && SameHandle(Run(INIT, run).log, i, j)
    ensures var log := Run(INIT, run).log; ReleasedIn(log, i, j, log[i].id)
  {
    InvInit();
    EarlyRun(INIT, run);
    ReachableInv(run);
    ConnectsAreSeparated(run, i, j);
    var s := Run(INIT, run);
    var id := s.log[i].id;
    assert Conforms(s, id);
    if id >= s.ids {
      UnbornIsSilent(s.log, id, i);
    }
    if DeletedBefore(s.log, i, id) {
      DeletedBeforeIsEarly(s.log, id, i);
    }
  }

  lemma {:induction false} BetweenStepsSparesJoining(s: State, run: seq<Action>)
    requires CanRun(s, run) && DeletesBetweenSteps(s, run)
    ensures SparesJoining(s, run)
    decreases |run|
  {
    hide Next, Enabled;
    if run != [] {
      BetweenStepsSparesJoining(Next(s, run[0]), run[1..]);
    }
  }

  /** In particular, with deletions between the loop's steps, as from callbacks. */
  lemma BetweenStepsSeparates(run: seq<Action>, i: nat, j: nat)
    requires CanRun(INIT, run) && DeletesBetweenSteps(INIT, run) && SameHandle(Run(INIT, run).log, i, j)
    ensures var log := Run(INIT, run).log; ReleasedIn(log, i, j, log[i].id)
  {
    BetweenStepsSparesJoining(INIT, run);
    SparingSeparates(run, i, j);
  }
}
