/** What the table says of a client, against the log: an entry always tells of the connection that its
    handle stands for now, not of an earlier one with the same number. */
module ServerEntries {
  import opened Sockets
  import opened ServerMachine
  import opened ServerHistory
  import opened ServerInvariant
  import opened ServerSteps
  import opened ServerFinish

  predicate IsFailure(e: Event, id: nat) {
    e.RecvCall? && e.id == id && e.n < 1
  }

  ghost predicate Failed(log: seq<Event>, id: nat) {
    exists i :: 0 <= i < |log| && IsFailure(log[i], id)
  }

  /** The address is the one Accept gave for connection `id`, and the flag says whether its Recv calls have
      all succeeded so far. */
  ghost predicate Truthful(log: seq<Event>, id: nat, h: Fd, c: Client) {
    && Accepted(h, id, c.ip, c.port) in log
    && (c.isConnected <==> !Failed(log, id))
  }

  ghost predicate AllTruthful(s: State) {
    && (forall h :: h in s.clients && h in s.open ==> Truthful(s.log, s.open[h], h, s.clients[h]))
    && (s.phase.Scanning? && s.phase.stage.Accepting? ==>
          var st := s.phase.stage; Accepted(st.newfd, st.id, st.ip, st.port) in s.log)
  }

  /** Events that are not failures of `id` leave what is true of it. */
  lemma TruthfulExtends(log: seq<Event>, log': seq<Event>, id: nat, h: Fd, c: Client)
    requires log <= log' && forall i :: |log| <= i < |log'| ==> !IsFailure(log'[i], id)
    ensures Truthful(log, id, h, c) <==> Truthful(log', id, h, c) && Accepted(h, id, c.ip, c.port) in log
  {
    if i :| 0 <= i < |log| && IsFailure(log[i], id) {
      assert IsFailure(log'[i], id);
    }
  }

  /** A connection whose connect is not published yet has not been received from. */
  lemma {:induction false} NoRecvBeforeConnect(log: seq<Event>, id: nat)
    requires Track(log, id).life.New? || Track(log, id).life.Unborn?
    ensures !Failed(log, id)
  {
    if log != [] {
      var before := log[..|log| - 1];
      NoRecvBeforeConnect(before, id);
      forall i | 0 <= i < |before| ensures !IsFailure(log[i], id) {
        assert log[i] == before[i];
      }
    }
  }

  lemma TruthfulRecv(s: State, a: Action)
    requires Inv(s) && AllTruthful(s) && Enabled(s, a) && a.Recv?
    ensures AllTruthful(Next(s, a))
  {
    var t, fd := Next(s, a), s.phase.fd;
    forall h | h in t.clients && h in t.open ensures Truthful(t.log, t.open[h], h, t.clients[h]) {
      assert Truthful(s.log, s.open[h], h, s.clients[h]);
      assert Conforms(s, s.open[h]);
      if h == fd && a.n < 1 {
        assert IsFailure(t.log[|s.log|], s.open[h]);
        assert Accepted(h, s.open[h], s.clients[h].ip, s.clients[h].port) in t.log;
      } else {
        if fd in s.open {
          assert Conforms(s, s.open[fd]);
        }
        TruthfulExtends(s.log, t.log, s.open[h], h, s.clients[h]);
      }
    }
  }

  lemma TruthfulStore(s: State)
    requires Inv(s) && AllTruthful(s) && Enabled(s, Store)
    ensures AllTruthful(Next(s, Store))
  {
    var id := s.phase.stage.id;
    assert Conforms(s, id);
    NoRecvBeforeConnect(s.log, id);
  }

  /** An action that adds no entry, changes none and logs no Recv. */
  lemma TruthfulKept(s: State, t: State)
    requires AllTruthful(s) && s.log <= t.log && forall i :: |s.log| <= i < |t.log| ==> !t.log[i].RecvCall?
    requires EntriesStay(s, t)
    ensures AllTruthful(t)
  {
    forall h | h in t.clients && h in t.open ensures Truthful(t.log, t.open[h], h, t.clients[h]) {
      TruthfulExtends(s.log, t.log, s.open[h], h, s.clients[h]);
    }
  }

  lemma TruthfulFinish(s: State, order: seq<Fd>)
    requires Inv(s) && Enabled(s, FinishEnd(order))
    ensures AllTruthful(Next(s, FinishEnd(order)))
  {
    FinishShape(s, order);
    FinishLives(s, order, 0);
    hide CloseAll, Inv;
  }

  ghost predicate EntriesStay(s: State, t: State) {
    && (forall h :: h in t.clients && h in t.open ==>
          h in s.clients && h in s.open && t.clients[h] == s.clients[h] && t.open[h] == s.open[h])
    && (t.phase.Scanning? && t.phase.stage.Accepting? ==>
          var st := t.phase.stage; s.phase == t.phase || Accepted(st.newfd, st.id, st.ip, st.port) in t.log)
  }

  lemma AcceptKeepsEntries(s: State, a: Action)
    requires Table(s) && Enabled(s, a) && a.Accept?
    ensures EntriesStay(s, Next(s, a))
  {
    hide Track;
  }

  lemma RemoveKeepsEntries(s: State, a: Action)
    requires Table(s) && Enabled(s, a) && (a.DeleteClient? || a.LoopDelete?)
    ensures EntriesStay(s, Next(s, a))
  {
    hide Track;
  }

  lemma OthersKeepEntries(s: State, a: Action)
    requires Table(s) && Enabled(s, a) && (a.Start? || IsPublish(a) || (IsQuiet(a) && !a.Store?))
    ensures EntriesStay(s, Next(s, a))
  {
    hide Track;
  }

  lemma EntriesKept(s: State, a: Action)
    requires Table(s) && Enabled(s, a) && !a.Recv? && !a.Store? && !a.FinishEnd?
    ensures EntriesStay(s, Next(s, a))
  {
    hide Table, Next, Enabled, EntriesStay;
    if a.Accept? {
      AcceptKeepsEntries(s, a);
    } else if a.DeleteClient? || a.LoopDelete? {
      RemoveKeepsEntries(s, a);
    } else {
      OthersKeepEntries(s, a);
    }
  }

  lemma TruthfulStep(s: State, a: Action)
    requires Inv(s) && AllTruthful(s) && Enabled(s, a)
    ensures AllTruthful(Next(s, a))
  {
    hide AllTruthful, Next, Enabled, Table, Conforms, Attributed, NoBadClose;
    if a.Recv? {
      TruthfulRecv(s, a);
    } else if a.Store? {
      TruthfulStore(s);
    } else if a.FinishEnd? {
      TruthfulFinish(s, a.order);
    } else {
      LogShape(s, a);
      EntriesKept(s, a);
      TruthfulKept(s, Next(s, a));
    }
  }

  lemma {:induction false} TruthfulRun(s: State, run: seq<Action>)
    requires Inv(s) && AllTruthful(s) && CanRun(s, run)
    ensures AllTruthful(Run(s, run))
    decreases |run|
  {
    hide Inv, AllTruthful, Next, Enabled;
    if run != [] {
      InvStep(s, run[0]);
      TruthfulStep(s, run[0]);
      TruthfulRun(Next(s, run[0]), run[1..]);
    }
  }

  /** What `getClientInfo` reports, in every reachable state: the address Accept gave for the connection
      now under the handle, and connected exactly if none of its Recv calls has failed or ended it. */
  lemma InfoOfRuns(run: seq<Action>, h: Fd)
    requires CanRun(INIT, run) && h in Run(INIT, run).clients
    ensures var s := Run(INIT, run); h in s.open && Truthful(s.log, s.open[h], h, s.clients[h])
  {
    InvInit();
    InvRun(INIT, run);
    TruthfulRun(INIT, run);
  }
}
