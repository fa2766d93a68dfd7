/** Each action of the server machine keeps the invariant. */
module ServerSteps {
  import opened Sockets
  import opened ServerMachine
  import opened ServerHistory
  import opened ServerInvariant

  /** Actions that make no socket call and no callback. */
  predicate IsQuiet(a: Action) {
    a == Start(NoSocket) || a.Snapshot? || a.SelectReturns? || a.Visit? || a.Store? || a.Arm? || a.Exit? || a.FinishBegin?
  }

  /** A quiet action logs nothing and opens nothing. */
  lemma QuietShape(s: State, a: Action)
    requires Enabled(s, a) && IsQuiet(a)
    ensures var t := Next(s, a); t.log == s.log && t.open == s.open && t.ids == s.ids
  {
  }

  predicate IsPublish(a: Action) {
    a.PublishConnect? || a.PublishData? || a.PublishDisconnect?
  }

  /** What an action may add to the log. */
  predicate Adds(a: Action, e: Event) {
    && (e.Connect? ==> a.PublishConnect?)
    && (e.Deleted? ==> a.DeleteClient?)
    && (e.RecvCall? ==> a.Recv?)
    && (e.SocketCall? ==> a.Start?)
  }

  lemma PublishShape(s: State, a: Action)
    requires Enabled(s, a) && IsPublish(a)
    ensures var t := Next(s, a); s.log <= t.log && s.ids <= t.ids
    ensures var t := Next(s, a); forall i :: |s.log| <= i < |t.log| ==> Adds(a, t.log[i])
  {
  }

  lemma AcceptShape(s: State, a: Action)
    requires Enabled(s, a) && a.Accept?
    ensures var t := Next(s, a); s.log <= t.log && s.ids <= t.ids
    ensures var t := Next(s, a); forall i :: |s.log| <= i < |t.log| ==> Adds(a, t.log[i])
  {
  }

  lemma StartShape(s: State, a: Action)
    requires Enabled(s, a) && a.Start?
    ensures var t := Next(s, a); s.log <= t.log && s.ids <= t.ids
    ensures var t := Next(s, a); forall i :: |s.log| <= i < |t.log| ==> Adds(a, t.log[i])
  {
  }

  lemma RecvShape(s: State, a: Action)
    requires Enabled(s, a) && a.Recv?
    ensures s.phase.Scanning?
    ensures var t := Next(s, a);
      t.log == s.log + [RecvEvent(s, s.phase.fd, a.n, a.data)] && t.ids == s.ids && t.open == s.open && t.sockfd == s.sockfd
    ensures Next(s, a).clients.Keys == s.clients.Keys
  {
  }

  lemma RemoveShape(s: State, a: Action)
    requires Enabled(s, a) && (a.LoopDelete? || a.DeleteClient?)
    ensures var t := Next(s, a); s.log <= t.log && s.ids <= t.ids
    ensures var t := Next(s, a); forall i :: |s.log| <= i < |t.log| ==> Adds(a, t.log[i])
  {
  }

  /** The log only grows, and only the actions named in `Adds` log what is named there. */
  lemma LogShape(s: State, a: Action)
    requires Enabled(s, a) && !a.FinishEnd?
    ensures var t := Next(s, a); s.log <= t.log && s.ids <= t.ids
    ensures var t := Next(s, a); forall i :: |s.log| <= i < |t.log| ==> Adds(a, t.log[i])
  {
    hide Next, Enabled;
    if a.Start? {
      StartShape(s, a);
    } else if a.Recv? {
      RecvShape(s, a);
    } else if a.Accept? {
      AcceptShape(s, a);
    } else if a.LoopDelete? || a.DeleteClient? {
      RemoveShape(s, a);
    } else if IsPublish(a) {
      PublishShape(s, a);
    } else {
      QuietShape(s, a);
    }
  }

  lemma ArmConforms(s: State, a: Action, id: nat)
    requires Inv(s) && Enabled(s, a) && (a.Store? || a.Arm?)
    ensures Conforms(Next(s, a), id)
  {
    hide Attributed, NoBadClose, Track, LastConnect;
    assert Conforms(s, id);
  }

  lemma IdleConforms(s: State, a: Action, id: nat)
    requires Inv(s) && Enabled(s, a) && IsQuiet(a) && !a.Store? && !a.Arm?
    ensures Conforms(Next(s, a), id)
  {
    hide Attributed, NoBadClose, Table, Track, LastConnect;
    assert Conforms(s, id);
  }

  lemma QuietConforms(s: State, a: Action, id: nat)
    requires Inv(s) && Enabled(s, a) && IsQuiet(a)
    ensures Conforms(Next(s, a), id)
  {
    hide Inv, Conforms, Next, Enabled;
    if a.Store? || a.Arm? {
      ArmConforms(s, a, id);
    } else {
      IdleConforms(s, a, id);
    }
  }

  lemma ArmTable(s: State, a: Action)
    requires Table(s) && Enabled(s, a) && (a.Store? || a.Arm?)
    ensures Table(Next(s, a))
  {
    hide Track;
  }

  lemma IdleTable(s: State, a: Action)
    requires Table(s) && Enabled(s, a) && IsQuiet(a) && !a.Store? && !a.Arm?
    ensures Table(Next(s, a))
  {
    hide Track;
  }

  lemma QuietTable(s: State, a: Action)
    requires Table(s) && Enabled(s, a) && IsQuiet(a)
    ensures Table(Next(s, a))
  {
    hide Table, Next, Enabled;
    if a.Store? || a.Arm? {
      ArmTable(s, a);
    } else {
      IdleTable(s, a);
    }
  }

  lemma QuietStep(s: State, a: Action)
    requires Inv(s) && Enabled(s, a) && IsQuiet(a)
    ensures Inv(Next(s, a))
  {
    hide Conforms, Table, Attributed, NoBadClose;
    QuietShape(s, a);
    QuietTable(s, a);
    hide Next, Enabled, IsQuiet;
    forall id: nat ensures Conforms(Next(s, a), id) {
      QuietConforms(s, a, id);
    }
  }

  lemma LogFacts(log: seq<Event>, e: Event, id: nat)
    ensures Track(log + [e], id) == if IsAbout(e, id) then Continue(Track(log, id), e) else Track(log, id)
    ensures forall fd :: LastConnect(log + [e], fd) == if e.Connect? && e.fd == fd then e.id else LastConnect(log, fd)
  {
    TrackSnoc(log, e, id);
    forall fd ensures LastConnect(log + [e], fd) == if e.Connect? && e.fd == fd then e.id else LastConnect(log, fd) {
      LastConnectSnoc(log, e, fd);
    }
  }

  lemma StartConforms(s: State, a: Action, id: nat)
    requires Inv(s) && Enabled(s, a) && a.Start? && !a.outcome.NoSocket?
    ensures Conforms(Next(s, a), id)
  {
    hide Attributed, NoBadClose, Track;
    LogFacts(s.log, SocketCall(a.outcome.fd, s.ids), id);
    assert Conforms(s, id);
  }

  lemma StartTable(s: State, a: Action)
    requires Inv(s) && Enabled(s, a) && a.Start? && !a.outcome.NoSocket?
    ensures Table(Next(s, a))
  {
    assert Conforms(s, s.ids);
    LogFacts(s.log, SocketCall(a.outcome.fd, s.ids), s.ids);
  }

  lemma StartStep(s: State, a: Action)
    requires Inv(s) && Enabled(s, a) && a.Start? && !a.outcome.NoSocket?
    ensures Inv(Next(s, a))
  {
    hide Table, Conforms, Attributed;
    forall id: nat ensures Conforms(Next(s, a), id) {
      StartConforms(s, a, id);
    }
    StartTable(s, a);
    AttributedSnoc(s.log, SocketCall(a.outcome.fd, s.ids));
  }

  lemma ConnectConforms(s: State, a: Action, e: Event, id: nat)
    requires Inv(s) && Enabled(s, a) && a.PublishConnect? && e == CallbackOf(s.phase)
    ensures Conforms(Next(s, a), id)
  {
    hide Attributed, NoBadClose, Track;
    LogFacts(s.log, e, id);
    assert Conforms(s, id) && Conforms(s, e.id);
  }

  lemma NoticeConforms(s: State, a: Action, e: Event, id: nat)
    requires Inv(s) && Enabled(s, a) && (a.PublishData? || a.PublishDisconnect?) && e == CallbackOf(s.phase)
    ensures Conforms(Next(s, a), id)
  {
    hide Attributed, NoBadClose, Track, Table;
    LogFacts(s.log, e, id);
    assert Conforms(s, id) && Conforms(s, e.id);
  }

  lemma PublishConforms(s: State, a: Action, e: Event, id: nat)
    requires Inv(s) && Enabled(s, a) && IsPublish(a) && s.phase.Scanning?
    requires (s.phase.stage.Dropped? || s.phase.stage.Got? || s.phase.stage.Armed?) && e == CallbackOf(s.phase)
    ensures Conforms(Next(s, a), id)
  {
    hide Inv, Next, Enabled, Conforms;
    if a.PublishConnect? {
      ConnectConforms(s, a, e, id);
    } else {
      NoticeConforms(s, a, e, id);
    }
  }

  lemma PublishTable(s: State, a: Action, e: Event)
    requires Inv(s) && Enabled(s, a) && IsPublish(a) && e == CallbackOf(s.phase)
    ensures Table(Next(s, a))
    ensures e.Data? || e.Disconnect? ==> LastConnect(s.log, e.fd) == e.id
  {
    assert Conforms(s, e.id);
    OpenLives(s, e);
  }

  /** An event that does not start a life leaves every open descriptor where it is. */
  lemma OpenLives(s: State, e: Event)
    requires Table(s)
    requires !e.SocketCall? && !e.Accepted?
    requires s.sockfd != INVALID_SOCKET ==> !IsAbout(e, s.open[s.sockfd])
    ensures forall f :: f in s.open ==> Track(s.log + [e], s.open[f]).fd == f
    ensures s.sockfd != INVALID_SOCKET ==>
      Track(s.log + [e], s.open[s.sockfd]).life == Track(s.log, s.open[s.sockfd]).life
  {
    forall f | f in s.open ensures Track(s.log + [e], s.open[f]).fd == f {
      TrackSnoc(s.log, e, s.open[f]);
    }
    if s.sockfd != INVALID_SOCKET {
      TrackSnoc(s.log, e, s.open[s.sockfd]);
    }
  }

  lemma PublishStep(s: State, a: Action)
    requires Inv(s) && Enabled(s, a) && IsPublish(a)
    ensures Inv(Next(s, a))
  {
    hide Table, Conforms, Attributed;
    var t, e := Next(s, a), CallbackOf(s.phase);
    forall id: nat ensures Conforms(t, id) {
      PublishConforms(s, a, e, id);
    }
    PublishTable(s, a, e);
    AttributedSnoc(s.log, e);
  }

  lemma RecvConforms(s: State, a: Action, e: Event, id: nat)
    requires Inv(s) && Enabled(s, a) && a.Recv? && e == RecvEvent(s, s.phase.fd, a.n, a.data)
    ensures Conforms(Next(s, a), id)
  {
    hide Attributed, NoBadClose, Track, LastConnect;
    LogFacts(s.log, e, id);
    assert Conforms(s, id);
    if s.phase.fd in s.open {
      assert Conforms(s, s.open[s.phase.fd]);
    }
  }

  lemma RecvTable(s: State, a: Action, e: Event)
    requires Inv(s) && Enabled(s, a) && a.Recv? && e == RecvEvent(s, s.phase.fd, a.n, a.data)
    ensures Table(Next(s, a))
  {
    hide Conforms, Attributed, NoBadClose, Track;
    assert s.phase.fd in s.open ==> s.open[s.phase.fd] != s.open[s.sockfd];
    OpenLives(s, e);
  }

  lemma RecvStep(s: State, a: Action)
    requires Inv(s) && Enabled(s, a) && a.Recv?
    ensures Inv(Next(s, a))
  {
    hide Table, Conforms, Attributed;
    var t, e := Next(s, a), RecvEvent(s, s.phase.fd, a.n, a.data);
    forall id: nat ensures Conforms(t, id) {
      RecvConforms(s, a, e, id);
    }
    RecvTable(s, a, e);
    AttributedSnoc(s.log, e);
  }

  lemma AcceptConforms(s: State, a: Action, id: nat)
    requires Inv(s) && Enabled(s, a) && a.Accept?
    ensures Conforms(Next(s, a), id)
  {
    hide Attributed, NoBadClose, Track;
    var e := AcceptCall(s.phase.fd);
    LogFacts(s.log, e, id);
    if a.fd != INVALID_SOCKET {
      LogFacts(s.log + [e], Accepted(a.fd, s.ids, a.ip, a.port), id);
    }
    assert Conforms(s, id);
  }

  lemma AcceptedLives(s: State, e: Event, e': Event)
    requires Inv(s) && e.AcceptCall? && e'.Accepted? && e'.id == s.ids && e'.fd !in s.open
    ensures forall f :: f in s.open ==> Track(s.log + [e] + [e'], s.open[f]) == Track(s.log, s.open[f])
    ensures Track(s.log + [e] + [e'], s.ids).fd == e'.fd
  {
    forall f | f in s.open ensures Track(s.log + [e] + [e'], s.open[f]) == Track(s.log, s.open[f]) {
      LogFacts(s.log, e, s.open[f]);
      LogFacts(s.log + [e], e', s.open[f]);
    }
    assert Conforms(s, s.ids);
    LogFacts(s.log, e, s.ids);
    LogFacts(s.log + [e], e', s.ids);
  }

  lemma RefusedTable(s: State, a: Action)
    requires Table(s) && Enabled(s, a) && a.Accept? && a.fd == INVALID_SOCKET
    ensures Table(Next(s, a))
  {
    OpenLives(s, AcceptCall(s.phase.fd));
    hide Track;
  }

  lemma AcceptedTable(s: State, a: Action)
    requires Inv(s) && Enabled(s, a) && a.Accept? && a.fd != INVALID_SOCKET
    ensures Table(Next(s, a))
  {
    hide Conforms, Attributed, NoBadClose, Track;
    AcceptedLives(s, AcceptCall(s.phase.fd), Accepted(a.fd, s.ids, a.ip, a.port));
  }

  lemma AcceptTable(s: State, a: Action)
    requires Inv(s) && Enabled(s, a) && a.Accept?
    ensures Table(Next(s, a))
  {
    hide Next, Enabled, Table, Conforms, Attributed, NoBadClose;
    if a.fd == INVALID_SOCKET {
      RefusedTable(s, a);
    } else {
      AcceptedTable(s, a);
    }
  }

  lemma AcceptStep(s: State, a: Action)
    requires Inv(s) && Enabled(s, a) && a.Accept?
    ensures Inv(Next(s, a))
  {
    hide Table, Conforms, Attributed;
    var e, e' := AcceptCall(s.phase.fd), Accepted(a.fd, s.ids, a.ip, a.port);
    forall id: nat ensures Conforms(Next(s, a), id) {
      AcceptConforms(s, a, id);
    }
    AcceptTable(s, a);
    AttributedSnoc(s.log, e);
    AttributedSnoc(s.log + [e], e');
  }

  lemma LoopDeleteConforms(s: State, id: nat)
    requires Inv(s) && Enabled(s, LoopDelete)
    ensures Conforms(Next(s, LoopDelete), id)
  {
    hide Attributed, NoBadClose, Track, LastConnect;
    var fd := s.phase.fd;
    assert Conforms(s, id) && Conforms(s, s.phase.stage.id);
    if fd in s.clients {
      LogFacts(s.log, CloseCall(fd, s.open[fd]), id);
    }
  }

  lemma LoopDeleteTable(s: State)
    requires Inv(s) && Enabled(s, LoopDelete)
    ensures Table(Next(s, LoopDelete))
  {
    var fd := s.phase.fd;
    assert Conforms(s, s.phase.stage.id);
    if fd in s.clients {
      OpenLives(s, CloseCall(fd, s.open[fd]));
    }
  }

  lemma LoopDeleteStep(s: State)
    requires Inv(s) && Enabled(s, LoopDelete)
    ensures Inv(Next(s, LoopDelete))
  {
    LoopDeleteTable(s);
    if s.phase.fd in s.clients {
      AttributedSnoc(s.log, CloseCall(s.phase.fd, s.open[s.phase.fd]));
    }
    hide Table, Conforms, Attributed;
    forall id: nat ensures Conforms(Next(s, LoopDelete), id) {
      LoopDeleteConforms(s, id);
    }
  }

  lemma DeleteConforms(s: State, h: Fd, id: nat)
    requires Inv(s) && h in s.clients
    ensures Conforms(Next(s, DeleteClient(h)), id)
  {
    hide Attributed, NoBadClose, Track;
    var e, e' := CloseCall(h, s.open[h]), Deleted(h, s.open[h]);
    DeleteShape(s, h);
    assert Conforms(s, id) && Conforms(s, s.open[h]);
    hide Next;
    LogFacts(s.log, e, id);
    LogFacts(s.log + [e], e', id);
  }

  /** `deleteClient` of a known handle, spelled out. */
  lemma DeleteShape(s: State, h: Fd)
    requires Table(s) && h in s.clients
    ensures Next(s, DeleteClient(h))
         == s.(open := s.open - {h}, fds := s.fds - {h}, clients := s.clients - {h},
               log := s.log + [CloseCall(h, s.open[h])] + [Deleted(h, s.open[h])])
  {
  }

  lemma DeleteTable(s: State, h: Fd)
    requires Inv(s) && h in s.clients
    ensures Table(Next(s, DeleteClient(h)))
  {
    var e, e' := CloseCall(h, s.open[h]), Deleted(h, s.open[h]);
    var t := Next(s, DeleteClient(h));
    assert Conforms(s, s.open[h]);
    OpenLives(s, e);
    forall f | f in t.open ensures Track(s.log + [e] + [e'], t.open[f]).fd == f {
      TrackSnoc(s.log + [e], e', t.open[f]);
    }
    if s.sockfd != INVALID_SOCKET {
      TrackSnoc(s.log + [e], e', s.open[s.sockfd]);
    }
  }

  lemma DeleteStep(s: State, h: Fd)
    requires Inv(s)
    ensures Inv(Next(s, DeleteClient(h)))
  {
    if h in s.clients {
      var e, e' := CloseCall(h, s.open[h]), Deleted(h, s.open[h]);
      assert s.clients[h].sockfd == h && h in s.open;
      DeleteTable(s, h);
      AttributedSnoc(s.log, e);
      AttributedSnoc(s.log + [e], e');
      hide Table, Conforms, Attributed;
      forall id: nat ensures Conforms(Next(s, DeleteClient(h)), id) {
        DeleteConforms(s, h, id);
      }
    }
  }
}
