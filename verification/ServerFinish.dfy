/** `finish` keeps the invariant and closes everything, once; with it, every action of the server
    machine keeps the invariant. */
module ServerFinish {
  import opened Sockets
  import opened ServerMachine
  import opened ServerHistory
  import opened ServerInvariant
  import opened ServerSteps

  /** A descriptor that is open and has not been closed. */
  ghost predicate Mortal(s: State, h: Fd) {
    h in s.open
    && var st := Track(s.log, s.open[h]); st.fd == h && !st.closed && !st.life.Unborn? && !st.life.Wrong?
  }

  lemma CloseOne(s: State, h: Fd, id: nat)
    requires Mortal(s, h)
    ensures Track(Close(s, h).log, id)
         == if id == s.open[h] then Track(s.log, id).(closed := true) else Track(s.log, id)
    ensures forall g :: g != h && Mortal(s, g) ==> Mortal(Close(s, h), g)
  {
    TrackSnoc(s.log, CloseCall(h, s.open[h]), id);
    forall g | g != h && Mortal(s, g) ensures Mortal(Close(s, h), g) {
      TrackSnoc(s.log, CloseCall(h, s.open[h]), s.open[g]);
    }
  }

  ghost predicate Closable(s: State, order: seq<Fd>) {
    && (forall i, j :: 0 <= i < j < |order| ==> order[i] != order[j])
    && (forall i :: 0 <= i < |order| ==> Mortal(s, order[i]))
  }

  lemma ClosableRest(s: State, order: seq<Fd>)
    requires Closable(s, order) && order != []
    ensures Closable(Close(s, order[0]), order[1..])
  {
    forall i | 0 <= i < |order[1..]| ensures Mortal(Close(s, order[0]), order[1..][i]) {
      CloseOne(s, order[0], 0);
    }
  }

  /** Closing the descriptors of `order` ends exactly their lives. */
  lemma {:induction false} CloseAllLives(s: State, order: seq<Fd>, id: nat)
    requires Closable(s, order)
    ensures var t := CloseAll(s, order);
      && t == s.(open := t.open, log := t.log)
      && t.open.Keys == s.open.Keys - (set h | h in order)
      && (forall f :: f in t.open ==> t.open[f] == s.open[f])
      && Track(t.log, id)
         == if exists i :: 0 <= i < |order| && s.open[order[i]] == id
            then Track(s.log, id).(closed := true) else Track(s.log, id)
    decreases |order|
  {
    if order != [] {
      var h, u := order[0], Close(s, order[0]);
      ClosableRest(s, order);
      CloseOne(s, h, id);
      CloseAllLives(u, order[1..], id);
      assert forall i :: 0 <= i < |order[1..]| ==> u.open[order[1..][i]] == s.open[order[i + 1]];
    }
  }

  predicate IsClose(e: Event) {
    e.CloseCall? || e.CloseOnClosed?
  }

  lemma {:induction false} CloseAllGrows(s: State, order: seq<Fd>)
    ensures s.log <= CloseAll(s, order).log
    ensures forall i :: |s.log| <= i < |CloseAll(s, order).log| ==> IsClose(CloseAll(s, order).log[i])
    decreases |order|
  {
    if order != [] {
      CloseAllGrows(Close(s, order[0]), order[1..]);
    }
  }

  lemma {:induction false} CloseAllLog(s: State, order: seq<Fd>)
    requires Closable(s, order) && Attributed(s.log) && NoBadClose(s.log)
    ensures Attributed(CloseAll(s, order).log) && NoBadClose(CloseAll(s, order).log)
    decreases |order|
  {
    if order != [] {
      ClosableRest(s, order);
      AttributedSnoc(s.log, CloseCall(order[0], s.open[order[0]]));
      CloseAllLog(Close(s, order[0]), order[1..]);
    }
  }

  /** Everything `finish` closes: the clients in the order the table is walked, then the listener. */
  function Doomed(s: State, order: seq<Fd>): seq<Fd> {
    if s.sockfd != INVALID_SOCKET then order + [s.sockfd] else order
  }

  lemma {:induction false} CloseAllSnoc(s: State, order: seq<Fd>, fd: Fd)
    ensures CloseAll(s, order + [fd]) == Close(CloseAll(s, order), fd)
    decreases |order|
  {
    if order == [] {
      assert [fd][1..] == [];
      assert order + [fd] == [fd];
    } else {
      CloseAllSnoc(Close(s, order[0]), order[1..], fd);
      assert (order + [fd])[1..] == order[1..] + [fd];
    }
  }

  lemma OpenIsMortal(s: State, f: Fd)
    requires Inv(s) && f in s.open
    ensures Mortal(s, f)
  {
    assert Conforms(s, s.open[f]);
  }

  lemma DoomedIsOpen(s: State, order: seq<Fd>)
    requires Inv(s) && Enabled(s, FinishEnd(order))
    ensures Closable(s, Doomed(s, order))
    ensures (set h | h in Doomed(s, order)) == s.open.Keys
  {
    var all := Doomed(s, order);
    forall i | 0 <= i < |all| ensures Mortal(s, all[i]) {
      OpenIsMortal(s, all[i]);
    }
    forall f | f in s.open ensures f in all {
      assert Conforms(s, s.open[f]);
      OpenIsMortal(s, f);
      assert s.sockfd != INVALID_SOCKET ==> all[|order|] == s.sockfd;
      assert forall i :: 0 <= i < |order| ==> all[i] == order[i];
    }
  }

  lemma FinishShape(s: State, order: seq<Fd>)
    requires Enabled(s, FinishEnd(order))
    ensures Next(s, FinishEnd(order)) == CloseAll(s, Doomed(s, order)).(sockfd := INVALID_SOCKET, clients := map[])
  {
    CloseAllSnoc(s, order, s.sockfd);
  }

  /** `finish` leaves nothing open: every life that began is closed. */
  lemma FinishLives(s: State, order: seq<Fd>, id: nat)
    requires Inv(s) && Enabled(s, FinishEnd(order))
    ensures var t := CloseAll(s, Doomed(s, order));
      && t.open == map[] && t.phase == s.phase && t.ids == s.ids && t.stop == s.stop
      && Track(t.log, id) == if id < s.ids then Track(s.log, id).(closed := true) else UNBORN
  {
    hide Enumerates, Doomed, Closable;
    var all := Doomed(s, order);
    DoomedIsOpen(s, order);
    CloseAllLives(s, all, id);
    assert Conforms(s, id);
    var st := Track(s.log, id);
    if id < s.ids && !st.closed {
      assert st.fd in (set h | h in all);
      var i :| 0 <= i < |all| && all[i] == st.fd;
      assert s.open[all[i]] == id;
    }
    if i :| 0 <= i < |all| && s.open[all[i]] == id {
      assert all[i] in (set h | h in all);
    }
  }

  lemma FinishConforms(s: State, order: seq<Fd>, id: nat)
    requires Inv(s) && Enabled(s, FinishEnd(order))
    ensures Conforms(Next(s, FinishEnd(order)), id)
  {
    FinishShape(s, order);
    FinishLives(s, order, id);
    assert Conforms(s, id);
    hide CloseAll, Next, Doomed;
  }

  lemma FinishStep(s: State, order: seq<Fd>)
    requires Inv(s) && Enabled(s, FinishEnd(order))
    ensures Inv(Next(s, FinishEnd(order)))
    ensures Next(s, FinishEnd(order)).open == map[] && Next(s, FinishEnd(order)).clients == map[]
  {
    hide Conforms, Enumerates, CloseAll, Doomed, Closable, Attributed, NoBadClose;
    FinishShape(s, order);
    FinishLives(s, order, 0);
    DoomedIsOpen(s, order);
    CloseAllLog(s, Doomed(s, order));
    hide Next;
    forall id: nat ensures Conforms(Next(s, FinishEnd(order)), id) {
      FinishConforms(s, order, id);
    }
  }

  /** Every action of every thread keeps the invariant. */
  lemma InvStep(s: State, a: Action)
    requires Inv(s) && Enabled(s, a)
    ensures Inv(Next(s, a))
  {
    hide Inv, Next;
    match a
    case Start(o) => if o.NoSocket? { QuietStep(s, a); } else { StartStep(s, a); }
    case Recv(_, _) => RecvStep(s, a);
    case LoopDelete => LoopDeleteStep(s);
    case PublishDisconnect => PublishStep(s, a);
    case PublishData => PublishStep(s, a);
    case PublishConnect => PublishStep(s, a);
    case Accept(_, _, _) => AcceptStep(s, a);
    case DeleteClient(h) => DeleteStep(s, h);
    case FinishEnd(order) => FinishStep(s, order);
    case _ => QuietStep(s, a);
  }

  /** Every reachable state satisfies the invariant. */
  lemma {:induction false} InvRun(s: State, run: seq<Action>)
    requires Inv(s) && CanRun(s, run)
    ensures Inv(Run(s, run))
    decreases |run|
  {
    hide Inv, Next, Enabled;
    if run != [] {
      InvStep(s, run[0]);
      InvRun(Next(s, run[0]), run[1..]);
    }
  }
}
