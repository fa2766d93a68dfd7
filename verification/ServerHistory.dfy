/** The life of one descriptor, read off the server's log, and what a well-formed life means for the
    callbacks, the bytes and the Close calls. */
module ServerHistory {
  import opened Sockets
  import opened ServerMachine

  datatype Life =
    | Unborn
    | Listening               // made by Socket
    | New                     // accepted, connect not yet published
    | Active                  // connect published
    | Pending(data: seq<Byte>)// received, not yet published
    | AtEof                   // Recv returned 0, disconnect not yet published
    | Done                    // disconnect published
    | Wrong

  /** `released`: its disconnect was published or a caller deleted it. */
  datatype Status = Status(life: Life, fd: Fd, closed: bool, released: bool)

  const UNBORN := Status(Unborn, INVALID_SOCKET, false, false)

  predicate IsAbout(e: Event, id: nat) {
    !e.AcceptCall? && !e.RecvOnClosed? && !e.CloseOnClosed? && e.id == id
  }

  /** The life continued by an event about it; anything out of order makes it Wrong for good. */
  function Continue(st: Status, e: Event): Status {
    var wrong := st.(life := Wrong);
    match e
    case SocketCall(fd, _) => if st == UNBORN then Status(Listening, fd, false, false) else wrong
    case Accepted(fd, _, _, _) => if st == UNBORN then Status(New, fd, false, false) else wrong
    case Connect(fd, _) => if st.life.New? && fd == st.fd then st.(life := Active) else wrong
    case RecvCall(fd, _, n, data) =>
      if !st.life.Active? || fd != st.fd || st.closed || !RecvResult(n, data) then wrong
      else if n < 0 then st
      else st.(life := if n == 0 then AtEof else Pending(data))
    case Data(fd, _, data) => if st.life == Pending(data) && fd == st.fd then st.(life := Active) else wrong
    case Disconnect(fd, _) =>
      if st.life.AtEof? && fd == st.fd && st.closed then st.(life := Done, released := true) else wrong
    case CloseCall(fd, _) =>
      if !st.life.Unborn? && fd == st.fd && !st.closed then st.(closed := true) else wrong
    case Deleted(fd, _) =>
      if !st.life.Unborn? && fd == st.fd && st.closed && !st.released then st.(released := true) else wrong
    case _ => st
  }

  function Track(log: seq<Event>, id: nat): Status {
    if log == [] then UNBORN
    else
      var e, before := log[|log| - 1], Track(log[..|log| - 1], id);
      if IsAbout(e, id) then Continue(before, e) else before
  }

  lemma TrackSnoc(log: seq<Event>, e: Event, id: nat)
    ensures Track(log + [e], id) == if IsAbout(e, id) then Continue(Track(log, id), e) else Track(log, id)
  {
    assert (log + [e])[..|log|] == log;
  }

  predicate IsCallback(e: Event) {
    e.Connect? || e.Data? || e.Disconnect?
  }

  /** The callbacks made for one connection. */
  function Callbacks(log: seq<Event>, id: nat): seq<Event> {
    if log == [] then []
    else
      var e, before := log[|log| - 1], Callbacks(log[..|log| - 1], id);
      if IsCallback(e) && e.id == id then before + [e] else before
  }

  /** One connect, then data, then at most one disconnect, all for the same handle. */
  predicate CallbackProtocol(es: seq<Event>, fd: Fd, id: nat) {
    es != [] ==>
      && es[0] == Connect(fd, id)
      && (forall i :: 0 < i < |es| ==>
            (es[i].Data? || (es[i].Disconnect? && i == |es| - 1)) && es[i].fd == fd)
  }

  /** The protocol, continued by one more callback. */
  lemma ProtocolSnoc(es: seq<Event>, e: Event, fd: Fd, id: nat)
    requires CallbackProtocol(es, fd, id) && IsCallback(e) && e.fd == fd && e.id == id
    requires if es == [] then e.Connect? else (e.Data? || e.Disconnect?) && !es[|es| - 1].Disconnect?
    ensures CallbackProtocol(es + [e], fd, id)
  {
    var es' := es + [e];
    assert es != [] ==> es'[0] == es[0];
  }

  /** Every life that is not Wrong has a protocol-conforming callback sequence; it is empty before the
      connect and complete once the life is Done. */
  lemma {:induction false} CallbacksOfLife(log: seq<Event>, id: nat)
    requires !Track(log, id).life.Wrong?
    ensures var st, es := Track(log, id), Callbacks(log, id);
      && CallbackProtocol(es, st.fd, id)
      && (es == [] <==> st.life.Unborn? || st.life.Listening? || st.life.New?)
      && (st.life.Done? <==> es != [] && es[|es| - 1].Disconnect?)
  {
    if log != [] {
      var e, before := log[|log| - 1], log[..|log| - 1];
      CallbacksOfLife(before, id);
      if IsCallback(e) && e.id == id {
        ProtocolSnoc(Callbacks(before, id), e, Track(before, id).fd, id);
        hide CallbackProtocol;
      }
    }
  }

  /** The bytes received from, and those published for, one connection. */
  function Received(log: seq<Event>, id: nat): seq<Byte> {
    if log == [] then []
    else
      var e, before := log[|log| - 1], Received(log[..|log| - 1], id);
      if e.RecvCall? && e.id == id then before + e.data else before
  }

  function Published(log: seq<Event>, id: nat): seq<Byte> {
    if log == [] then []
    else
      var e, before := log[|log| - 1], Published(log[..|log| - 1], id);
      if e.Data? && e.id == id then before + e.data else before
  }

  /** Byte conservation: what was received is what was published, in order, up to the one chunk that is
      about to be. */
  lemma {:induction false} BytesOfLife(log: seq<Event>, id: nat)
    requires !Track(log, id).life.Wrong?
    ensures var st := Track(log, id);
      && Received(log, id) == Published(log, id) + (if st.life.Pending? then st.life.data else [])
      && (st.life.Pending? ==> 1 <= |st.life.data| <= MAX_PACKET_SIZE)
  {
    if log != [] {
      BytesOfLife(log[..|log| - 1], id);
    }
  }

  lemma {:induction false} ChunksOfLife(log: seq<Event>, id: nat, i: nat)
    requires !Track(log, id).life.Wrong? && i < |log| && log[i].Data? && log[i].id == id
    ensures 1 <= |log[i].data| <= MAX_PACKET_SIZE
  {
    var before := log[..|log| - 1];
    if i < |before| {
      assert before[i] == log[i];
      ChunksOfLife(before, id, i);
    } else {
      BytesOfLife(before, id);
    }
  }

  function Closes(log: seq<Event>, id: nat): nat {
    if log == [] then 0
    else
      var e, before := log[|log| - 1], Closes(log[..|log| - 1], id);
      if e.CloseCall? && e.id == id then before + 1 else before
  }

  lemma {:induction false} ClosesOfLife(log: seq<Event>, id: nat)
    requires !Track(log, id).life.Wrong?
    ensures Closes(log, id) == if Track(log, id).closed then 1 else 0
  {
    if log != [] {
      ClosesOfLife(log[..|log| - 1], id);
    }
  }

  /** The connection that a handle stands for, to someone who only sees the callbacks. */
  function LastConnect(log: seq<Event>, fd: Fd): int {
    if log == [] then -1
    else
      var e := log[|log| - 1];
      if e.Connect? && e.fd == fd then e.id else LastConnect(log[..|log| - 1], fd)
  }

  lemma LastConnectSnoc(log: seq<Event>, e: Event, fd: Fd)
    ensures LastConnect(log + [e], fd) == if e.Connect? && e.fd == fd then e.id else LastConnect(log, fd)
  {
    assert (log + [e])[..|log|] == log;
  }

  /** Data and disconnects are published for the connection last announced under their handle. */
  ghost predicate Attributed(log: seq<Event>) {
    forall i :: 0 <= i < |log| && (log[i].Data? || log[i].Disconnect?) ==> LastConnect(log[..i], log[i].fd) == log[i].id
  }

  lemma AttributedSnoc(log: seq<Event>, e: Event)
    requires Attributed(log)
    requires e.Data? || e.Disconnect? ==> LastConnect(log, e.fd) == e.id
    ensures Attributed(log + [e])
  {
    forall i | 0 <= i < |log + [e]| && ((log + [e])[i].Data? || (log + [e])[i].Disconnect?)
      ensures LastConnect((log + [e])[..i], (log + [e])[i].fd) == (log + [e])[i].id
    {
      assert (log + [e])[..i] == log[..i];
      if i == |log| {
        assert log[..i] == log;
      }
    }
  }

  ghost predicate WasAccepted(log: seq<Event>, id: nat) {
    exists i :: 0 <= i < |log| && log[i].Accepted? && log[i].id == id
  }

  ghost predicate WasAnnounced(log: seq<Event>, id: nat) {
    exists i :: 0 <= i < |log| && log[i].Connect? && log[i].id == id
  }

  /** Recv returned 0 on it. */
  ghost predicate HasEnded(log: seq<Event>, id: nat) {
    exists i :: 0 <= i < |log| && log[i].RecvCall? && log[i].id == id && log[i].n == 0
  }

  ghost predicate WasDisconnected(log: seq<Event>, id: nat) {
    exists i :: 0 <= i < |log| && log[i].Disconnect? && log[i].id == id
  }

  lemma MarksSnoc(log: seq<Event>, e: Event, id: nat)
    ensures WasAccepted(log + [e], id) <==> WasAccepted(log, id) || (e.Accepted? && e.id == id)
    ensures WasAnnounced(log + [e], id) <==> WasAnnounced(log, id) || (e.Connect? && e.id == id)
    ensures HasEnded(log + [e], id) <==> HasEnded(log, id) || (e.RecvCall? && e.id == id && e.n == 0)
    ensures WasDisconnected(log + [e], id) <==> WasDisconnected(log, id) || (e.Disconnect? && e.id == id)
  {
    var log' := log + [e];
    assert log'[|log|] == e;
    assert forall i :: 0 <= i < |log| ==> log'[i] == log[i];
  }

  /** How far a life has come is what the log says has happened. */
  lemma {:induction false} MarksOfLife(log: seq<Event>, id: nat)
    requires !Track(log, id).life.Wrong?
    ensures var life := Track(log, id).life;
      && (WasAccepted(log, id) <==> !life.Unborn? && !life.Listening?)
      && (WasAnnounced(log, id) <==> life.Active? || life.Pending? || life.AtEof? || life.Done?)
      && (HasEnded(log, id) <==> life.AtEof? || life.Done?)
      && (WasDisconnected(log, id) <==> life.Done?)
  {
    if log != [] {
      var e, before := log[|log| - 1], log[..|log| - 1];
      assert log == before + [e];
      MarksOfLife(before, id);
      MarksSnoc(before, e, id);
      hide WasAccepted, WasAnnounced, HasEnded, WasDisconnected;
    }
  }
}
