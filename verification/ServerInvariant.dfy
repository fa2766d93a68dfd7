/** What every action of the server machine keeps, for every interleaving. */
module ServerInvariant {
  import opened Sockets
  import opened ServerMachine
  import opened ServerHistory

  predicate LoopRuns(s: State) {
    s.phase.Top? || s.phase.Selecting? || s.phase.Scanning?
  }

  /** The connection being set up by the loop thread. */
  predicate Joining(s: State, fd: Fd, id: nat) {
    s.phase.Scanning? && match s.phase.stage
                         case Accepting(f, i, _, _) => f == fd && i == id
                         case Stored(f, i) => f == fd && i == id
                         case Armed(f, i) => f == fd && i == id
                         case _ => false
  }

  /** The connection whose end the loop thread is about to publish. */
  predicate Leaving(s: State, fd: Fd, id: nat) {
    s.phase.Scanning? && s.phase.fd == fd && (s.phase.stage == Ended(id) || s.phase.stage == Dropped(id))
  }

  predicate Delivering(s: State, fd: Fd, id: nat, data: seq<Byte>) {
    s.phase.Scanning? && s.phase.fd == fd && s.phase.stage == Got(id, data)
  }

  /** The stage does not speak of descriptor `id`. */
  predicate Unstaged(s: State, id: nat) {
    s.phase.Scanning? ==> match s.phase.stage
                          case Ended(i) => i != id
                          case Dropped(i) => i != id
                          case Got(i, _) => i != id
                          case Accepting(_, i, _, _) => i != id
                          case Stored(_, i) => i != id
                          case Armed(_, i) => i != id
                          case _ => true
  }

  /** The life of descriptor `id` in the log is the one the state says it has. */
  ghost predicate Conforms(s: State, id: nat) {
    var st := Track(s.log, id);
    if id >= s.ids then st == UNBORN && Unstaged(s, id)
    else
      && !st.life.Unborn? && !st.life.Wrong?
      && (!st.closed <==> st.fd in s.open && s.open[st.fd] == id)
      && (st.life.Listening? && !st.closed ==> st.fd == s.sockfd)
      && (!st.life.Listening? && !st.closed ==> st.fd in s.clients || Joining(s, st.fd, id))
      && (if st.life.New? then Joining(s, st.fd, id)
          else if st.life.Pending? then Delivering(s, st.fd, id, st.life.data)
          else if st.life.AtEof? then Leaving(s, st.fd, id)
          else Unstaged(s, id))
      && (s.phase.Scanning? && s.phase.stage == Dropped(id) ==> st.closed)
      && (st.life.Done? ==> st.closed && st.released)
      && (st.released ==> st.closed)
      && (st.closed && !st.life.Listening? && LoopRuns(s) ==>
            st.released || (s.phase.Scanning? && s.phase.stage == Dropped(id)))
      && ((st.life.Active? && !st.closed) || st.life.Pending? || st.life.AtEof? ==> LastConnect(s.log, st.fd) == id)
  }

  ghost predicate Table(s: State) {
    && (forall h :: h in s.clients ==> h in s.open && s.clients[h].sockfd == h && h != s.sockfd)
    && (forall f :: f in s.open ==> f >= 0 && s.open[f] < s.ids && Track(s.log, s.open[f]).fd == f)
    && (s.sockfd != INVALID_SOCKET ==> s.sockfd in s.open && Track(s.log, s.open[s.sockfd]).life.Listening?)
    && (LoopRuns(s) ==> s.sockfd != INVALID_SOCKET)
    && (s.phase.Fresh? ==> s.sockfd == INVALID_SOCKET && s.open == map[] && s.clients == map[] && s.ids == 0)
    && (s.phase.Scanning? ==> StageFacts(s, s.phase.fd, s.phase.stage))
  }

  /** What the loop thread's locals still say about the table. */
  predicate StageFacts(s: State, fd: Fd, stage: Stage) {
    match stage
    case Found => fd != s.sockfd && (fd in s.open ==> fd in s.clients)
    case Ended(id) => fd != s.sockfd && (fd in s.open ==> fd in s.clients && s.open[fd] == id)
    case Got(id, _) => fd != s.sockfd
    case Dropped(id) => fd !in s.open
    case Accepting(f, id, _, _) => f in s.open && s.open[f] == id && f !in s.clients && f != s.sockfd
    case Stored(f, id) => f != s.sockfd && (f in s.open ==> s.open[f] == id && f in s.clients)
    case Armed(f, id) => f != s.sockfd && (f in s.open ==> s.open[f] == id && f in s.clients)
    case _ => true
  }

  ghost predicate NoBadClose(log: seq<Event>) {
    forall i :: 0 <= i < |log| ==> !log[i].CloseOnClosed?
  }

  ghost predicate Inv(s: State) {
    && Table(s)
    && (forall id: nat {:trigger Conforms(s, id)} :: Conforms(s, id))
    && Attributed(s.log)
    && NoBadClose(s.log)
  }

  lemma InvInit()
    ensures Inv(INIT)
  {
    assert forall id: nat :: Conforms(INIT, id);
  }
}
