/**
 * The whole hand-off: one acceptor running Server::handle_accept over the indirection table of
 * LoadBalancer, any number of workers each with its own channel (Handoff.dfy), and the descriptor
 * numbers that the kernel hands out and takes back.
 *
 * The model keeps, for each worker, the keys of `session_map` and what the worker is doing with
 * the descriptor in its hands; what the sessions themselves do is in Connection.dfy. The kernel
 * returns from accept4 only numbers that are not open.
 */
module Dispatch {
  import opened Bits
  import opened CircularQueues
  import opened Handoff
  import L = LoadBalancers

  /** The acceptor, between accept4 calls and inside one iteration of handle_accept. */
  datatype Server =
    | Listening
    | Scanning(sock: nat, start: nat, seen: nat)  // `seen` workers from `start` on have answered full
    | Enqueuing(sock: nat, to: nat)
    | Closing(sock: nat)

  /** What a worker is doing with a descriptor. */
  datatype Desk =
    | Free
    | Kept                // the session of the socket being handled is in the map
    | Erasing(sock: int)  // closed, its map entry not yet erased
    | Done                // this iteration of handle_new_connections is over

  datatype Sys = Sys(
    table: seq<nat>, chans: seq<Chan>, srv: Server,
    open: set<int>,                          // client descriptors open in the kernel
    maps: seq<set<int>>, desks: seq<Desk>,   // per worker
    accepted: seq<int>, rejected: seq<int>)  // every accept4 result; those closed by the acceptor

  datatype Event =
    | Accept(sock: nat)                        // accept4 returns a number that is not open
    | Move                                   // the acceptor's next step in is_full or enqueue_sock
    | Reject                                 // the acceptor's close
    | Work(w: nat, a: Action)                // a step of the worker's side of the channel
    | InitFails(w: nat)                      // init_session_data failed: close
    | Emplace(w: nat)                        // session_map.emplace
    | Keep(w: nat)                           // handshake pending or connection established
    | Drop(w: nat)                           // disconnect_from_client on the new session: close
    | ClientGone(w: nat, fd: int)            // disconnect_from_client on a session of the map: close
    | Erase(w: nat)                          // session_map.erase

  /** The worker that the acceptor is dealing with. */
  function Target(s: Sys): nat
    requires s.srv.Scanning? || s.srv.Enqueuing?
  {
    if s.srv.Scanning? then Wrap(s.srv.start + s.srv.seen, |s.chans|) else s.srv.to
  }

  function MoveAction(sock: nat, acc: AcceptorPc): Action {
    match acc
    case Idle => TestTail
    case Testing(_) => TestHead
    case Room => Enter(sock)
    case Entered(_) => LoadTail
    case TailLoaded(_, _) => LoadHead
    case RoomSeen(_, _) => WriteSlot
    case SlotWritten(_, _) => StoreTail
    case Published => ClaimFlag
    case Claimed => WriteEvent
    case Refused(_) => TestTail
  }

  predicate Can(fenced: bool, s: Sys, e: Event) {
    && |s.chans| == |s.maps| == |s.desks|
    && match e
       case Accept(sock) => s.srv.Listening? && sock !in s.open && s.table != []
       case Move =>
         && (s.srv.Scanning? || s.srv.Enqueuing?) && Target(s) < |s.chans| && s.table != []
         && s.chans[Target(s)].ring.capacity > 0
         && Enabled(fenced, s.chans[Target(s)], MoveAction(s.srv.sock, s.chans[Target(s)].acc))
       case Reject => s.srv.Closing?
       case Work(w, a) =>
         && w < |s.chans| && !ByAcceptor(a) && s.chans[w].ring.capacity > 0 && Enabled(fenced, s.chans[w], a)
         && (a.Handled? ==> s.desks[w].Done?) && (a.TakeSignal? || a.Sleep? ==> s.desks[w].Free?)
       case InitFails(w) => w < |s.chans| && s.chans[w].wrk.Handling? && s.desks[w].Free?
       case Emplace(w) => w < |s.chans| && s.chans[w].wrk.Handling? && s.desks[w].Free?
       case Keep(w) => w < |s.chans| && s.desks[w].Kept?
       case Drop(w) => w < |s.chans| && s.chans[w].wrk.Handling? && s.desks[w].Kept?
       case ClientGone(w, sock) => w < |s.chans| && s.chans[w].wrk.Batch? && s.desks[w].Free? && sock in s.maps[w]
       case Erase(w) => w < |s.chans| && s.desks[w].Erasing?
  }

  function ApplyMove(s: Sys): Sys
    requires Can(false, s, Move)
  {
    var at, sock := Target(s), s.srv.sock;
    var c := DoAcceptor(s.chans[at], MoveAction(sock, s.chans[at].acc));
    match s.srv
    case Scanning(_, start, seen) =>
      if c.acc.Testing? then s.(chans := s.chans[at := c])
      else if c.acc.Room? then
        s.(chans := s.chans[at := c], table := s.table[sock % |s.table| := at], srv := Enqueuing(sock, at))
      else
        s.(chans := s.chans[at := c],
           srv := if seen + 1 < |s.chans| then Scanning(sock, start, seen + 1) else Closing(sock))
    case Enqueuing(_, _) =>
      if c.acc.Idle? then s.(chans := s.chans[at := c], srv := Listening)
      else if c.acc.Refused? then s.(chans := s.chans[at := c.(acc := Idle)], srv := Closing(sock))
      else s.(chans := s.chans[at := c])
  }

  function Apply(s: Sys, e: Event): Sys
    requires Can(false, s, e)
  {
    match e
    case Accept(sock) =>
      s.(open := s.open + {sock}, accepted := s.accepted + [sock],
         srv := Scanning(sock, s.table[sock % |s.table|], 0))
    case Move => ApplyMove(s)
    case Reject => s.(open := s.open - {s.srv.sock}, rejected := s.rejected + [s.srv.sock], srv := Listening)
    case Work(w, a) =>
      s.(chans := s.chans[w := DoWorker(s.chans[w], a)], desks := if a.Handled? then s.desks[w := Free] else s.desks)
    case InitFails(w) => s.(open := s.open - {s.chans[w].wrk.sock}, desks := s.desks[w := Done])
    case Emplace(w) => s.(maps := s.maps[w := s.maps[w] + {s.chans[w].wrk.sock}], desks := s.desks[w := Kept])
    case Keep(w) => s.(desks := s.desks[w := Done])
    case Drop(w) =>
      s.(open := s.open - {s.chans[w].wrk.sock}, desks := s.desks[w := Erasing(s.chans[w].wrk.sock)])
    case ClientGone(w, sock) => s.(open := s.open - {sock}, desks := s.desks[w := Erasing(sock)])
    case Erase(w) =>
      s.(maps := s.maps[w := s.maps[w] - {s.desks[w].sock}],
         desks := s.desks[w := if s.chans[w].wrk.Handling? then Done else Free])
  }

  predicate CanAll(fenced: bool, s: Sys, run: seq<Event>)
    decreases |run|
  {
    run == [] || (Can(fenced, s, run[0]) && CanAll(fenced, Apply(s, run[0]), run[1..]))
  }

  function Final(fenced: bool, s: Sys, run: seq<Event>): Sys
    requires CanAll(fenced, s, run)
    decreases |run|
  {
    if run == [] then s else Final(fenced, Apply(s, run[0]), run[1..])
  }

  /** The state in which listen_and_serve enters its loop. */
  ghost predicate Start(s: Sys) {
    && |s.chans| == |s.maps| == |s.desks| > 0 && s.table != [] && s.srv == Listening
    && s.open == {} && s.accepted == [] && s.rejected == []
    && (forall i :: 0 <= i < |s.table| ==> s.table[i] < |s.chans|)
    && (forall w :: 0 <= w < |s.chans| ==>
          Init(s.chans[w]) && IsPow2(s.chans[w].ring.capacity) && s.maps[w] == {} && s.desks[w] == Free)
  }

  // ---------------------------------------------------------------- control

  /** Where the acceptor may stand with respect to worker `w`. */
  predicate AcceptorAt(s: Sys, w: nat)
    requires w < |s.chans|
  {
    var acc := s.chans[w].acc;
    match s.srv
    case Scanning(_, start, seen) =>
      if w == Wrap(start + seen, |s.chans|) then acc.Idle? || acc.Testing? else acc.Idle?
    case Enqueuing(sock, to) =>
      if w == to then
        && !acc.Idle? && !acc.Testing? && !acc.Refused?
        && (acc.Entered? || acc.TailLoaded? || acc.RoomSeen? || acc.SlotWritten? ==> acc.sock == sock)
      else acc.Idle?
    case _ => acc.Idle?
  }

  predicate DeskAt(s: Sys, w: nat)
    requires w < |s.chans| == |s.maps| == |s.desks|
  {
    match s.desks[w]
    case Free => true
    case Kept => s.chans[w].wrk.Handling? && s.chans[w].wrk.sock in s.maps[w]
    case Erasing(sock) =>
      sock in s.maps[w] && (s.chans[w].wrk.Batch? || s.chans[w].wrk == Handling(sock))
    case Done => s.chans[w].wrk.Handling?
  }

  ghost predicate ChansInv(fenced: bool, chans: seq<Chan>) {
    forall w :: 0 <= w < |chans| ==> Inv(fenced, chans[w])
  }

  predicate PositionInv(s: Sys) {
    && |s.chans| == |s.maps| == |s.desks| > 0 && s.table != []
    && (forall i :: 0 <= i < |s.table| ==> s.table[i] < |s.chans|)
    && (s.srv.Scanning? ==> s.srv.start < |s.chans| && s.srv.seen < |s.chans|)
    && (s.srv.Enqueuing? ==> s.srv.to < |s.chans|)
    && (forall w :: 0 <= w < |s.chans| ==> AcceptorAt(s, w))
    && (forall w :: 0 <= w < |s.chans| ==> DeskAt(s, w))
  }

  ghost predicate ControlInv(fenced: bool, s: Sys) {
    PositionInv(s) && ChansInv(fenced, s.chans)
  }

  function Moved(s: Sys): Chan
    requires (s.srv.Scanning? || s.srv.Enqueuing?) && Target(s) < |s.chans| && s.chans[Target(s)].ring.capacity > 0
    requires Enabled(false, s.chans[Target(s)], MoveAction(s.srv.sock, s.chans[Target(s)].acc))
  {
    DoAcceptor(s.chans[Target(s)], MoveAction(s.srv.sock, s.chans[Target(s)].acc))
  }

  lemma MovedChans(s: Sys)
    requires Can(false, s, Move) && !Moved(s).acc.Refused?
    ensures Apply(s, Move).chans == s.chans[Target(s) := Moved(s)]
  {
  }

  lemma AcceptorStepInv(fenced: bool, c: Chan, a: Action)
    requires Inv(fenced, c) && ByAcceptor(a) && Enabled(fenced, c, a)
    ensures Inv(fenced, DoAcceptor(c, a)) && !DoAcceptor(c, a).acc.Refused?
  {
    StepInv(fenced, c, a);
  }

  lemma UpdatedChans(fenced: bool, chans: seq<Chan>, at: nat, c: Chan)
    requires ChansInv(fenced, chans) && at < |chans| && Inv(fenced, c)
    ensures ChansInv(fenced, chans[at := c])
  {
  }

  /** A move never ends in a refusal: is_full's answer still holds when push looks again. */
  lemma MoveKeepsChans(fenced: bool, s: Sys)
    requires ControlInv(fenced, s) && Can(fenced, s, Move)
    ensures ChansInv(fenced, Apply(s, Move).chans) && !Moved(s).acc.Refused?
  {
    AcceptorStepInv(fenced, s.chans[Target(s)], MoveAction(s.srv.sock, s.chans[Target(s)].acc));
    MovedChans(s);
    UpdatedChans(fenced, s.chans, Target(s), Moved(s));
  }

  /** How one acceptor step moves its position. */
  lemma MovedPosition(s: Sys)
    requires PositionInv(s) && Can(false, s, Move) && !Moved(s).acc.Refused?
    ensures Moved(s).wrk == s.chans[Target(s)].wrk
    ensures s.srv.Scanning? ==> Moved(s).acc.Idle? || Moved(s).acc.Testing? || Moved(s).acc.Room?
    ensures s.srv.Enqueuing? ==> var acc := Moved(s).acc;
              && !acc.Testing?
              && (acc.Entered? || acc.TailLoaded? || acc.RoomSeen? || acc.SlotWritten? ==> acc.sock == s.srv.sock)
  {
    assert AcceptorAt(s, Target(s));
  }

  lemma MoveKeepsPositions(s: Sys)
    requires PositionInv(s) && Can(false, s, Move) && !Moved(s).acc.Refused?
    ensures PositionInv(Apply(s, Move))
  {
    MovedPosition(s);
    var s' := Apply(s, Move);
    forall w | 0 <= w < |s.chans| ensures AcceptorAt(s', w) && DeskAt(s', w) {
      assert AcceptorAt(s, w) && DeskAt(s, w);
    }
  }

  lemma WorkKeepsPositions(s: Sys, w: nat, a: Action)
    requires PositionInv(s) && Can(false, s, Work(w, a))
    ensures PositionInv(Apply(s, Work(w, a)))
  {
    var s' := Apply(s, Work(w, a));
    assert s'.chans[w].acc == s.chans[w].acc;
    forall v | 0 <= v < |s.chans| ensures AcceptorAt(s', v) && DeskAt(s', v) {
      assert AcceptorAt(s, v) && DeskAt(s, v);
    }
  }

  lemma DeskKeepsPositions(s: Sys, e: Event)
    requires PositionInv(s) && Can(false, s, e) && !e.Move? && !e.Work?
    ensures PositionInv(Apply(s, e)) && Apply(s, e).chans == s.chans
  {
    var s' := Apply(s, e);
    forall v | 0 <= v < |s.chans| ensures AcceptorAt(s', v) && DeskAt(s', v) {
      assert AcceptorAt(s, v) && DeskAt(s, v);
    }
  }

  lemma KeepsControl(fenced: bool, s: Sys, e: Event)
    requires ControlInv(fenced, s) && Can(fenced, s, e)
    ensures ControlInv(fenced, Apply(s, e))
  {
    if e.Move? {
      MoveKeepsChans(fenced, s);
      MoveKeepsPositions(s);
    } else if e.Work? {
      StepInv(fenced, s.chans[e.w], e.a);
      WorkKeepsPositions(s, e.w, e.a);
    } else {
      DeskKeepsPositions(s, e);
    }
  }

  // ---------------------------------------------------------------- who owns a descriptor

  datatype Place = AtAcceptor | Queued(w: nat, i: nat) | InHand(w: nat) | InMap(w: nat)

  /** The acceptor holds a socket that it has neither closed nor published. */
  predicate Carries(s: Sys, fd: int) {
    match s.srv
    case Listening => false
    case Scanning(sock, _, _) => sock == fd
    case Closing(sock) => sock == fd
    case Enqueuing(sock, to) =>
      sock == fd && to < |s.chans| && !s.chans[to].acc.Published? && !s.chans[to].acc.Claimed?
  }

  predicate Owns(s: Sys, p: Place, fd: int) {
    match p
    case AtAcceptor => Carries(s, fd)
    case Queued(w, i) =>
      w < |s.chans| && |s.chans[w].ring.taken| <= i < |s.chans[w].ring.sent| && s.chans[w].ring.sent[i] == fd
    case InHand(w) => w < |s.chans| == |s.desks| && s.chans[w].wrk == Handling(fd) && s.desks[w].Free?
    case InMap(w) => w < |s.maps| == |s.desks| && fd in s.maps[w] && s.desks[w] != Erasing(fd)
  }

  /** `own` gives every open descriptor its one owner. */
  ghost predicate Tracks(s: Sys, own: map<int, Place>) {
    && own.Keys == s.open
    && (forall p, fd :: Owns(s, p, fd) <==> fd in own && own[fd] == p)
  }

  lemma TracksAcceptor(s: Sys, e: Event, own: map<int, Place>) returns (own': map<int, Place>)
    requires PositionInv(s) && Tracks(s, own) && Can(false, s, e) && (e.Accept? || e.Reject?)
    ensures Tracks(Apply(s, e), own')
    ensures e.Reject? ==> s.srv.sock in s.open
  {
    var s' := Apply(s, e);
    if e.Accept? {
      own' := own[e.sock := AtAcceptor];
    } else {
      assert Owns(s, AtAcceptor, s.srv.sock);
      own' := own - {s.srv.sock};
    }
    forall p, fd ensures Owns(s', p, fd) <==> fd in own' && own'[fd] == p {
      assert Owns(s, p, fd) <==> fd in own && own[fd] == p;
    }
  }

  /** What an acceptor step does to the stream: it publishes its socket or leaves the stream alone. */
  lemma MoveEffect(s: Sys)
    requires PositionInv(s) && Can(false, s, Move) && !Moved(s).acc.Refused?
    ensures var c, c' := s.chans[Target(s)], Moved(s);
            && c'.wrk == c.wrk && c'.ring.taken == c.ring.taken
            && c'.ring.sent == (if c.acc.SlotWritten? then c.ring.sent + [s.srv.sock] else c.ring.sent)
            && (s.srv.Scanning? ==> c'.acc.Idle? || c'.acc.Testing? || c'.acc.Room?)
            && (s.srv.Enqueuing? && (c.acc.SlotWritten? || c.acc.Published? || c.acc.Claimed?)
                ==> c'.acc.Published? || c'.acc.Claimed? || c'.acc.Idle?)
            && (s.srv.Enqueuing? && c.acc.SlotWritten? ==> c'.acc.Published?)
            && (s.srv.Enqueuing? && !c.acc.SlotWritten? && !c.acc.Published? && !c.acc.Claimed?
                ==> !c'.acc.Published? && !c'.acc.Claimed? && !c'.acc.Idle?)
  {
    assert AcceptorAt(s, Target(s));
  }

  lemma MoveResult(s: Sys)
    requires PositionInv(s) && Can(false, s, Move) && !Moved(s).acc.Refused?
    ensures var s', at := Apply(s, Move), Target(s);
            && s'.chans == s.chans[at := Moved(s)] && s'.maps == s.maps && s'.desks == s.desks && s'.open == s.open
            && s'.accepted == s.accepted && s'.rejected == s.rejected
            && (Carries(s', s.srv.sock) <==> Carries(s, s.srv.sock) && !s.chans[at].acc.SlotWritten?)
            && (forall fd :: fd != s.srv.sock ==> !Carries(s, fd) && !Carries(s', fd))
            && (s.chans[at].acc.SlotWritten? ==> Carries(s, s.srv.sock))
  {
    MoveEffect(s);
    assert AcceptorAt(s, Target(s));
  }

  lemma TracksMove(s: Sys, own: map<int, Place>) returns (own': map<int, Place>)
    requires PositionInv(s) && Tracks(s, own) && Can(false, s, Move) && !Moved(s).acc.Refused?
    requires |s.chans[Target(s)].ring.taken| <= |s.chans[Target(s)].ring.sent|
    ensures Tracks(Apply(s, Move), own')
  {
    MoveEffect(s);
    MoveResult(s);
    var s', at := Apply(s, Move), Target(s);
    if s.chans[at].acc.SlotWritten? {
      own' := own[s.srv.sock := Queued(at, |s.chans[at].ring.sent|)];
      assert Owns(s, AtAcceptor, s.srv.sock);
    } else {
      own' := own;
    }
    forall p, fd ensures Owns(s', p, fd) <==> fd in own' && own'[fd] == p {
      assert Owns(s, p, fd) <==> fd in own && own[fd] == p;
    }
  }

  /** What a worker step does to the stream: it takes the next socket or leaves the stream alone. */
  lemma WorkEffect(fenced: bool, c: Chan, a: Action)
    requires Inv(fenced, c) && !ByAcceptor(a) && Enabled(fenced, c, a)
    ensures var c' := DoWorker(c, a);
            && c'.acc == c.acc && c'.ring.sent == c.ring.sent
            && (if a.PopHead? then
                  && |c.ring.taken| < |c.ring.sent|
                  && c'.ring.taken == c.ring.taken + [c.ring.sent[|c.ring.taken|]]
                  && c'.wrk == Handling(c.ring.sent[|c.ring.taken|]) && !c.wrk.Handling? && !c.wrk.Batch?
                else c'.ring.taken == c.ring.taken && (a.Handled? || (c'.wrk.Handling? <==> c.wrk.Handling?)))
            && (a.Handled? ==> !c'.wrk.Handling?)
            && (c'.wrk.Handling? && c.wrk.Handling? ==> c'.wrk == c.wrk)
  {
    if a.PopTail? { EmptyTest(c.ring); }
  }

  lemma TracksWork(fenced: bool, s: Sys, w: nat, a: Action, own: map<int, Place>) returns (own': map<int, Place>)
    requires PositionInv(s) && Tracks(s, own) && Can(fenced, s, Work(w, a)) && Inv(fenced, s.chans[w])
    ensures Tracks(Apply(s, Work(w, a)), own')
  {
    var s', c := Apply(s, Work(w, a)), s.chans[w];
    WorkEffect(fenced, c, a);
    assert DeskAt(s, w);
    if a.PopHead? {
      var sock := c.ring.sent[|c.ring.taken|];
      assert Owns(s, Queued(w, |c.ring.taken|), sock);
      own' := own[sock := InHand(w)];
    } else {
      own' := own;
    }
    forall p, fd ensures Owns(s', p, fd) <==> fd in own' && own'[fd] == p {
      assert Owns(s, p, fd) <==> fd in own && own[fd] == p;
    }
  }

  /** Emplacing never meets an existing key, and every close is of an open descriptor. */
  lemma TracksDesk(s: Sys, e: Event, own: map<int, Place>) returns (own': map<int, Place>)
    requires PositionInv(s) && Tracks(s, own) && Can(false, s, e)
    requires e.InitFails? || e.Emplace? || e.Keep? || e.Drop? || e.ClientGone? || e.Erase?
    ensures Tracks(Apply(s, e), own')
    ensures e.Emplace? ==> s.chans[e.w].wrk.sock !in s.maps[e.w]
    ensures e.InitFails? || e.Drop? ==> s.chans[e.w].wrk.sock in s.open
    ensures e.ClientGone? ==> e.fd in s.open
  {
    var s', w := Apply(s, e), e.w;
    assert DeskAt(s, w);
    own' := own;
    if e.InitFails? {
      assert Owns(s, InHand(w), s.chans[w].wrk.sock);
      own' := own - {s.chans[w].wrk.sock};
    } else if e.Emplace? {
      assert Owns(s, InHand(w), s.chans[w].wrk.sock);
      assert !Owns(s, InMap(w), s.chans[w].wrk.sock);
      own' := own[s.chans[w].wrk.sock := InMap(w)];
    } else if e.Drop? {
      assert Owns(s, InMap(w), s.chans[w].wrk.sock);
      own' := own - {s.chans[w].wrk.sock};
    } else if e.ClientGone? {
      assert Owns(s, InMap(w), e.fd);
      own' := own - {e.fd};
    }
    forall p, fd ensures Owns(s', p, fd) <==> fd in own' && own'[fd] == p {
      assert Owns(s, p, fd) <==> fd in own && own[fd] == p;
    }
  }

  lemma TracksStep(fenced: bool, s: Sys, e: Event, own: map<int, Place>) returns (own': map<int, Place>)
    requires ControlInv(fenced, s) && Tracks(s, own) && Can(fenced, s, e)
    ensures Tracks(Apply(s, e), own')
  {
    match e
    case Accept(_) => own' := TracksAcceptor(s, e, own);
    case Reject => own' := TracksAcceptor(s, e, own);
    case Move =>
      MoveKeepsChans(fenced, s);
      own' := TracksMove(s, own);
    case Work(w, a) => own' := TracksWork(fenced, s, w, a, own);
    case _ => own' := TracksDesk(s, e, own);
  }

  // ---------------------------------------------------------------- what becomes of each connection

  datatype Fate = Undecided | Shut | To(w: nat)

  /** The subsequence of `xs` whose fate is `f`. */
  function Pick(xs: seq<int>, fates: seq<Fate>, f: Fate): seq<int>
    requires |xs| == |fates|
  {
    if xs == [] then []
    else
      var n := |xs| - 1;
      Pick(xs[..n], fates[..n], f) + if fates[n] == f then [xs[n]] else []
  }

  /** The stream of worker `w` is the accepted connections whose fate is `w`, in order. */
  predicate Given(s: Sys, fates: seq<Fate>, w: nat) {
    w < |s.chans| && |fates| == |s.accepted| && s.chans[w].ring.sent == Pick(s.accepted, fates, To(w))
  }

  /**
   * Every accepted connection has one fate; the stream of each worker and the list of rejected
   * connections are the subsequences of the accepted ones that share that fate, in order.
   */
  ghost predicate Sorted(s: Sys, fates: seq<Fate>) {
    var n := |s.accepted| - 1;
    && |fates| == |s.accepted|
    && (forall w :: 0 <= w < |s.chans| ==> Given(s, fates, w))
    && s.rejected == Pick(s.accepted, fates, Shut)
    && (forall i :: 0 <= i < |fates| ==> (fates[i].To? ==> fates[i].w < |s.chans|))
    && (forall i :: 0 <= i < n ==> !fates[i].Undecided?)
    && (n >= 0 ==> (fates[n].Undecided? <==> Carries(s, s.accepted[n])))
    && (forall fd :: Carries(s, fd) ==> n >= 0 && s.accepted[n] == fd)
  }

  lemma PickLast(xs: seq<int>, fates: seq<Fate>, f: Fate, g: Fate)
    requires |xs| == |fates| > 0
    ensures var n := |xs| - 1;
            Pick(xs, fates[n := g], f) == Pick(xs[..n], fates[..n], f) + if g == f then [xs[n]] else []
  {
    var n := |xs| - 1;
    assert fates[n := g][..n] == fates[..n];
  }

  lemma PickMore(xs: seq<int>, fates: seq<Fate>, x: int, g: Fate, f: Fate)
    requires |xs| == |fates|
    ensures Pick(xs + [x], fates + [g], f) == Pick(xs, fates, f) + if g == f then [x] else []
  {
    assert (xs + [x])[..|xs|] == xs && (fates + [g])[..|fates|] == fates;
  }

  /** Settling the fate of the connection in the acceptor's hands adds it to one stream only. */
  lemma SettleLast(s: Sys, fates: seq<Fate>, g: Fate, f: Fate)
    requires Sorted(s, fates) && fates != [] && fates[|fates| - 1].Undecided? && !f.Undecided?
    ensures Pick(s.accepted, fates[|fates| - 1 := g], f)
            == Pick(s.accepted, fates, f) + if g == f then [s.accepted[|fates| - 1]] else []
  {
    PickLast(s.accepted, fates, f, g);
    PickLast(s.accepted, fates, f, Undecided);
    assert fates[|fates| - 1 := Undecided] == fates;
  }

  lemma AcceptGives(s: Sys, sock: nat, fates: seq<Fate>, w: nat)
    requires Can(false, s, Accept(sock)) && Given(s, fates, w)
    ensures Given(Apply(s, Accept(sock)), fates + [Undecided], w)
  {
    PickMore(s.accepted, fates, sock, Undecided, To(w));
  }

  /** Before accept4 returns the acceptor carries nothing, afterwards the new socket only. */
  lemma NewIsCarried(s: Sys, sock: nat)
    requires Can(false, s, Accept(sock))
    ensures forall fd :: !Carries(s, fd)
    ensures forall fd :: Carries(Apply(s, Accept(sock)), fd) <==> fd == sock
  {
  }

  lemma SortedAccept(s: Sys, sock: nat, fates: seq<Fate>)
    requires PositionInv(s) && Sorted(s, fates) && Can(false, s, Accept(sock))
    ensures Sorted(Apply(s, Accept(sock)), fates + [Undecided])
  {
    var s', fates' := Apply(s, Accept(sock)), fates + [Undecided];
    forall w | 0 <= w < |s'.chans| ensures Given(s', fates', w) { AcceptGives(s, sock, fates, w); }
    PickMore(s.accepted, fates, sock, Undecided, Shut);
    NewIsCarried(s, sock);
    assert fates'[..|fates|] == fates && fates'[|fates|] == Undecided && s'.accepted[|fates|] == sock;
  }

  lemma SortedReject(s: Sys, fates: seq<Fate>)
    requires PositionInv(s) && Sorted(s, fates) && Can(false, s, Reject) && fates != [] && fates[|fates| - 1].Undecided?
    ensures Sorted(Apply(s, Reject), fates[|fates| - 1 := Shut])
  {
    var s', fates' := Apply(s, Reject), fates[|fates| - 1 := Shut];
    forall w | 0 <= w < |s'.chans| ensures Given(s', fates', w) {
      assert Given(s, fates, w);
      SettleLast(s, fates, Shut, To(w));
    }
    SettleLast(s, fates, Shut, Shut);
  }

  lemma SortedMove(s: Sys, fates: seq<Fate>) returns (fates': seq<Fate>)
    requires PositionInv(s) && Sorted(s, fates) && Can(false, s, Move) && !Moved(s).acc.Refused?
    ensures Sorted(Apply(s, Move), fates')
  {
    MoveEffect(s);
    MoveResult(s);
    var s', at := Apply(s, Move), Target(s);
    if s.chans[at].acc.SlotWritten? {
      assert Carries(s, s.srv.sock);
      fates' := fates[|fates| - 1 := To(at)];
      SettleLast(s, fates, To(at), Shut);
    } else {
      fates' := fates;
    }
    forall w | 0 <= w < |s'.chans| ensures Given(s', fates', w) {
      assert Given(s, fates, w);
      if s.chans[at].acc.SlotWritten? { SettleLast(s, fates, To(at), To(w)); }
    }
  }

  /** Nothing that decides a fate has changed. */
  ghost predicate SameFates(s: Sys, s': Sys) {
    && s'.srv == s.srv && s'.accepted == s.accepted && s'.rejected == s.rejected && |s'.chans| == |s.chans|
    && (forall w :: 0 <= w < |s.chans| ==>
          s'.chans[w].ring.sent == s.chans[w].ring.sent && s'.chans[w].acc == s.chans[w].acc)
  }

  lemma SameFatesSorted(s: Sys, s': Sys, fates: seq<Fate>)
    requires Sorted(s, fates) && SameFates(s, s')
    ensures Sorted(s', fates)
  {
    forall fd ensures Carries(s', fd) <==> Carries(s, fd) {}
    forall w | 0 <= w < |s'.chans| ensures Given(s', fates, w) { assert Given(s, fates, w); }
  }

  lemma SortedRest(fenced: bool, s: Sys, e: Event, fates: seq<Fate>)
    requires ControlInv(fenced, s) && Sorted(s, fates) && Can(fenced, s, e) && !e.Accept? && !e.Reject? && !e.Move?
    ensures Sorted(Apply(s, e), fates)
  {
    if e.Work? { WorkEffect(fenced, s.chans[e.w], e.a); }
    assert SameFates(s, Apply(s, e));
    SameFatesSorted(s, Apply(s, e), fates);
  }

  lemma SortedStep(fenced: bool, s: Sys, e: Event, fates: seq<Fate>) returns (fates': seq<Fate>)
    requires ControlInv(fenced, s) && Sorted(s, fates) && Can(fenced, s, e)
    ensures Sorted(Apply(s, e), fates')
  {
    match e
    case Accept(sock) =>
      SortedAccept(s, sock, fates);
      fates' := fates + [Undecided];
    case Reject =>
      assert Carries(s, s.srv.sock);
      SortedReject(s, fates);
      fates' := fates[|fates| - 1 := Shut];
    case Move =>
      MoveKeepsChans(fenced, s);
      fates' := SortedMove(s, fates);
    case _ =>
      SortedRest(fenced, s, e, fates);
      fates' := fates;
  }

  // ---------------------------------------------------------------- over whole runs

  lemma StartInv(fenced: bool, s: Sys)
    requires Start(s)
    ensures ControlInv(fenced, s) && Tracks(s, map[]) && Sorted(s, [])
  {
    forall w | 0 <= w < |s.chans| ensures Inv(fenced, s.chans[w]) {
      InitInv(fenced, s.chans[w]);
    }
  }

  lemma {:induction false} RunControl(fenced: bool, s: Sys, run: seq<Event>)
    requires ControlInv(fenced, s) && CanAll(fenced, s, run)
    ensures ControlInv(fenced, Final(fenced, s, run))
    decreases |run|
  {
    if run != [] {
      KeepsControl(fenced, s, run[0]);
      RunControl(fenced, Apply(s, run[0]), run[1..]);
    }
  }

  lemma {:induction false} RunTracks(fenced: bool, s: Sys, run: seq<Event>, own: map<int, Place>)
    returns (own': map<int, Place>)
    requires ControlInv(fenced, s) && Tracks(s, own) && CanAll(fenced, s, run)
    ensures Tracks(Final(fenced, s, run), own')
    decreases |run|
  {
    own' := own;
    if run != [] {
      KeepsControl(fenced, s, run[0]);
      own' := TracksStep(fenced, s, run[0], own);
      own' := RunTracks(fenced, Apply(s, run[0]), run[1..], own');
    }
  }

  lemma {:induction false} RunSorted(fenced: bool, s: Sys, run: seq<Event>, fates: seq<Fate>)
    returns (fates': seq<Fate>)
    requires ControlInv(fenced, s) && Sorted(s, fates) && CanAll(fenced, s, run)
    ensures Sorted(Final(fenced, s, run), fates')
    decreases |run|
  {
    fates' := fates;
    if run != [] {
      KeepsControl(fenced, s, run[0]);
      fates' := SortedStep(fenced, s, run[0], fates);
      fates' := RunSorted(fenced, Apply(s, run[0]), run[1..], fates');
    }
  }

  lemma RunKeeps(fenced: bool, s: Sys, run: seq<Event>) returns (own: map<int, Place>, fates: seq<Fate>)
    requires Start(s) && CanAll(fenced, s, run)
    ensures var t := Final(fenced, s, run); ControlInv(fenced, t) && Tracks(t, own) && Sorted(t, fates)
  {
    StartInv(fenced, s);
    RunControl(fenced, s, run);
    own := RunTracks(fenced, s, run, map[]);
    fates := RunSorted(fenced, s, run, []);
  }

  /** An open descriptor has exactly one owner, and only open descriptors have one. */
  lemma OneOwner(fenced: bool, s: Sys, run: seq<Event>)
    requires Start(s) && CanAll(fenced, s, run)
    ensures var t := Final(fenced, s, run);
            && (forall fd :: fd in t.open <==> exists p :: Owns(t, p, fd))
            && (forall p, q, fd :: Owns(t, p, fd) && Owns(t, q, fd) ==> p == q)
  {
    var own, _ := RunKeeps(fenced, s, run);
    var t := Final(fenced, s, run);
    forall fd | fd in t.open ensures exists p :: Owns(t, p, fd) {
      assert Owns(t, own[fd], fd);
    }
  }

  /** Whatever happens next: emplace meets no existing key, and no close hits a number that is not open. */
  lemma DescriptorsAreSafe(fenced: bool, s: Sys, run: seq<Event>, e: Event)
    requires Start(s) && CanAll(fenced, s, run) && Can(fenced, Final(fenced, s, run), e)
    ensures var t := Final(fenced, s, run);
            && (e.Emplace? ==> t.chans[e.w].wrk.sock !in t.maps[e.w])
            && (e.InitFails? || e.Drop? ==> t.chans[e.w].wrk.sock in t.open)
            && (e.ClientGone? ==> e.fd in t.open)
            && (e.Reject? ==> t.srv.sock in t.open)
  {
    var own, _ := RunKeeps(fenced, s, run);
    var t := Final(fenced, s, run);
    if e.Reject? {
      var _ := TracksAcceptor(t, e, own);
    } else if !e.Accept? && !e.Move? && !e.Work? {
      var _ := TracksDesk(t, e, own);
    }
  }

  lemma WorkerConserves(fenced: bool, c: Chan)
    requires Inv(fenced, c)
    ensures |c.ring.taken| <= |c.ring.sent| && c.ring.taken + Queue(c.ring) == c.ring.sent
  {
    TakenThenQueued(c.ring);
  }

  /** Each accepted connection goes to one worker or is closed, and every stream keeps the order of arrival. */
  lemma ConnectionsConserved(fenced: bool, s: Sys, run: seq<Event>)
    requires Start(s) && CanAll(fenced, s, run)
    ensures var t := Final(fenced, s, run);
            && (exists fates :: Sorted(t, fates))
            && (forall w :: 0 <= w < |t.chans| ==>
                  && |t.chans[w].ring.taken| <= |t.chans[w].ring.sent|
                  && t.chans[w].ring.taken + Queue(t.chans[w].ring) == t.chans[w].ring.sent)
  {
    var _, fates := RunKeeps(fenced, s, run);
    var t := Final(fenced, s, run);
    forall w | 0 <= w < |t.chans|
      ensures |t.chans[w].ring.taken| <= |t.chans[w].ring.sent|
              && t.chans[w].ring.taken + Queue(t.chans[w].ring) == t.chans[w].ring.sent
    {
      WorkerConserves(fenced, t.chans[w]);
    }
  }

  // ---------------------------------------------------------------- each worker's own history

  /** The steps of a run that concern the channel of worker `w`. */
  function Trace(fenced: bool, s: Sys, run: seq<Event>, w: nat): seq<Action>
    requires CanAll(fenced, s, run)
    decreases |run|
  {
    if run == [] then [] else Local(s, run[0], w) + Trace(fenced, Apply(s, run[0]), run[1..], w)
  }

  /** The step, if any, that an event takes in the channel of worker `w`. */
  function Local(s: Sys, e: Event, w: nat): seq<Action>
    requires Can(false, s, e)
  {
    match e
    case Move => if Target(s) == w then [MoveAction(s.srv.sock, s.chans[w].acc)] else []
    case Work(v, a) => if v == w then [a] else []
    case _ => []
  }

  lemma LocalOfMove(fenced: bool, s: Sys, w: nat)
    requires ControlInv(fenced, s) && Can(fenced, s, Move) && w < |s.chans|
    ensures |Apply(s, Move).chans| == |s.chans|
    ensures CanRun(fenced, s.chans[w], Local(s, Move, w))
            && Apply(s, Move).chans[w] == After(fenced, s.chans[w], Local(s, Move, w))
  {
    MoveKeepsChans(fenced, s);
    MovedChans(s);
    if Target(s) == w {
      OneStep(fenced, s.chans[w], MoveAction(s.srv.sock, s.chans[w].acc));
    }
  }

  lemma LocalIsStep(fenced: bool, s: Sys, e: Event, w: nat)
    requires ControlInv(fenced, s) && Can(fenced, s, e) && w < |s.chans|
    ensures |Apply(s, e).chans| == |s.chans|
    ensures CanRun(fenced, s.chans[w], Local(s, e, w))
            && Apply(s, e).chans[w] == After(fenced, s.chans[w], Local(s, e, w))
  {
    if e.Move? {
      LocalOfMove(fenced, s, w);
    } else if e.Work? && e.w == w {
      OneStep(fenced, s.chans[w], e.a);
    }
  }

  /** A whole run, seen from one worker, is a run of that worker's channel. */
  lemma {:induction false} TraceIsRun(fenced: bool, s: Sys, run: seq<Event>, w: nat)
    requires ControlInv(fenced, s) && CanAll(fenced, s, run) && w < |s.chans|
    ensures var trace := Trace(fenced, s, run, w);
            && CanRun(fenced, s.chans[w], trace)
            && w < |Final(fenced, s, run).chans| && Final(fenced, s, run).chans[w] == After(fenced, s.chans[w], trace)
    decreases |run|
  {
    if run != [] {
      var s', local := Apply(s, run[0]), Local(s, run[0], w);
      LocalIsStep(fenced, s, run[0], w);
      KeepsControl(fenced, s, run[0]);
      TraceIsRun(fenced, s', run[1..], w);
      var rest := Trace(fenced, s', run[1..], w);
      StepThenRun(fenced, s.chans[w], local, rest);
    }
  }

  /**
   * Every worker of the whole system, the code as written: at rest, it has sockets left behind exactly
   * when it was signalled before its startup(), or the acceptor's last claim of its flag missed.
   */
  lemma WorkerStrandedIff(s: Sys, run: seq<Event>, w: nat)
    requires Start(s) && CanAll(false, s, run) && w < |s.chans|
    ensures var c, trace := s.chans[w], Trace(false, s, run, w);
            && w < |Final(false, s, run).chans| && CanRun(false, c, trace)
            && var c' := Final(false, s, run).chans[w];
               Quiescent(c') ==> (Stranded(c') <==> EarlyWrite(trace) || LastClaimMisses(c, trace, false))
  {
    StartInv(false, s);
    TraceIsRun(false, s, run, w);
    StrandedIffClaimMissed(s.chans[w], Trace(false, s, run, w));
  }

  /** With the ordered re-check: exactly when it was signalled before its startup(). */
  lemma NoWorkerStranded(s: Sys, run: seq<Event>, w: nat)
    requires Start(s) && CanAll(true, s, run) && w < |s.chans|
    ensures w < |Final(true, s, run).chans|
    ensures var c := Final(true, s, run).chans[w];
            && (Quiescent(c) ==> (Stranded(c) <==> EarlyWrite(Trace(true, s, run, w))))
            && (EarlyWrite(Trace(true, s, run, w)) <==> c.dropped) && (c.dropped ==> c.ring.taken == [])
  {
    StartInv(true, s);
    TraceIsRun(true, s, run, w);
    NoLostWakeup(s.chans[w], Trace(true, s, run, w));
    TokensConserved(true, s.chans[w], Trace(true, s, run, w));
  }

  // ---------------------------------------------------------------- the acceptor comes back

  /** Steps the acceptor still has to take before it is back at accept4. */
  function AcceptorToGo(s: Sys): nat
    requires s.srv.Scanning? ==> s.srv.seen < |s.chans| && Target(s) < |s.chans|
    requires s.srv.Enqueuing? ==> s.srv.to < |s.chans|
  {
    match s.srv
    case Listening => 0
    case Closing(_) => 1
    case Enqueuing(_, to) => (
      match s.chans[to].acc
      case Room => 7
      case Entered(_) => 6
      case TailLoaded(_, _) => 5
      case RoomSeen(_, _) => 4
      case SlotWritten(_, _) => 3
      case Published => 2
      case _ => 1
    )
    case Scanning(_, _, seen) =>
      7 + 2 * (|s.chans| - seen) - if s.chans[Target(s)].acc.Testing? then 1 else 0
  }

  /** The next worker of the scan has not been looked at yet. */
  lemma NextTargetIdle(s: Sys)
    requires PositionInv(s) && s.srv.Scanning? && s.srv.seen + 1 < |s.chans|
    ensures Wrap(s.srv.start + s.srv.seen + 1, |s.chans|) != Target(s)
    ensures s.chans[Wrap(s.srv.start + s.srv.seen + 1, |s.chans|)].acc.Idle?
  {
    assert AcceptorAt(s, Wrap(s.srv.start + s.srv.seen + 1, |s.chans|));
  }

  lemma MoveDescends(s: Sys)
    requires PositionInv(s) && Can(false, s, Move) && !Moved(s).acc.Refused? && PositionInv(Apply(s, Move))
    ensures AcceptorToGo(Apply(s, Move)) < AcceptorToGo(s)
    ensures Apply(s, Move).srv.Closing? ==> s.srv.Scanning? && s.srv.seen == |s.chans| - 1
  {
    assert AcceptorAt(s, Target(s));
    if s.srv.Scanning? && s.srv.seen + 1 < |s.chans| { NextTargetIdle(s); }
  }

  /** The acceptor's own steps between two accept4 calls. */
  predicate Own(e: Event) {
    e.Move? || e.Reject?
  }

  function CountOwn(run: seq<Event>): nat {
    if run == [] then 0 else CountOwn(run[1..]) + if Own(run[0]) then 1 else 0
  }

  /** The acceptor is never blocked: until it listens again, its next step is enabled and brings it closer. */
  lemma OwnStepDescends(fenced: bool, s: Sys, e: Event)
    requires ControlInv(fenced, s) && !s.srv.Listening? && (e == if s.srv.Closing? then Reject else Move)
    ensures Can(fenced, s, e) && PositionInv(Apply(s, e)) && AcceptorToGo(Apply(s, e)) < AcceptorToGo(s)
    ensures Apply(s, e).srv.Closing? ==> s.srv.Scanning? && s.srv.seen == |s.chans| - 1
  {
    if e.Move? {
      var at := Target(s);
      assert AcceptorAt(s, at) && Inv(fenced, s.chans[at]);
      assert Can(fenced, s, Move);
      MoveKeepsChans(fenced, s);
      MoveKeepsPositions(s);
      MoveDescends(s);
    } else {
      DeskKeepsPositions(s, e);
    }
  }

  /** Steps of workers and clients leave the acceptor where it is. */
  lemma OthersLeaveAcceptor(s: Sys, e: Event)
    requires PositionInv(s) && Can(false, s, e) && !Own(e) && !e.Accept? && PositionInv(Apply(s, e))
    ensures AcceptorToGo(Apply(s, e)) == AcceptorToGo(s)
  {
    var s' := Apply(s, e);
    assert s'.srv == s.srv && |s'.chans| == |s.chans|;
    if s.srv.Scanning? || s.srv.Enqueuing? {
      assert s'.chans[Target(s)].acc == s.chans[Target(s)].acc;
    }
  }

  /** However the threads interleave, the acceptor's own steps are paid for by its distance from accept4. */
  lemma {:induction false} OwnStepsAreBounded(fenced: bool, s: Sys, run: seq<Event>)
    requires ControlInv(fenced, s) && CanAll(fenced, s, run) && (forall i :: 0 <= i < |run| ==> !run[i].Accept?)
    ensures ControlInv(fenced, Final(fenced, s, run))
    ensures CountOwn(run) + AcceptorToGo(Final(fenced, s, run)) <= AcceptorToGo(s)
    decreases |run|
  {
    if run != [] {
      var e := run[0];
      KeepsControl(fenced, s, e);
      if Own(e) {
        OwnStepDescends(fenced, s, e);
      } else {
        OthersLeaveAcceptor(s, e);
      }
      OwnStepsAreBounded(fenced, Apply(s, e), run[1..]);
    }
  }

  /** From any point between two accept4 calls. */
  lemma AcceptorComesBack(fenced: bool, u: Sys, after: seq<Event>)
    requires ControlInv(fenced, u) && CanAll(fenced, u, after) && (forall i :: 0 <= i < |after| ==> !after[i].Accept?)
    ensures var t := Final(fenced, u, after);
            && ControlInv(fenced, t) && CountOwn(after) + AcceptorToGo(t) <= AcceptorToGo(u)
            && (AcceptorToGo(t) == 0 <==> t.srv.Listening?)
            && (!t.srv.Listening? ==> Can(fenced, t, if t.srv.Closing? then Reject else Move))
  {
    OwnStepsAreBounded(fenced, u, after);
    var t := Final(fenced, u, after);
    if !t.srv.Listening? { OwnStepDescends(fenced, t, if t.srv.Closing? then Reject else Move); }
  }

  lemma AcceptedToGo(s: Sys, sock: nat)
    requires PositionInv(s) && Can(false, s, Accept(sock)) && PositionInv(Apply(s, Accept(sock)))
    ensures AcceptorToGo(Apply(s, Accept(sock))) <= 2 * |s.chans| + 7
  {
  }

  /**
   * After any run, an accepted socket costs the acceptor at most 2n + 7 steps of its own, however the
   * other threads run meanwhile, and until it is back at accept4 its next step is enabled.
   */
  lemma AcceptorFinishes(fenced: bool, s: Sys, before: seq<Event>, sock: nat, after: seq<Event>)
    requires Start(s) && CanAll(fenced, s, before) && Can(fenced, Final(fenced, s, before), Accept(sock))
    requires CanAll(fenced, Apply(Final(fenced, s, before), Accept(sock)), after)
    requires forall i :: 0 <= i < |after| ==> !after[i].Accept?
    ensures var u := Final(fenced, s, before);
            var t := Final(fenced, Apply(u, Accept(sock)), after);
            && ControlInv(fenced, t) && CountOwn(after) + AcceptorToGo(t) <= 2 * |u.chans| + 7
            && (AcceptorToGo(t) == 0 <==> t.srv.Listening?)
            && (!t.srv.Listening? ==> Can(fenced, t, if t.srv.Closing? then Reject else Move))
  {
    var _, _ := RunKeeps(fenced, s, before);
    var u := Final(fenced, s, before);
    KeepsControl(fenced, u, Accept(sock));
    AcceptedToGo(u, sock);
    AcceptorComesBack(fenced, Apply(u, Accept(sock)), after);
  }

  // ---------------------------------------------------------------- which worker gets a socket

  /** An is_full question, and whether the worker's queue was full when it was answered. */
  datatype Question = Question(w: nat, full: bool)

  /** The question, if any, that an event answers: its second load decides. */
  function Asked(s: Sys, e: Event): seq<Question>
    requires Can(false, s, e)
  {
    if e.Move? && s.chans[Target(s)].acc.Testing? then [Question(Target(s), !HasRoom(s.chans[Target(s)].ring))] else []
  }

  function AskedAll(fenced: bool, s: Sys, run: seq<Event>): seq<Question>
    requires CanAll(fenced, s, run)
    decreases |run|
  {
    if run == [] then [] else Asked(s, run[0]) + AskedAll(fenced, Apply(s, run[0]), run[1..])
  }

  function Key(u: Sys, sock: nat): nat
    requires u.table != []
  {
    sock % |u.table|
  }

  /** The workers are asked in cyclic order from the one that the table names for the socket. */
  ghost predicate InOrder(u: Sys, sock: nat, qs: seq<Question>)
    requires u.table != []
  {
    && |qs| <= |u.chans| && u.table[Key(u, sock)] < |u.chans|
    && forall d: nat :: d < |qs| ==> qs[d].w == L.Nth(u.table[Key(u, sock)], d, |u.chans|)
  }

  predicate AllFull(qs: seq<Question>) {
    forall d :: 0 <= d < |qs| ==> qs[d].full
  }

  predicate LastHasRoom(qs: seq<Question>) {
    qs != [] && AllFull(qs[..|qs| - 1]) && !qs[|qs| - 1].full
  }

  /** Since `u` only `extra` has been published, and that to worker `to`. */
  ghost predicate SentSince(u: Sys, t: Sys, to: nat, extra: seq<int>) {
    && |t.chans| == |u.chans|
    && forall w :: 0 <= w < |u.chans| ==>
         t.chans[w].ring.sent == u.chans[w].ring.sent + if w == to then extra else []
  }

  /** What has become of the socket accepted in state `u`, when the answers so far are `qs`. */
  ghost predicate Routed(u: Sys, sock: nat, qs: seq<Question>, t: Sys)
    requires u.table != []
  {
    var n, key := |u.chans|, Key(u, sock);
    && InOrder(u, sock, qs)
    && match t.srv
       case Scanning(sk, start, seen) =>
         && sk == sock && start == u.table[key] && seen == |qs| && AllFull(qs)
         && t.table == u.table && t.rejected == u.rejected && SentSince(u, t, 0, [])
       case Enqueuing(sk, to) =>
         && sk == sock && LastHasRoom(qs) && to == qs[|qs| - 1].w < |t.chans|
         && t.table == u.table[key := to] && t.rejected == u.rejected
         && SentSince(u, t, to, if Announcing(t.chans[to].acc) then [sock] else [])
       case Closing(sk) =>
         && sk == sock && |qs| == n && AllFull(qs)
         && t.table == u.table && t.rejected == u.rejected && SentSince(u, t, 0, [])
       case Listening =>
         if LastHasRoom(qs)
         then && t.table == u.table[key := qs[|qs| - 1].w] && t.rejected == u.rejected
              && SentSince(u, t, qs[|qs| - 1].w, [sock])
         else && |qs| == n && AllFull(qs)
              && t.table == u.table && t.rejected == u.rejected + [sock] && SentSince(u, t, 0, [])
  }

  lemma AcceptRouted(u: Sys, sock: nat)
    requires PositionInv(u) && Can(false, u, Accept(sock))
    ensures Routed(u, sock, [], Apply(u, Accept(sock)))
  {
  }

  lemma SameSent(u: Sys, t: Sys, t': Sys, to: nat, extra: seq<int>)
    requires SentSince(u, t, to, extra) && SameFates(t, t')
    ensures SentSince(u, t', to, extra)
  {
  }

  lemma SameRouted(u: Sys, sock: nat, qs: seq<Question>, t: Sys, t': Sys)
    requires u.table != [] && Routed(u, sock, qs, t) && SameFates(t, t') && t'.table == t.table
    ensures Routed(u, sock, qs, t')
  {
    match t.srv
    case Enqueuing(_, to) =>
      SameSent(u, t, t', to, if Announcing(t.chans[to].acc) then [sock] else []);
    case Listening =>
      if LastHasRoom(qs) { SameSent(u, t, t', qs[|qs| - 1].w, [sock]); } else { SameSent(u, t, t', 0, []); }
    case _ => SameSent(u, t, t', 0, []);
  }

  /** Steps of workers and clients change nothing here. */
  lemma OthersSame(fenced: bool, t: Sys, e: Event)
    requires ControlInv(fenced, t) && Can(fenced, t, e) && !Own(e) && !e.Accept?
    ensures SameFates(t, Apply(t, e)) && Apply(t, e).table == t.table
  {
    if e.Work? { WorkEffect(fenced, t.chans[e.w], e.a); }
  }

  lemma RejectKeepsRouted(u: Sys, sock: nat, qs: seq<Question>, t: Sys)
    requires Can(false, t, Reject) && u.table != [] && Routed(u, sock, qs, t) && |u.chans| > 0
    ensures Routed(u, sock, qs, Apply(t, Reject))
  {
  }

  /** One step of a scan: the question is put, or answered. */
  lemma ScanStep(fenced: bool, t: Sys)
    requires ControlInv(fenced, t) && Can(fenced, t, Move) && t.srv.Scanning?
    ensures var at, t' := Target(t), Apply(t, Move);
            && (forall w :: 0 <= w < |t.chans| ==> t'.chans[w].ring.sent == t.chans[w].ring.sent)
            && |t'.chans| == |t.chans| && t'.rejected == t.rejected
            && (!t.chans[at].acc.Testing? ==> t'.srv == t.srv && t'.table == t.table)
            && (t.chans[at].acc.Testing? && HasRoom(t.chans[at].ring) ==>
                  && t'.srv == Enqueuing(t.srv.sock, at) && t'.table == t.table[t.srv.sock % |t.table| := at]
                  && t'.chans[at].acc.Room?)
            && (t.chans[at].acc.Testing? && !HasRoom(t.chans[at].ring) ==>
                  && t'.table == t.table
                  && t'.srv == if t.srv.seen + 1 < |t.chans| then Scanning(t.srv.sock, t.srv.start, t.srv.seen + 1)
                               else Closing(t.srv.sock))
  {
    var at := Target(t);
    assert AcceptorAt(t, at) && Inv(fenced, t.chans[at]);
    FullTest(t.chans[at].ring);
  }

  lemma OneMoreFull(qs: seq<Question>, q: Question)
    ensures AllFull(qs) && q.full ==> AllFull(qs + [q])
    ensures AllFull(qs) && !q.full ==> LastHasRoom(qs + [q])
  {
    assert (qs + [q])[..|qs|] == qs;
  }

  lemma ScanKeepsRouted(fenced: bool, u: Sys, sock: nat, qs: seq<Question>, t: Sys)
    requires ControlInv(fenced, t) && Can(fenced, t, Move) && t.srv.Scanning? && u.table != [] && Routed(u, sock, qs, t)
    ensures Routed(u, sock, qs + Asked(t, Move), Apply(t, Move))
  {
    ScanStep(fenced, t);
    assert qs + [] == qs;
    OneMoreFull(qs, Question(Target(t), !HasRoom(t.chans[Target(t)].ring)));
  }

  predicate Announcing(acc: AcceptorPc) {
    acc.Published? || acc.Claimed?
  }

  /** One step of enqueue_sock: the socket is published once, and the acceptor listens after announcing it. */
  lemma EnqueueStep(fenced: bool, t: Sys)
    requires ControlInv(fenced, t) && Can(fenced, t, Move) && t.srv.Enqueuing?
    ensures var at, t' := Target(t), Apply(t, Move);
            var acc, acc' := t.chans[at].acc, t'.chans[at].acc;
            && |t'.chans| == |t.chans| && t'.rejected == t.rejected && t'.table == t.table && !acc.Testing?
            && (t'.srv == t.srv || (t'.srv.Listening? && Announcing(acc)))
            && (t'.srv == t.srv ==> (Announcing(acc') <==> Announcing(acc) || acc.SlotWritten?))
            && (forall w :: 0 <= w < |t.chans| ==>
                  t'.chans[w].ring.sent
                  == t.chans[w].ring.sent + if w == at && acc.SlotWritten? then [t.srv.sock] else [])
  {
    assert AcceptorAt(t, Target(t));
    MoveKeepsChans(fenced, t);
    MoveEffect(t);
    MovedChans(t);
  }

  lemma EnqueueKeepsRouted(fenced: bool, u: Sys, sock: nat, qs: seq<Question>, t: Sys)
    requires ControlInv(fenced, t) && Can(fenced, t, Move) && t.srv.Enqueuing?
    requires u.table != [] && Routed(u, sock, qs, t)
    ensures Asked(t, Move) == [] && Routed(u, sock, qs, Apply(t, Move))
  {
    EnqueueStep(fenced, t);
  }

  lemma StepKeepsRouted(fenced: bool, u: Sys, sock: nat, qs: seq<Question>, t: Sys, e: Event)
    requires ControlInv(fenced, t) && Can(fenced, t, e) && !e.Accept? && u.table != [] && Routed(u, sock, qs, t)
    ensures Routed(u, sock, qs + Asked(t, e), Apply(t, e))
  {
    assert qs + [] == qs;
    if e.Reject? {
      RejectKeepsRouted(u, sock, qs, t);
    } else if !e.Move? {
      OthersSame(fenced, t, e);
      SameRouted(u, sock, qs, t, Apply(t, e));
    } else if t.srv.Scanning? {
      ScanKeepsRouted(fenced, u, sock, qs, t);
    } else {
      EnqueueKeepsRouted(fenced, u, sock, qs, t);
    }
  }

  type Answered = (seq<Question>, Sys)

  function Step(x: Answered, e: Event): Answered
    requires Can(false, x.1, e)
  {
    (x.0 + Asked(x.1, e), Apply(x.1, e))
  }

  lemma AskedFirst(fenced: bool, qs: seq<Question>, t: Sys, run: seq<Event>)
    requires run != [] && CanAll(fenced, t, run)
    ensures Can(false, t, run[0]) && Step((qs, t), run[0]) == (qs + Asked(t, run[0]), Apply(t, run[0]))
    ensures CanAll(fenced, Apply(t, run[0]), run[1..])
    ensures Final(fenced, t, run) == Final(fenced, Apply(t, run[0]), run[1..])
    ensures qs + AskedAll(fenced, t, run)
            == qs + Asked(t, run[0]) + AskedAll(fenced, Apply(t, run[0]), run[1..])
  {
    Regroup(qs, Asked(t, run[0]), AskedAll(fenced, Apply(t, run[0]), run[1..]));
  }

  lemma Regroup(a: seq<Question>, b: seq<Question>, c: seq<Question>)
    ensures a + (b + c) == a + b + c
  {
  }

  ghost predicate OnItsWay(fenced: bool, u: Sys, sock: nat, x: Answered) {
    u.table != [] && ControlInv(fenced, x.1) && Routed(u, sock, x.0, x.1)
  }

  lemma StepOnItsWay(fenced: bool, u: Sys, sock: nat, x: Answered, e: Event)
    requires OnItsWay(fenced, u, sock, x) && Can(fenced, x.1, e) && !e.Accept?
    ensures OnItsWay(fenced, u, sock, Step(x, e))
  {
    StepKeepsRouted(fenced, u, sock, x.0, x.1, e);
    KeepsControl(fenced, x.1, e);
  }

  lemma {:induction false} RunOnItsWay(fenced: bool, u: Sys, sock: nat, x: Answered, run: seq<Event>)
    requires OnItsWay(fenced, u, sock, x) && CanAll(fenced, x.1, run)
    requires forall i :: 0 <= i < |run| ==> !run[i].Accept?
    ensures OnItsWay(fenced, u, sock, (x.0 + AskedAll(fenced, x.1, run), Final(fenced, x.1, run)))
    decreases |run|
  {
    if run == [] {
      assert x.0 + [] == x.0;
    } else {
      AskedFirst(fenced, x.0, x.1, run);
      StepOnItsWay(fenced, u, sock, x, run[0]);
      RunOnItsWay(fenced, u, sock, Step(x, run[0]), run[1..]);
    }
  }

  lemma AcceptedOnItsWay(fenced: bool, s: Sys, before: seq<Event>, sock: nat)
    requires Start(s) && CanAll(fenced, s, before) && Can(fenced, Final(fenced, s, before), Accept(sock))
    ensures var u := Final(fenced, s, before); OnItsWay(fenced, u, sock, ([], Apply(u, Accept(sock))))
  {
    var _, _ := RunKeeps(fenced, s, before);
    KeepsControl(fenced, Final(fenced, s, before), Accept(sock));
    AcceptRouted(Final(fenced, s, before), sock);
  }

  /** The answers, per worker, agree with those given. */
  ghost predicate Agrees(full: seq<bool>, qs: seq<Question>) {
    forall d :: 0 <= d < |qs| ==> qs[d].w < |full| && full[qs[d].w] == qs[d].full
  }

  lemma AnswersDecide(u: Sys, sock: nat, qs: seq<Question>, full: seq<bool>)
    requires u.table != [] && InOrder(u, sock, qs) && |full| == |u.chans| && Agrees(full, qs)
    ensures LastHasRoom(qs) ==> L.FirstWithRoom(full, u.table[Key(u, sock)], |qs| - 1, qs[|qs| - 1].w)
    ensures |qs| == |u.chans| && AllFull(qs) ==> forall w :: 0 <= w < |full| ==> full[w]
  {
    var first := u.table[Key(u, sock)];
    if LastHasRoom(qs) {
      forall e: nat | e < |qs| - 1 ensures full[L.Nth(first, e, |full|)] {
        assert qs[e] == qs[..|qs| - 1][e];
      }
    }
    if |qs| == |u.chans| && AllFull(qs) {
      forall w | 0 <= w < |full| ensures full[w] {
        var d := if first <= w then w - first else w + |full| - first;
        assert qs[d].w == w;
      }
    }
  }

  /** The outcome for a socket accepted in state `u`, when the acceptor listens again in state `t`. */
  ghost predicate Outcome(u: Sys, sock: nat, qs: seq<Question>, full: seq<bool>, t: Sys)
    requires u.table != [] && InOrder(u, sock, qs) && |full| == |u.chans|
  {
    var key := Key(u, sock);
    if LastHasRoom(qs)
    then var to := qs[|qs| - 1].w;
         && L.FirstWithRoom(full, u.table[key], |qs| - 1, to)
         && t.table == u.table[key := to] && t.rejected == u.rejected && SentSince(u, t, to, [sock])
    else && (forall w :: 0 <= w < |full| ==> full[w])
         && t.table == u.table && t.rejected == u.rejected + [sock] && SentSince(u, t, 0, [])
  }

  lemma Arrived(fenced: bool, u: Sys, sock: nat, qs: seq<Question>, full: seq<bool>, t: Sys)
    requires OnItsWay(fenced, u, sock, (qs, t)) && t.srv.Listening? && |full| == |u.chans| && Agrees(full, qs)
    ensures u.table != [] && InOrder(u, sock, qs) && Outcome(u, sock, qs, full, t)
  {
    AnswersDecide(u, sock, qs, full);
  }

  /**
   * After any run, when a socket has been accepted and the acceptor listens again, however the threads
   * interleave: the workers were asked in cyclic order from the one that the table named, up to the first
   * with room. That one, and no other, has been given the socket, and the socket's table entry, and no
   * other, now names it. If all were full, the socket was rejected and nothing else has changed.
   */
  lemma SocketIsRouted(fenced: bool, s: Sys, before: seq<Event>, sock: nat, after: seq<Event>, full: seq<bool>)
    requires Start(s) && CanAll(fenced, s, before) && Can(fenced, Final(fenced, s, before), Accept(sock))
    requires CanAll(fenced, Apply(Final(fenced, s, before), Accept(sock)), after)
    requires forall i :: 0 <= i < |after| ==> !after[i].Accept?
    requires Final(fenced, Apply(Final(fenced, s, before), Accept(sock)), after).srv.Listening?
    requires |full| == |Final(fenced, s, before).chans|
    requires Agrees(full, AskedAll(fenced, Apply(Final(fenced, s, before), Accept(sock)), after))
    ensures var u := Final(fenced, s, before);
            var t := Final(fenced, Apply(u, Accept(sock)), after);
            var qs := AskedAll(fenced, Apply(u, Accept(sock)), after);
            InOrder(u, sock, qs) && Outcome(u, sock, qs, full, t)
  {
    var u := Final(fenced, s, before);
    var v := Apply(u, Accept(sock));
    AcceptedOnItsWay(fenced, s, before, sock);
    RunOnItsWay(fenced, u, sock, ([], v), after);
    assert [] + AskedAll(fenced, v, after) == AskedAll(fenced, v, after);
    Arrived(fenced, u, sock, AskedAll(fenced, v, after), full, Final(fenced, v, after));
  }
}
