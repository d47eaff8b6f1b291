/**
 * The hand-off of accepted sockets from the acceptor thread to one worker thread, as a
 * transition system over individual loads, stores, compare-and-swaps and eventfd calls.
 *
 * The acceptor runs LoadBalancer::is_full and Worker::enqueue_sock; the worker runs the
 * signal branch of Worker::run. The worker's plain stores (`head` in pop, the clearing store to
 * `pending_notify`) pass through a FIFO store buffer, so they may become visible late. The
 * acceptor performs no load between its own stores and its compare-and-swap, so delaying its
 * stores is the same as delaying its steps and it needs no buffer.
 *
 * `fenced` selects the memory order of the re-check: when true, the load of the re-check waits
 * until the clearing store is visible, as sequential consistency demands; when false, the
 * release store and the acquire load may pass each other, which is all the code asks for.
 */
module Handoff {
  import opened Bits
  import opened CircularQueues

  /** The largest value an eventfd counter can hold. */
  const COUNTER_MAX := 0xFFFF_FFFF_FFFF_FFFE

  datatype Store = HeadStore(index: nat) | FlagStore(value: bool)

  /** Where the acceptor stands with respect to this worker. */
  datatype AcceptorPc =
    | Idle
    | Testing(t: nat)                  // is_full: tail loaded, head not yet
    | Room                             // is_full answered false
    | Entered(sock: int)               // enqueue_sock called
    | TailLoaded(sock: int, t: nat)    // push: tail loaded
    | RoomSeen(sock: int, t: nat)      // push: head loaded, not full
    | SlotWritten(sock: int, t: nat)   // push: buffer[t] written
    | Published                        // push: tail stored
    | Claimed                          // pending_notify set by this thread
    | Refused(sock: int)               // push: full

  datatype WorkerPc =
    | Booting                          // before startup() is done
    | Parked                           // in epoll_wait
    | Batch(signal: bool)              // walking the returned events; signal: the eventfd event is still ahead
    | Flushing                         // the read loop on the eventfd
    | Looking                          // dequeue_sock: is_empty, before the head load
    | LookingTail(h: nat)              // is_empty, before the tail load
    | Fronting(h: nat)                 // front
    | Popping(h: nat, sock: int)       // pop, before the tail load
    | PoppingStore(h: nat, sock: int)  // pop, before the head store
    | Handling(sock: int)              // the rest of the handle_new_connections iteration
    | Clearing                         // before the clearing store
    | Checking                         // re-check, before the head load
    | CheckingTail(h: nat)             // re-check, before the tail load
    | Reclaiming                       // re-check found sockets, before the compare-and-swap

  /** The queue as it stands in memory, with the worker's store buffer and the history of the stream. */
  datatype Ring = Ring(
    capacity: nat, buffer: seq<int>, head: nat, tail: nat,
    stores: seq<Store>,                                     // the worker's store buffer, oldest first
    sent: seq<int>,                                         // every socket published so far
    taken: seq<int>)                                        // every socket popped so far

  datatype Chan = Chan(
    ring: Ring,
    pending: bool,                                          // pending_notify, as seen in memory
    counter: nat,                                           // the eventfd
    up: bool,                                               // startup() has created signal_fd
    dropped: bool,                                          // an eventfd write has failed
    acc: AcceptorPc, wrk: WorkerPc)

  datatype Action =
    | TestTail | TestHead | Enter(sock: int) | LoadTail | LoadHead | WriteSlot | StoreTail | ClaimFlag | WriteEvent
    | Boot | Wake(signal: bool) | TakeSignal | Sleep | ReadEvent
    | LookHead | LookTail | ReadSlot | PopTail | PopHead | Handled
    | ClearFlag | CheckHead | CheckTail | Reclaim
    | Drain

  /** The value of `head` that the worker itself loads: its own latest store, or memory. */
  function OwnHead(stores: seq<Store>, head: nat): nat {
    if stores == [] then head
    else match stores[|stores| - 1]
         case HeadStore(index) => index
         case FlagStore(_) => OwnHead(stores[..|stores| - 1], head)
  }

  predicate Enabled(fenced: bool, s: Chan, a: Action) {
    match a
    case TestTail => s.acc.Idle?
    case TestHead => s.acc.Testing?
    case Enter(_) => s.acc.Room?
    case LoadTail => s.acc.Entered?
    case LoadHead => s.acc.TailLoaded?
    case WriteSlot => s.acc.RoomSeen? && s.acc.t < |s.ring.buffer|
    case StoreTail => s.acc.SlotWritten?
    case ClaimFlag => s.acc.Published?
    case WriteEvent => s.acc.Claimed?
    case Boot => s.wrk.Booting?
    case Wake(signal) => s.wrk.Parked? && (signal ==> s.counter > 0)
    case TakeSignal => s.wrk.Batch? && s.wrk.signal
    case Sleep => s.wrk.Batch? && !s.wrk.signal
    case ReadEvent => s.wrk.Flushing?
    case LookHead => s.wrk.Looking?
    case LookTail => s.wrk.LookingTail?
    case ReadSlot => s.wrk.Fronting? && s.wrk.h < |s.ring.buffer|
    case PopTail => s.wrk.Popping?
    case PopHead => s.wrk.PoppingStore?
    case Handled => s.wrk.Handling?
    case ClearFlag => s.wrk.Clearing?
    case CheckHead => s.wrk.Checking? && (fenced ==> s.ring.stores == [])
    case CheckTail => s.wrk.CheckingTail?
    case Reclaim => s.wrk.Reclaiming? && s.ring.stores == []
    case Drain => s.ring.stores != []
  }

  predicate ByAcceptor(a: Action) {
    a.TestTail? || a.TestHead? || a.Enter? || a.LoadTail? || a.LoadHead? || a.WriteSlot? || a.StoreTail?
    || a.ClaimFlag? || a.WriteEvent?
  }

  function Publish(r: Ring, t: nat, sock: int): Ring
    requires r.capacity > 0
  {
    r.(tail := Next(t, r.capacity), sent := r.sent + [sock])
  }

  function Advance(r: Ring, h: nat, sock: int): Ring
    requires r.capacity > 0
  {
    r.(stores := r.stores + [HeadStore(Next(h, r.capacity))], taken := r.taken + [sock])
  }

  function DoAcceptor(s: Chan, a: Action): Chan
    requires s.ring.capacity > 0 && ByAcceptor(a) && Enabled(false, s, a)
  {
    var r := s.ring;
    match a
    case TestTail => s.(acc := Testing(r.tail))
    case TestHead => s.(acc := if Next(s.acc.t, r.capacity) == r.head then Idle else Room)
    case Enter(sock) => s.(acc := Entered(sock))
    case LoadTail => s.(acc := TailLoaded(s.acc.sock, r.tail))
    case LoadHead =>
      s.(acc := if Next(s.acc.t, r.capacity) == r.head then Refused(s.acc.sock) else RoomSeen(s.acc.sock, s.acc.t))
    case WriteSlot =>
      s.(ring := r.(buffer := r.buffer[s.acc.t := s.acc.sock]), acc := SlotWritten(s.acc.sock, s.acc.t))
    case StoreTail => s.(ring := Publish(r, s.acc.t, s.acc.sock), acc := Published)
    case ClaimFlag => if s.pending then s.(acc := Idle) else s.(pending := true, acc := Claimed)
    case WriteEvent =>
      if s.up && s.counter < COUNTER_MAX then s.(counter := s.counter + 1, acc := Idle)
      else s.(dropped := true, acc := Idle)
  }

  function DoWorker(s: Chan, a: Action): Chan
    requires s.ring.capacity > 0 && !ByAcceptor(a) && Enabled(false, s, a)
  {
    var r := s.ring;
    match a
    case Boot => s.(up := true, wrk := Parked)
    case Wake(signal) => s.(wrk := Batch(signal))
    case TakeSignal => s.(wrk := Flushing)
    case Sleep => s.(wrk := Parked)
    case ReadEvent => if s.counter > 0 then s.(counter := 0) else s.(wrk := Looking)
    case LookHead => s.(wrk := LookingTail(OwnHead(r.stores, r.head)))
    case LookTail => s.(wrk := if s.wrk.h == r.tail then Clearing else Fronting(s.wrk.h))
    case ReadSlot => s.(wrk := Popping(s.wrk.h, r.buffer[s.wrk.h]))
    case PopTail => s.(wrk := if s.wrk.h == r.tail then Handling(s.wrk.sock) else PoppingStore(s.wrk.h, s.wrk.sock))
    case PopHead => s.(ring := Advance(r, s.wrk.h, s.wrk.sock), wrk := Handling(s.wrk.sock))
    case Handled => s.(wrk := Looking)
    case ClearFlag => s.(ring := r.(stores := r.stores + [FlagStore(false)]), wrk := Checking)
    case CheckHead => s.(wrk := CheckingTail(OwnHead(r.stores, r.head)))
    case CheckTail => s.(wrk := if s.wrk.h == r.tail then Batch(false) else Reclaiming)
    case Reclaim => if s.pending then s.(wrk := Batch(false)) else s.(pending := true, wrk := Flushing)
    case Drain =>
      match r.stores[0] {
        case HeadStore(index) => s.(ring := r.(head := index, stores := r.stores[1..]))
        case FlagStore(value) => s.(ring := r.(stores := r.stores[1..]), pending := value)
      }
  }

  function Do(s: Chan, a: Action): Chan
    requires s.ring.capacity > 0 && Enabled(false, s, a)
  {
    if ByAcceptor(a) then DoAcceptor(s, a) else DoWorker(s, a)
  }

  predicate Init(s: Chan) {
    && s.ring.capacity > 0 && |s.ring.buffer| == s.ring.capacity && s.ring.head == 0 && s.ring.tail == 0
    && s.ring.stores == [] && s.ring.sent == [] && s.ring.taken == []
    && !s.pending && s.counter == 0 && !s.up && !s.dropped
    && s.acc == Idle && s.wrk == Booting
  }

  /** A run: every action is enabled where it happens. */
  predicate CanRun(fenced: bool, s: Chan, run: seq<Action>)
    decreases |run|
  {
    run == [] || (s.ring.capacity > 0 && Enabled(fenced, s, run[0]) && CanRun(fenced, Do(s, run[0]), run[1..]))
  }

  function After(fenced: bool, s: Chan, run: seq<Action>): Chan
    requires CanRun(fenced, s, run)
    decreases |run|
  {
    if run == [] then s else After(fenced, Do(s, run[0]), run[1..])
  }

  lemma OneStep(fenced: bool, s: Chan, a: Action)
    requires s.ring.capacity > 0 && Enabled(fenced, s, a)
    ensures CanRun(fenced, s, [a]) && After(fenced, s, [a]) == Do(s, a)
  {
    assert [a][1..] == [];
  }

  /** At most one step, followed by a run. */
  lemma StepThenRun(fenced: bool, s: Chan, step: seq<Action>, run: seq<Action>)
    requires |step| <= 1 && CanRun(fenced, s, step) && CanRun(fenced, After(fenced, s, step), run)
    ensures CanRun(fenced, s, step + run) && After(fenced, s, step + run) == After(fenced, After(fenced, s, step), run)
  {
    if step == [] {
      assert step + run == run;
    } else {
      OneStep(fenced, s, step[0]);
      assert step == [step[0]] && (step + run)[0] == step[0] && (step + run)[1..] == run;
    }
  }

  // ---------------------------------------------------------------- what every step keeps

  /** The clearing store has been issued and is not visible yet. */
  predicate ClearInFlight(r: Ring) {
    r.stores != [] && r.stores[|r.stores| - 1].FlagStore?
  }

  /** Number of pops not yet visible in memory. */
  function Lag(r: Ring): nat {
    |r.stores| - if ClearInFlight(r) then 1 else 0
  }

  /** Number of pops that the acceptor can see. */
  function Seen(r: Ring): int {
    |r.taken| - Lag(r)
  }

  /** The sockets published and not popped. */
  function Queue(r: Ring): seq<int>
    requires |r.taken| <= |r.sent|
  {
    r.sent[|r.taken|..]
  }

  /** Element `i` of the stream is in its slot. */
  predicate Stored(r: Ring, i: nat)
    requires r.capacity > 0
  {
    Slot(i, r.capacity) < |r.buffer| && i < |r.sent| && r.buffer[Slot(i, r.capacity)] == r.sent[i]
  }

  /** The ring holds a contiguous window of the published stream, at most capacity - 1 long. */
  ghost predicate RingInv(r: Ring) {
    && IsPow2(r.capacity) && |r.buffer| == r.capacity
    && 0 <= Seen(r) <= |r.taken| <= |r.sent| && r.taken == r.sent[..|r.taken|]
    && |r.sent| - Seen(r) < r.capacity
    && r.head == Slot(Seen(r), r.capacity)
    && r.tail == Slot(|r.sent|, r.capacity)
    && (forall i :: Seen(r) <= i < |r.sent| ==> Stored(r, i))
  }

  /** The store buffer holds the pending pops in order, then at most one clearing store. */
  ghost predicate StoresInv(r: Ring)
    requires RingInv(r)
  {
    && (forall i :: 0 <= i < Lag(r) ==> r.stores[i] == HeadStore(Slot(Seen(r) + i + 1, r.capacity)))
    && (ClearInFlight(r) ==> r.stores[|r.stores| - 1] == FlagStore(false))
  }

  predicate HasRoom(r: Ring) {
    |r.sent| - Seen(r) < r.capacity - 1
  }

  predicate AcceptorInv(acc: AcceptorPc, r: Ring) {
    match acc
    case Testing(t) => t == r.tail
    case Room => HasRoom(r)
    case Entered(_) => HasRoom(r)
    case TailLoaded(_, t) => t == r.tail && HasRoom(r)
    case RoomSeen(_, t) => t == r.tail && HasRoom(r)
    case SlotWritten(sock, t) => t == r.tail && HasRoom(r) && t < |r.buffer| && r.buffer[t] == sock
    case Refused(_) => false
    case _ => true
  }

  predicate WorkerInv(wrk: WorkerPc, r: Ring)
    requires r.capacity > 0
  {
    var own := Slot(|r.taken|, r.capacity);
    match wrk
    case LookingTail(h) => h == own
    case Fronting(h) => h == own && |r.taken| < |r.sent|
    case Popping(h, sock) => h == own && |r.taken| < |r.sent| && sock == r.sent[|r.taken|]
    case PoppingStore(h, sock) => h == own && |r.taken| < |r.sent| && sock == r.sent[|r.taken|]
    case CheckingTail(h) => h == own
    case Reclaiming => |r.taken| < |r.sent|
    case _ => true
  }

  /** The ring refines a bounded FIFO: nothing is overwritten while live, nothing is read unpublished. */
  ghost predicate QueueInv(s: Chan) {
    RingInv(s.ring) && StoresInv(s.ring) && AcceptorInv(s.acc, s.ring) && WorkerInv(s.wrk, s.ring)
  }

  /** The worker has consumed a wake-up and has not yet cleared the flag. */
  predicate Holds(s: Chan) {
    || (s.wrk.Flushing? && s.counter == 0)
    || s.wrk.Looking? || s.wrk.LookingTail? || s.wrk.Fronting? || s.wrk.Popping? || s.wrk.PoppingStore?
    || s.wrk.Handling? || s.wrk.Clearing?
  }

  function One(b: bool): nat { if b then 1 else 0 }

  /** Wake-up tokens: with the acceptor, in the eventfd, with the worker, or lost in a failed write. */
  function Tokens(s: Chan): nat {
    One(s.acc.Claimed?) + s.counter + One(Holds(s)) + One(s.dropped)
  }

  ghost predicate TokenInv(s: Chan) {
    && Tokens(s) == One(s.pending && !ClearInFlight(s.ring))
    && (ClearInFlight(s.ring) ==> s.pending)
    && (s.wrk == Batch(true) || s.wrk.Flushing? ==> Tokens(s) == 1 && !s.dropped && !s.acc.Claimed?)
    && (s.up <==> !s.wrk.Booting?)
    && (s.wrk.Booting? ==> s.ring.stores == [] && s.ring.taken == [])
    && (s.acc.Published? || s.acc.Claimed? || s.dropped ==> s.ring.sent != [])
    && (s.dropped ==> s.ring.taken == [] && s.ring.stores == []
                      && (s.wrk.Booting? || s.wrk.Parked? || s.wrk == Batch(false)))
  }

  predicate Rechecking(s: Chan) {
    s.wrk.Checking? || s.wrk.CheckingTail? || s.wrk.Reclaiming?
  }

  /** A published socket is covered by a token, by the acceptor's coming claim or by the re-check. */
  ghost predicate WakeInv(s: Chan) {
    && (ClearInFlight(s.ring) ==> s.wrk.Checking?)
    && (|s.ring.taken| < |s.ring.sent| && Tokens(s) == 0 ==> s.acc.Published? || Rechecking(s))
  }

  // ---------------------------------------------------------------- the ring

  /** Next(tail) meets the visible head exactly when capacity - 1 slots are in use. */
  lemma FullTest(r: Ring)
    requires RingInv(r)
    ensures Next(r.tail, r.capacity) == r.head <==> !HasRoom(r)
  {
    NextSlot(|r.sent|, r.capacity);
    if HasRoom(r) {
      SlotsDiffer(Seen(r), |r.sent| + 1, r.capacity);
    } else {
      assert Slot(Seen(r) + r.capacity, r.capacity) == Slot(Seen(r), r.capacity);
    }
  }

  lemma EmptyTest(r: Ring)
    requires RingInv(r)
    ensures Slot(|r.taken|, r.capacity) == r.tail <==> |r.taken| == |r.sent|
  {
    if |r.taken| < |r.sent| { SlotsDiffer(|r.taken|, |r.sent|, r.capacity); }
  }

  lemma OwnHeadIs(r: Ring)
    requires RingInv(r) && StoresInv(r)
    ensures OwnHead(r.stores, r.head) == Slot(|r.taken|, r.capacity)
  {
    if ClearInFlight(r) {
      var front := r.stores[..|r.stores| - 1];
      if front != [] { assert front[|front| - 1] == r.stores[Lag(r) - 1]; }
    }
  }

  /** The tail slot is not one that a published, visibly unpopped socket occupies. */
  lemma TailSlotIsFree(r: Ring, i: nat)
    requires RingInv(r) && Seen(r) <= i < |r.sent|
    ensures Slot(i, r.capacity) != r.tail
  {
    SlotsDiffer(i, |r.sent|, r.capacity);
  }

  lemma WriteKeepsRing(r: Ring, sock: int)
    requires RingInv(r) && StoresInv(r)
    ensures var r' := r.(buffer := r.buffer[r.tail := sock]); RingInv(r') && StoresInv(r') && Lag(r') == Lag(r)
  {
    var r' := r.(buffer := r.buffer[r.tail := sock]);
    assert Lag(r') == Lag(r);
    forall i | Seen(r') <= i < |r'.sent| ensures Stored(r', i) {
      assert Stored(r, i);
      TailSlotIsFree(r, i);
    }
  }

  lemma PublishKeepsSlots(r: Ring, sock: int, i: nat)
    requires RingInv(r) && r.buffer[r.tail] == sock && Seen(r) <= i <= |r.sent|
    ensures Stored(Publish(r, r.tail, sock), i)
  {
    if i < |r.sent| { assert Stored(r, i); }
  }

  lemma PublishKeepsRing(r: Ring, sock: int)
    requires RingInv(r) && StoresInv(r) && HasRoom(r) && r.buffer[r.tail] == sock
    ensures var r' := Publish(r, r.tail, sock); RingInv(r') && StoresInv(r') && Lag(r') == Lag(r)
  {
    var r' := Publish(r, r.tail, sock);
    assert r'.tail == Slot(|r'.sent|, r.capacity) by { NextSlot(|r.sent|, r.capacity); }
    assert Lag(r') == Lag(r) && Seen(r') == Seen(r);
    assert r'.sent[..|r.taken|] == r.sent[..|r.taken|];
    forall i | Seen(r') <= i < |r'.sent| ensures Stored(r', i) { PublishKeepsSlots(r, sock, i); }
  }

  lemma AdvanceKeepsStream(r: Ring, h: nat, sock: int)
    requires RingInv(r) && StoresInv(r) && !ClearInFlight(r) && |r.taken| < |r.sent| && sock == r.sent[|r.taken|]
    ensures var r' := Advance(r, h, sock); RingInv(r') && Lag(r') == Lag(r) + 1 && Seen(r') == Seen(r)
  {
    var r' := Advance(r, h, sock);
    assert Lag(r') == Lag(r) + 1 && Seen(r') == Seen(r);
    assert r'.taken == r.sent[..|r.taken| + 1];
    forall i | Seen(r') <= i < |r'.sent| ensures Stored(r', i) {
      assert Stored(r, i);
    }
  }

  lemma AdvanceKeepsRing(r: Ring, h: nat, sock: int)
    requires RingInv(r) && StoresInv(r) && !ClearInFlight(r)
    requires h == Slot(|r.taken|, r.capacity) && |r.taken| < |r.sent| && sock == r.sent[|r.taken|]
    ensures var r' := Advance(r, h, sock); RingInv(r') && StoresInv(r') && Seen(r') == Seen(r)
  {
    AdvanceKeepsStream(r, h, sock);
    assert Next(h, r.capacity) == Slot(|r.taken| + 1, r.capacity) by { NextSlot(|r.taken|, r.capacity); }
  }

  lemma DrainKeepsRing(r: Ring)
    requires RingInv(r) && StoresInv(r) && r.stores != []
    ensures r.stores[0].FlagStore? ==> r.stores == [FlagStore(false)]
    ensures var r' := if r.stores[0].HeadStore? then r.(head := r.stores[0].index, stores := r.stores[1..])
                      else r.(stores := r.stores[1..]);
            RingInv(r') && StoresInv(r') && Seen(r) <= Seen(r')
            && ClearInFlight(r') == (ClearInFlight(r) && r.stores[0].HeadStore?)
  {
    if Lag(r) > 0 {
      var r' := r.(head := r.stores[0].index, stores := r.stores[1..]);
      assert r'.stores != [] ==> r'.stores[|r'.stores| - 1] == r.stores[|r.stores| - 1];
      assert Lag(r') == Lag(r) - 1;
      forall i | Seen(r') <= i < |r'.sent| ensures Stored(r', i) {
        assert Stored(r, i);
      }
    } else {
      var r' := r.(stores := r.stores[1..]);
      assert Lag(r') == 0;
      forall i | Seen(r') <= i < |r'.sent| ensures Stored(r', i) {
        assert Stored(r, i);
      }
    }
  }

  lemma ClearKeepsRing(r: Ring)
    requires RingInv(r) && StoresInv(r) && !ClearInFlight(r)
    ensures var r' := r.(stores := r.stores + [FlagStore(false)]); RingInv(r') && StoresInv(r') && Lag(r') == Lag(r)
  {
    var r' := r.(stores := r.stores + [FlagStore(false)]);
    assert Lag(r') == Lag(r);
    forall i | Seen(r') <= i < |r'.sent| ensures Stored(r', i) {
      assert Stored(r, i);
    }
  }

  lemma AcceptorWritesKeepQueue(s: Chan, a: Action)
    requires QueueInv(s) && (a.WriteSlot? || a.StoreTail?) && Enabled(false, s, a)
    ensures QueueInv(DoAcceptor(s, a))
  {
    if a.WriteSlot? {
      WriteKeepsRing(s.ring, s.acc.sock);
    } else {
      PublishKeepsRing(s.ring, s.acc.sock);
    }
  }

  lemma AcceptorKeepsQueue(s: Chan, a: Action)
    requires QueueInv(s) && ByAcceptor(a) && Enabled(false, s, a)
    ensures QueueInv(DoAcceptor(s, a))
  {
    if a.WriteSlot? || a.StoreTail? {
      AcceptorWritesKeepQueue(s, a);
    } else {
      assert DoAcceptor(s, a).ring == s.ring;
      FullTest(s.ring);
    }
  }

  predicate WritesRing(a: Action) {
    a.PopHead? || a.Drain? || a.ClearFlag?
  }

  lemma WorkerWritesKeepQueue(s: Chan, a: Action)
    requires QueueInv(s) && TokenInv(s) && WritesRing(a) && Enabled(false, s, a)
    ensures QueueInv(DoWorker(s, a))
  {
    var r := s.ring;
    if a.PopHead? {
      AdvanceKeepsRing(r, s.wrk.h, s.wrk.sock);
    } else if a.Drain? {
      DrainKeepsRing(r);
    } else {
      ClearKeepsRing(r);
    }
  }

  lemma WorkerKeepsQueue(s: Chan, a: Action)
    requires QueueInv(s) && TokenInv(s) && !ByAcceptor(a) && Enabled(false, s, a)
    ensures QueueInv(DoWorker(s, a))
  {
    var r := s.ring;
    if WritesRing(a) {
      WorkerWritesKeepQueue(s, a);
    } else {
      assert DoWorker(s, a).ring == r;
      OwnHeadIs(r);
      EmptyTest(r);
      if a.ReadSlot? { assert Stored(r, |r.taken|); }
    }
  }

  // ---------------------------------------------------------------- the wake-up token

  lemma AcceptorKeepsTokens(s: Chan, a: Action)
    requires TokenInv(s) && s.ring.capacity > 0 && ByAcceptor(a) && Enabled(false, s, a)
    ensures TokenInv(DoAcceptor(s, a))
  {
  }

  lemma DrainKeepsTokens(s: Chan)
    requires TokenInv(s) && QueueInv(s) && s.ring.stores != []
    ensures TokenInv(DoWorker(s, Drain))
  {
    DrainKeepsRing(s.ring);
  }

  lemma WorkerKeepsTokens(s: Chan, a: Action)
    requires TokenInv(s) && QueueInv(s) && !ByAcceptor(a) && Enabled(false, s, a)
    ensures TokenInv(DoWorker(s, a))
  {
    if a.Drain? { DrainKeepsTokens(s); }
  }

  lemma AcceptorKeepsWake(s: Chan, a: Action)
    requires TokenInv(s) && WakeInv(s) && s.ring.capacity > 0 && ByAcceptor(a) && Enabled(true, s, a)
    ensures WakeInv(DoAcceptor(s, a))
  {
  }

  lemma WorkerKeepsWake(s: Chan, a: Action)
    requires QueueInv(s) && TokenInv(s) && WakeInv(s) && !ByAcceptor(a) && Enabled(true, s, a)
    ensures WakeInv(DoWorker(s, a))
  {
    if a.Drain? {
      DrainKeepsRing(s.ring);
    } else if a.CheckTail? {
      EmptyTest(s.ring);
    }
  }

  // ---------------------------------------------------------------- over whole runs

  ghost predicate Inv(fenced: bool, s: Chan) {
    QueueInv(s) && TokenInv(s) && (fenced ==> WakeInv(s))
  }

  lemma InitInv(fenced: bool, s: Chan)
    requires Init(s) && IsPow2(s.ring.capacity)
    ensures Inv(fenced, s)
  {
  }

  lemma StepInv(fenced: bool, s: Chan, a: Action)
    requires Inv(fenced, s) && Enabled(fenced, s, a)
    ensures Inv(fenced, Do(s, a))
  {
    if ByAcceptor(a) {
      AcceptorKeepsQueue(s, a);
      AcceptorKeepsTokens(s, a);
      if fenced { AcceptorKeepsWake(s, a); }
    } else {
      WorkerKeepsQueue(s, a);
      WorkerKeepsTokens(s, a);
      if fenced { WorkerKeepsWake(s, a); }
    }
  }

  lemma {:induction false} RunInv(fenced: bool, s: Chan, run: seq<Action>)
    requires Inv(fenced, s) && CanRun(fenced, s, run)
    ensures Inv(fenced, After(fenced, s, run))
    decreases |run|
  {
    if run != [] {
      StepInv(fenced, s, run[0]);
      RunInv(fenced, Do(s, run[0]), run[1..]);
    }
  }

  /** Some eventfd write happens before startup() is done. */
  predicate EarlyWrite(run: seq<Action>)
    decreases |run|
  {
    run != [] && (run[0].WriteEvent? || (!run[0].Boot? && EarlyWrite(run[1..])))
  }

  lemma {:induction false} DroppedIffEarlyWrite(fenced: bool, s: Chan, run: seq<Action>)
    requires Inv(fenced, s) && CanRun(fenced, s, run)
    ensures After(fenced, s, run).dropped <==> s.dropped || (!s.up && EarlyWrite(run))
    decreases |run|
  {
    if run != [] {
      StepInv(fenced, s, run[0]);
      DroppedIffEarlyWrite(fenced, Do(s, run[0]), run[1..]);
    }
  }

  /** The worker sleeps with no wake-up recorded, and the acceptor is not about to record one. */
  predicate Quiescent(s: Chan) {
    s.wrk.Parked? && s.counter == 0 && !s.acc.Published? && !s.acc.Claimed?
  }

  predicate Stranded(s: Chan) {
    Quiescent(s) && |s.ring.taken| < |s.ring.sent|
  }

  /** Wake-up tokens over every run, whatever the memory order of the re-check. */
  lemma TokensConserved(fenced: bool, s: Chan, run: seq<Action>)
    requires Init(s) && IsPow2(s.ring.capacity) && CanRun(fenced, s, run)
    ensures var t := After(fenced, s, run);
            && Tokens(t) <= 1 && t.counter <= 1
            && (Tokens(t) == 1 <==> t.pending && !ClearInFlight(t.ring))
            && (t.dropped <==> EarlyWrite(run))
  {
    InitInv(fenced, s);
    RunInv(fenced, s, run);
    DroppedIffEarlyWrite(fenced, s, run);
  }

  lemma TakenThenQueued(r: Ring)
    requires RingInv(r)
    ensures r.taken + Queue(r) == r.sent && |Queue(r)| <= r.capacity - 1
  {
  }

  /** FIFO refinement over every run: order, capacity, no refusal after is_full answered false. */
  lemma StreamConserved(fenced: bool, s: Chan, run: seq<Action>)
    requires Init(s) && IsPow2(s.ring.capacity) && CanRun(fenced, s, run)
    ensures var t := After(fenced, s, run);
            && |t.ring.taken| <= |t.ring.sent| && t.ring.taken + Queue(t.ring) == t.ring.sent
            && |Queue(t.ring)| <= t.ring.capacity - 1
            && !t.acc.Refused?
            && (t.wrk.Popping? ==> |Queue(t.ring)| > 0 && t.wrk.sock == Queue(t.ring)[0])
  {
    InitInv(fenced, s);
    RunInv(fenced, s, run);
    TakenThenQueued(After(fenced, s, run).ring);
  }

  /** With the re-check ordered after the clear, a sleeping worker with sockets queued has a wake-up coming. */
  lemma NoLostWakeup(s: Chan, run: seq<Action>)
    requires Init(s) && IsPow2(s.ring.capacity) && CanRun(true, s, run)
    ensures var t := After(true, s, run);
            && (|t.ring.taken| < |t.ring.sent| && (t.wrk.Parked? || t.wrk.Batch?) && !t.dropped
                ==> t.counter == 1 || t.acc.Claimed? || t.acc.Published?)
            && (Quiescent(t) ==> (Stranded(t) <==> EarlyWrite(run)))
            && (EarlyWrite(run) ==> t.ring.taken == [])
  {
    InitInv(true, s);
    RunInv(true, s, run);
    DroppedIffEarlyWrite(true, s, run);
  }

  /** Once a wake-up is lost before startup, the worker never takes a socket again. */
  lemma LostBeforeStartupIsFinal(fenced: bool, s: Chan, early: seq<Action>, late: seq<Action>)
    requires Init(s) && IsPow2(s.ring.capacity)
    requires CanRun(fenced, s, early) && EarlyWrite(early)
    requires CanRun(fenced, After(fenced, s, early), late)
    ensures After(fenced, After(fenced, s, early), late).ring.taken == []
  {
    InitInv(fenced, s);
    RunInv(fenced, s, early);
    DroppedIffEarlyWrite(fenced, s, early);
    var m := After(fenced, s, early);
    RunInv(fenced, m, late);
    DroppedIffEarlyWrite(fenced, m, late);
  }

  /** Even with an unordered re-check, the next socket published after the buffer drains is announced. */
  lemma NextEnqueueAnnounces(s: Chan, run: seq<Action>)
    requires Init(s) && IsPow2(s.ring.capacity) && CanRun(false, s, run) && !EarlyWrite(run)
    requires var t := After(false, s, run); t.wrk.Parked? && t.counter == 0 && t.ring.stores == [] && t.acc.Published?
    ensures var t := After(false, s, run);
            t.ring.capacity > 0 && Enabled(false, t, ClaimFlag) && Do(t, ClaimFlag).acc == Claimed
  {
    TokensConserved(false, s, run);
    InitInv(false, s);
    RunInv(false, s, run);
  }

  // ---------------------------------------------------------------- progress

  /** How far the worker is from its next pop, or from sleep when nothing is queued. */
  function ToGo(s: Chan): nat {
    var more := |s.ring.taken| < |s.ring.sent|;
    match s.wrk
    case Booting => 21
    case Handling(_) => 20
    case Flushing => if s.counter > 0 then 10 else if more then 8 else 20
    case Looking => if more then 7 else 19
    case LookingTail(_) => if more then 6 else 18
    case Clearing => 17
    case Checking => 16
    case CheckingTail(_) => 15
    case Reclaiming => 14
    case Batch(signal) => if signal then 11 else 13
    case Parked => 12
    case Fronting(_) => 5
    case Popping(_, _) => 4
    case PoppingStore(_, _) => 3
  }

  function Measure(s: Chan): nat
    requires |s.ring.taken| <= |s.ring.sent|
  {
    2 * (100 * (|s.ring.sent| - |s.ring.taken|) + 20 * s.counter + ToGo(s)) + |s.ring.stores|
  }

  /** A step of the worker or of its store buffer; waking up for client events alone is the environment's. */
  predicate WorkerStep(a: Action) {
    !ByAcceptor(a) && a != Wake(false)
  }

  predicate Settled(s: Chan) {
    s.wrk.Parked? && s.counter == 0 && s.ring.stores == []
  }

  lemma WorkerWritesDescend(s: Chan, a: Action)
    requires s.ring.capacity > 0 && |s.ring.taken| <= |s.ring.sent| && WorkerInv(s.wrk, s.ring)
    requires WritesRing(a) && Enabled(true, s, a)
    ensures |Do(s, a).ring.taken| <= |Do(s, a).ring.sent| && Measure(Do(s, a)) < Measure(s)
  {
    var t := Do(s, a);
    assert t.ring.sent == s.ring.sent && t.counter == s.counter;
    if a.PopHead? {
      assert t.wrk.Handling? && |t.ring.taken| == |s.ring.taken| + 1 && |t.ring.stores| == |s.ring.stores| + 1;
    } else if a.Drain? {
      assert t.wrk == s.wrk && t.ring.taken == s.ring.taken && |t.ring.stores| == |s.ring.stores| - 1;
    } else {
      assert t.wrk.Checking? && t.ring.taken == s.ring.taken && |t.ring.stores| == |s.ring.stores| + 1;
    }
  }

  lemma WorkerStepsDescend(s: Chan, a: Action)
    requires QueueInv(s) && TokenInv(s) && s.acc.Idle? && WorkerStep(a) && Enabled(true, s, a)
    ensures |Do(s, a).ring.taken| <= |Do(s, a).ring.sent| && Measure(Do(s, a)) < Measure(s)
  {
    if WritesRing(a) {
      WorkerWritesDescend(s, a);
    } else {
      EmptyTest(s.ring);
    }
  }

  /** Until it has settled, the worker has a step to take. */
  function NextStep(s: Chan): (a: Action)
    ensures WorkerStep(a)
  {
    match s.wrk
    case Booting => Boot
    case Parked => if s.counter > 0 then Wake(true) else Drain
    case Batch(signal) => if signal then TakeSignal else Sleep
    case Flushing => ReadEvent
    case Looking => LookHead
    case LookingTail(_) => LookTail
    case Fronting(_) => ReadSlot
    case Popping(_, _) => PopTail
    case PoppingStore(_, _) => PopHead
    case Handling(_) => Handled
    case Clearing => ClearFlag
    case Checking => if s.ring.stores == [] then CheckHead else Drain
    case CheckingTail(_) => CheckTail
    case Reclaiming => if s.ring.stores == [] then Reclaim else Drain
  }

  lemma SettledIffStuck(s: Chan)
    requires Inv(true, s)
    ensures Settled(s) <==> !exists a :: WorkerStep(a) && Enabled(true, s, a)
    ensures Settled(s) && s.acc.Idle? && !s.dropped ==> s.ring.taken == s.ring.sent
  {
    if !Settled(s) { assert Enabled(true, s, NextStep(s)); }
  }

  predicate WorkerRun(run: seq<Action>) {
    forall i :: 0 <= i < |run| ==> WorkerStep(run[i])
  }

  lemma {:induction false} WorkerRunsAreShort(s: Chan, run: seq<Action>)
    requires Inv(true, s) && s.acc.Idle? && CanRun(true, s, run) && WorkerRun(run)
    ensures |run| <= Measure(s)
    decreases |run|
  {
    if run != [] {
      StepInv(true, s, run[0]);
      WorkerStepsDescend(s, run[0]);
      WorkerRunsAreShort(Do(s, run[0]), run[1..]);
    }
  }

  lemma WorkerStepKeeps(s: Chan, a: Action)
    requires s.ring.capacity > 0 && WorkerStep(a) && Enabled(true, s, a)
    ensures Do(s, a).dropped == s.dropped && Do(s, a).ring.sent == s.ring.sent && Do(s, a).acc == s.acc
  {
  }

  lemma {:induction false} WorkerRunsKeep(s: Chan, run: seq<Action>)
    requires Inv(true, s) && CanRun(true, s, run) && WorkerRun(run)
    ensures var t := After(true, s, run);
            Inv(true, t) && t.dropped == s.dropped && t.ring.sent == s.ring.sent && t.acc == s.acc
    decreases |run|
  {
    if run != [] {
      StepInv(true, s, run[0]);
      WorkerStepKeeps(s, run[0]);
      WorkerRunsKeep(Do(s, run[0]), run[1..]);
    }
  }

  /** Every run of the worker alone is short, and one that cannot go on has emptied the queue. */
  lemma WorkerRunsSettle(s: Chan, run: seq<Action>)
    requires Inv(true, s) && s.acc.Idle? && CanRun(true, s, run) && WorkerRun(run)
    ensures |run| <= Measure(s)
    ensures var t := After(true, s, run);
            && t.dropped == s.dropped && t.ring.sent == s.ring.sent && t.acc.Idle?
            && (Settled(t) <==> !exists a :: WorkerStep(a) && Enabled(true, t, a))
            && (Settled(t) && !s.dropped ==> t.ring.taken == s.ring.sent)
  {
    WorkerRunsAreShort(s, run);
    WorkerRunsKeep(s, run);
    SettledIffStuck(After(true, s, run));
  }

  // ---------------------------------------------------------------- the order of the re-check

  /** No run that starts the worker before signalling it leaves sockets behind a sleeping worker. */
  ghost predicate NeverStrands(fenced: bool) {
    forall s, run :: Init(s) && IsPow2(s.ring.capacity) && CanRun(fenced, s, run) && !EarlyWrite(run)
      ==> !Stranded(After(fenced, s, run))
  }

  lemma {:induction false} Append(fenced: bool, s: Chan, run: seq<Action>, a: Action)
    requires CanRun(fenced, s, run)
    requires After(fenced, s, run).ring.capacity > 0 && Enabled(fenced, After(fenced, s, run), a)
    ensures CanRun(fenced, s, run + [a])
    ensures After(fenced, s, run + [a]) == Do(After(fenced, s, run), a)
    decreases |run|
  {
    if run == [] {
      assert CanRun(fenced, Do(s, a), []);
      assert ([] + [a])[1..] == [];
    } else {
      Append(fenced, Do(s, run[0]), run[1..], a);
      assert (run + [a])[1..] == run[1..] + [a];
    }
  }

  /** A set of states that no step of the code as written leaves. */
  ghost predicate Closed(states: iset<Chan>) {
    forall t, a :: t in states && t.ring.capacity > 0 && Enabled(false, t, a) ==> Do(t, a) in states
  }

  const FRESH := Chan(Ring(2, [0, 0], 0, 0, [], [], []), false, 0, false, false, Idle, Booting)

  /** is_full answers false and push passes its own test. */
  lemma RoomRun(states: iset<Chan>, t: Chan, sock: int) returns (t': Chan)
    requires Closed(states) && t in states && RingInv(t.ring) && t.acc == Idle && HasRoom(t.ring)
    ensures t' in states && t' == t.(acc := RoomSeen(sock, t.ring.tail))
  {
    FullTest(t.ring);
    var tail := t.ring.tail;
    var t1 := t.(acc := Testing(tail));
    assert t1 == Do(t, TestTail);
    var t2 := t.(acc := Room);
    assert t2 == Do(t1, TestHead);
    var t3 := t.(acc := Entered(sock));
    assert t3 == Do(t2, Enter(sock));
    var t4 := t.(acc := TailLoaded(sock, tail));
    assert t4 == Do(t3, LoadTail);
    t' := Do(t4, LoadHead);
  }

  /** Enqueuing one socket into a ring with room, up to the claim of the flag. */
  lemma PushRun(states: iset<Chan>, t: Chan, sock: int) returns (t': Chan)
    requires Closed(states) && t in states && Inv(false, t) && t.acc == Idle && HasRoom(t.ring)
    ensures t' in states && Inv(false, t')
    ensures t'.ring.capacity == t.ring.capacity
    ensures t'.ring.sent == t.ring.sent + [sock] && t'.ring.taken == t.ring.taken && t'.ring.stores == t.ring.stores
    ensures t' == t.(ring := t'.ring, pending := true, acc := if t.pending then Idle else Claimed)
  {
    var t1 := RoomRun(states, t, sock);
    StepInv(false, t1, WriteSlot);
    var t2 := Do(t1, WriteSlot);
    StepInv(false, t2, StoreTail);
    var t3 := Do(t2, StoreTail);
    StepInv(false, t3, ClaimFlag);
    t' := Do(t3, ClaimFlag);
  }

  /** The worker wakes and empties the eventfd. */
  lemma WakeRun(states: iset<Chan>, t: Chan) returns (t': Chan)
    requires Closed(states) && t in states && t.ring.capacity > 0 && t.wrk == Parked && t.counter == 1
    ensures t' in states && t' == t.(counter := 0, wrk := Looking)
  {
    var t1 := t.(wrk := Batch(true));
    assert t1 == Do(t, Wake(true));
    var t2 := t.(wrk := Flushing);
    assert t2 == Do(t1, TakeSignal);
    var t3 := t.(wrk := Flushing, counter := 0);
    assert t3 == Do(t2, ReadEvent);
    t' := Do(t3, ReadEvent);
  }

  /** It takes the only socket. */
  lemma TakeRun(states: iset<Chan>, t: Chan) returns (t': Chan)
    requires Closed(states) && t in states && RingInv(t.ring) && StoresInv(t.ring)
    requires t.wrk == Looking && |t.ring.taken| < |t.ring.sent|
    ensures t' in states
            && t' == t.(wrk := PoppingStore(Slot(|t.ring.taken|, t.ring.capacity), t.ring.sent[|t.ring.taken|]))
  {
    OwnHeadIs(t.ring);
    EmptyTest(t.ring);
    var h, n := Slot(|t.ring.taken|, t.ring.capacity), |t.ring.taken|;
    assert Stored(t.ring, n);
    var t1 := t.(wrk := LookingTail(h));
    assert t1 == Do(t, LookHead);
    var t2 := t.(wrk := Fronting(h));
    assert t2 == Do(t1, LookTail);
    var t3 := t.(wrk := Popping(h, t.ring.sent[n]));
    assert t3 == Do(t2, ReadSlot);
    t' := Do(t3, PopTail);
  }

  /** Finding nothing more, it issues the clearing store. */
  lemma ClearRun(states: iset<Chan>, t: Chan) returns (t': Chan)
    requires Closed(states) && t in states && Inv(false, t)
    requires t.wrk.Handling? && t.ring.taken == t.ring.sent && t.ring.stores == []
    ensures t' in states && t' == t.(ring := t.ring.(stores := [FlagStore(false)]), wrk := Checking)
  {
    OwnHeadIs(t.ring);
    EmptyTest(t.ring);
    var h := Slot(|t.ring.taken|, t.ring.capacity);
    var t1 := t.(wrk := Looking);
    assert t1 == Do(t, Handled);
    var t2 := t.(wrk := LookingTail(h));
    assert t2 == Do(t1, LookHead);
    var t3 := t.(wrk := Clearing);
    assert t3 == Do(t2, LookTail);
    t' := Do(t3, ClearFlag);
    assert t.ring.stores + [FlagStore(false)] == [FlagStore(false)];
  }

  /** It passes the re-check while the clearing store is still buffered. */
  lemma EarlyRecheckRun(states: iset<Chan>, t: Chan) returns (t': Chan)
    requires Closed(states) && t in states && Inv(false, t)
    requires t.wrk.Checking? && t.ring.taken == t.ring.sent && t.ring.stores == [FlagStore(false)]
    ensures t' in states && t' == t.(wrk := Batch(false))
  {
    OwnHeadIs(t.ring);
    EmptyTest(t.ring);
    var t1 := t.(wrk := CheckingTail(Slot(|t.ring.taken|, t.ring.capacity)));
    assert t1 == Do(t, CheckHead);
    t' := Do(t1, CheckTail);
  }

  /** A first socket is handed over in full. */
  lemma FirstSocketRun(states: iset<Chan>, s: Chan) returns (t: Chan)
    requires Closed(states) && s in states && Init(s) && IsPow2(s.ring.capacity) && s.ring.capacity > 1
    ensures t in states && Inv(false, t) && |t.ring.stores| == 1 && t.ring.sent == t.ring.taken
    ensures t.pending && t.counter == 0 && !t.dropped && t.acc.Idle? && t.wrk.Handling?
    ensures t.ring.capacity == s.ring.capacity
  {
    InitInv(false, s);
    StepInv(false, s, Boot);
    t := Do(s, Boot);
    t := PushRun(states, t, 7);
    StepInv(false, t, WriteEvent);
    t := Do(t, WriteEvent);
    t := WakeRun(states, t);
    t := TakeRun(states, t);
    StepInv(false, t, PopHead);
    t := Do(t, PopHead);
  }

  lemma IntoEarlyRecheck(states: iset<Chan>, t: Chan) returns (t': Chan)
    requires Closed(states) && t in states && Inv(false, t) && t.ring.capacity > 1
    requires |t.ring.stores| == 1 && t.ring.sent == t.ring.taken && t.wrk.Handling?
    ensures t' in states && Inv(false, t') && t'.ring.stores == [FlagStore(false)] && HasRoom(t'.ring)
    ensures t' == t.(ring := t'.ring, wrk := Batch(false)) && t'.ring.sent == t'.ring.taken
  {
    StepInv(false, t, Drain);
    var t1 := Do(t, Drain);
    var t2 := ClearRun(states, t1);
    ClearKeepsRing(t1.ring);
    assert t1.ring.stores + [FlagStore(false)] == [FlagStore(false)];
    t' := EarlyRecheckRun(states, t2);
  }

  /** The code as written can end with a socket queued, the worker asleep and no wake-up coming. */
  lemma UnfencedRunStrands(states: iset<Chan>, s: Chan) returns (t: Chan)
    requires Closed(states) && s in states && Init(s) && IsPow2(s.ring.capacity) && s.ring.capacity > 1
    ensures t in states && Stranded(t) && !t.dropped
  {
    t := FirstSocketRun(states, s);
    t := IntoEarlyRecheck(states, t);
    t := PushRun(states, t, 8);
    t := Do(t, Drain);
    t := Do(t, Sleep);
  }

  /** A worker that is signalled before its startup() can end likewise, its only wake-up lost. */
  lemma EarlyWriteStrands(states: iset<Chan>, s: Chan) returns (t: Chan)
    requires Closed(states) && s in states && Init(s) && IsPow2(s.ring.capacity) && s.ring.capacity > 1
    ensures t in states && Stranded(t) && t.dropped
  {
    InitInv(false, s);
    t := PushRun(states, s, 7);
    t := Do(t, WriteEvent);
    t := Do(t, Boot);
  }

  ghost function Reachable(s: Chan): iset<Chan> {
    iset run | CanRun(false, s, run) :: After(false, s, run)
  }

  lemma ReachableIsClosed(s: Chan)
    ensures Closed(Reachable(s)) && s in Reachable(s)
  {
    assert CanRun(false, s, []) && After(false, s, []) == s;
    forall t, a | t in Reachable(s) && t.ring.capacity > 0 && Enabled(false, t, a)
      ensures Do(t, a) in Reachable(s)
    {
      var run :| CanRun(false, s, run) && After(false, s, run) == t;
      Append(false, s, run, a);
    }
  }

  // ---------------------------------------------------------------- which runs of the code strand a socket

  /**
   * The acceptor is about to find the flag set although its clearing store has been issued, and the
   * worker's re-check is already over: nobody will announce the socket just published.
   */
  predicate Misses(s: Chan) {
    s.pending && ClearInFlight(s.ring) && !Rechecking(s) && |s.ring.taken| < |s.ring.sent|
  }

  /** The last compare-and-swap of the acceptor in the run misses; `missed` if the run has none. */
  predicate LastClaimMisses(s: Chan, run: seq<Action>, missed: bool)
    requires CanRun(false, s, run)
    decreases |run|
  {
    if run == [] then missed
    else LastClaimMisses(Do(s, run[0]), run[1..], if run[0].ClaimFlag? then Misses(s) else missed)
  }

  /** After a miss nobody holds a token and the worker is on its way to sleep; else sockets are covered. */
  ghost predicate MissInv(s: Chan, missed: bool) {
    && (|s.ring.taken| < |s.ring.sent| && Tokens(s) == 0 && !missed ==> s.acc.Published? || Rechecking(s))
    && (missed ==> |s.ring.taken| < |s.ring.sent| && Tokens(s) == 0 && (s.wrk.Parked? || s.wrk == Batch(false)))
  }

  lemma AcceptorKeepsMiss(s: Chan, a: Action, missed: bool)
    requires TokenInv(s) && MissInv(s, missed) && s.ring.capacity > 0 && ByAcceptor(a) && Enabled(false, s, a)
    ensures MissInv(DoAcceptor(s, a), if a.ClaimFlag? then Misses(s) else missed)
  {
  }

  lemma WorkerKeepsMiss(s: Chan, a: Action, missed: bool)
    requires QueueInv(s) && TokenInv(s) && MissInv(s, missed) && !ByAcceptor(a) && Enabled(false, s, a)
    ensures MissInv(DoWorker(s, a), missed)
  {
    if a.Drain? {
      DrainKeepsRing(s.ring);
    } else if a.CheckTail? {
      EmptyTest(s.ring);
    }
  }

  lemma {:induction false} RunKeepsMiss(s: Chan, run: seq<Action>, missed: bool)
    requires Inv(false, s) && MissInv(s, missed) && CanRun(false, s, run)
    ensures MissInv(After(false, s, run), LastClaimMisses(s, run, missed))
    decreases |run|
  {
    if run != [] {
      var a := run[0];
      var next := if a.ClaimFlag? then Misses(s) else missed;
      if ByAcceptor(a) {
        AcceptorKeepsMiss(s, a, missed);
      } else {
        WorkerKeepsMiss(s, a, missed);
      }
      StepInv(false, s, a);
      RunKeepsMiss(Do(s, a), run[1..], next);
    }
  }

  /**
   * The code as written, run by run: a worker at rest has sockets left behind exactly when it was
   * signalled before its startup(), or the acceptor's last claim missed.
   */
  lemma StrandedIffClaimMissed(s: Chan, run: seq<Action>)
    requires Init(s) && IsPow2(s.ring.capacity) && CanRun(false, s, run)
    ensures var t := After(false, s, run);
            Quiescent(t) ==> (Stranded(t) <==> EarlyWrite(run) || LastClaimMisses(s, run, false))
  {
    InitInv(false, s);
    RunInv(false, s, run);
    DroppedIffEarlyWrite(false, s, run);
    RunKeepsMiss(s, run, false);
  }

  /** With the ordered re-check no claim misses. */
  lemma {:induction false} FencedClaimsNeverMiss(s: Chan, run: seq<Action>)
    requires Inv(true, s) && CanRun(true, s, run)
    ensures CanRun(false, s, run) && After(false, s, run) == After(true, s, run) && !LastClaimMisses(s, run, false)
    decreases |run|
  {
    if run != [] {
      StepInv(true, s, run[0]);
      FencedClaimsNeverMiss(Do(s, run[0]), run[1..]);
    }
  }

  /** A run of the code that starts the worker first and still ends with a missed claim exists. */
  lemma SomeClaimMisses(s: Chan) returns (run: seq<Action>)
    requires Init(s) && IsPow2(s.ring.capacity) && s.ring.capacity > 1
    ensures CanRun(false, s, run) && !EarlyWrite(run) && Stranded(After(false, s, run))
            && LastClaimMisses(s, run, false)
  {
    ReachableIsClosed(s);
    var t := UnfencedRunStrands(Reachable(s), s);
    run :| CanRun(false, s, run) && After(false, s, run) == t;
    InitInv(false, s);
    DroppedIffEarlyWrite(false, s, run);
    StrandedIffClaimMissed(s, run);
  }

  /** A run of the code that signals the worker before its startup() and ends with a socket left behind exists. */
  lemma SomeEarlyWriteStrands(s: Chan) returns (run: seq<Action>)
    requires Init(s) && IsPow2(s.ring.capacity) && s.ring.capacity > 1
    ensures CanRun(false, s, run) && EarlyWrite(run) && Stranded(After(false, s, run))
  {
    ReachableIsClosed(s);
    var t := EarlyWriteStrands(Reachable(s), s);
    run :| CanRun(false, s, run) && After(false, s, run) == t;
    InitInv(false, s);
    DroppedIffEarlyWrite(false, s, run);
  }

  /** Over all runs: no wake-up is lost after startup exactly when the re-check is ordered after the clear. */
  lemma WakeupsNeedTheFence(fenced: bool)
    ensures NeverStrands(fenced) <==> fenced
  {
    if fenced {
      forall s, run | Init(s) && IsPow2(s.ring.capacity) && CanRun(fenced, s, run) && !EarlyWrite(run)
        ensures !Stranded(After(fenced, s, run))
      {
        NoLostWakeup(s, run);
      }
    } else {
      assert IsPow2(2) by { assert Pow2(1) == 2; }
      var run := SomeClaimMisses(FRESH);
    }
  }
}
