/**
 * One client connection as its worker drives it (src/worker.cc, the SessionData of src/session.cc):
 * TLS handshake, establishment, the read and write paths with their byte buffers, the epoll interest
 * and disconnection.
 *
 * The kernel with OpenSSL, and nghttp2, are objects of their own (Socket, Http2). They keep the
 * histories that count: what the socket has delivered and taken, what nghttp2 has been fed and has
 * said. Their replies during one event are a script; one that has run out answers "would block" to
 * reads and writes, consumes everything fed, and has nothing more to say. Plain and TLS transfers have the
 * same reply kinds: an SSL_ERROR_WANT_* or EAGAIN is Again, EINTR is Interrupted, everything else
 * that is not data ends the connection. nghttp2's and OpenSSL's wishes (want_read, want_write)
 * change only when one of their functions is called. epoll_ctl MOD fails with ENOENT on a descriptor
 * that is not registered, and otherwise MOD and ADD succeed.
 */
module Connections {
  import opened Common

  type Bytes = string

  datatype SessionState = Connecting | Disconnecting | TlsHandshaking | Establishing | Established

  datatype IOResult = Success | Again | Shutdown

  /** EPOLLIN and EPOLLOUT of a registration; EPOLLET and EPOLLRDHUP are always added. */
  datatype Interest = Interest(input: bool, output: bool)

  const NOTHING := Interest(false, false)

  /** What nghttp2 or OpenSSL would like to do next. */
  datatype Wish = Wish(read: bool, write: bool)

  datatype ReadReply = Got(data: Bytes) | ReadEof | ReadInterrupted | ReadAgain | ReadFailed
  datatype WriteReply = Wrote(n: nat) | WriteInterrupted | WriteAgain | WriteFailed
  datatype FeedReply = Fed(n: nat, wish: Wish, goaway: bool) | FeedFailed(wish: Wish, goaway: bool)
  datatype SendReply = Chunk(data: Bytes, wish: Wish)
  datatype AcceptReply = Accepted(h2: bool) | AcceptWants(wish: Wish) | AcceptFailed

  datatype Event = Event(readable: bool, writable: bool, closing: bool)

  datatype Script = Script(
    incoming: seq<ReadReply>, sslAfterRead: Wish, feeds: seq<FeedReply>,
    sends: seq<SendReply>, writes: seq<WriteReply>, sslAfterWrite: Wish,
    accept: AcceptReply, settingsOk: bool)

  // ---------------------------------------------------------------- what the loops are to do

  /** The bytes that a read loop collects: all data up to the first reply that ends it. */
  function Collected(rs: seq<ReadReply>, i: nat := 0): Bytes
    decreases |rs| - i
  {
    if i >= |rs| then ""
    else match rs[i]
         case Got(data) => data + Collected(rs, i + 1)
         case ReadInterrupted => Collected(rs, i + 1)
         case _ => ""
  }

  /** How a read loop ends. */
  function ReadEnd(rs: seq<ReadReply>, i: nat := 0): IOResult
    decreases |rs| - i
  {
    if i >= |rs| then Again
    else match rs[i]
         case Got(_) => ReadEnd(rs, i + 1)
         case ReadInterrupted => ReadEnd(rs, i + 1)
         case ReadAgain => Again
         case _ => Shutdown
  }

  /** What feeding `have` bytes to nghttp2 comes to: the bytes it consumes before it is done or fails. */
  datatype Feeding = Feeding(n: nat, wish: Wish, goaway: bool, failed: bool)

  function FeedRun(have: nat, wish: Wish, feeds: seq<FeedReply>, i: nat := 0): (f: Feeding)
    ensures f.n <= have && (!f.failed ==> f.n == have)
    decreases |feeds| - i
  {
    if have == 0 || i >= |feeds| then Feeding(have, wish, false, false)
    else match feeds[i]
         case FeedFailed(w, g) => Feeding(0, w, g, true)
         case Fed(n, w, g) => var k := if n < have then n else have; Resumed(k, g, FeedRun(have - k, w, feeds, i + 1))
  }

  /** A feed loop that has consumed `k` bytes before, with GOAWAY seen or not. */
  function Resumed(k: nat, gone: bool, f: Feeding): Feeding {
    Feeding(k + f.n, f.wish, gone || f.goaway, f.failed)
  }

  /** nghttp2 makes progress: a call that does not fail consumes something. */
  predicate Progress(feeds: seq<FeedReply>) {
    forall i :: 0 <= i < |feeds| && feeds[i].Fed? ==> feeds[i].n > 0
  }

  /** The bytes that nghttp2 hands over while it wants to write, and its wish afterwards. */
  function Offered(wish: Wish, sends: seq<SendReply>, i: nat := 0): Bytes
    decreases |sends| - i
  {
    if !wish.write || i >= |sends| || sends[i].data == "" then ""
    else sends[i].data + Offered(sends[i].wish, sends, i + 1)
  }

  function WishAfter(wish: Wish, sends: seq<SendReply>, i: nat := 0): Wish
    decreases |sends| - i
  {
    if !wish.write || i >= |sends| then wish
    else if sends[i].data == "" then sends[i].wish
    else WishAfter(sends[i].wish, sends, i + 1)
  }

  /** How many bytes a flush loop moves, given how many there are, and how it ends. */
  function Flushed(have: nat, writes: seq<WriteReply>, i: nat := 0): (n: nat)
    ensures n <= have
    decreases |writes| - i
  {
    if have == 0 || i >= |writes| then 0
    else match writes[i]
         case Wrote(n) => var k := if n < have then n else have; k + Flushed(have - k, writes, i + 1)
         case WriteInterrupted => Flushed(have, writes, i + 1)
         case _ => 0
  }

  function FlushEnd(have: nat, writes: seq<WriteReply>, i: nat := 0): IOResult
    decreases |writes| - i
  {
    if have == 0 then Success
    else if i >= |writes| then Again
    else match writes[i]
         case Wrote(n) => FlushEnd(if n < have then have - n else 0, writes, i + 1)
         case WriteInterrupted => FlushEnd(have, writes, i + 1)
         case WriteAgain => Again
         case WriteFailed => Shutdown
  }

  /** The socket makes progress: a write that does not fail takes something. */
  predicate Moving(writes: seq<WriteReply>) {
    forall i :: 0 <= i < |writes| && writes[i].Wrote? ==> writes[i].n > 0
  }

  function Interruptions(writes: seq<WriteReply>, i: nat := 0): nat
    decreases |writes| - i
  {
    if i >= |writes| then 0 else Interruptions(writes, i + 1) + if writes[i].WriteInterrupted? then 1 else 0
  }

  /** Where the handshake's reply and the SETTINGS submission take a new connection. */
  function Opening(tls: bool, reply: AcceptReply, settingsOk: bool): SessionState {
    if tls && reply.AcceptWants? then TlsHandshaking
    else if (tls ==> reply == Accepted(true)) && settingsOk then Established
    else Disconnecting
  }

  /** Moving `n` bytes from the front of what is left keeps the whole. */
  lemma Moved(done: Bytes, left: Bytes, n: nat)
    requires n <= |left|
    ensures (done + left[..n]) + left[n..] == done + left
  {
    assert left == left[..n] + left[n..];
    Assoc(done, left[..n], left[n..]);
  }

  lemma Whole(done: Bytes, left: Bytes, more: Bytes)
    requires done + left == done + more
    ensures left == more
  {
    assert left == (done + left)[|done|..] && more == (done + more)[|done|..];
  }

  lemma Assoc(a: Bytes, b: Bytes, c: Bytes)
    ensures a + (b + c) == (a + b) + c
  {}

  /** The read path ends the connection: end of file or an error on the socket, or nghttp2 fails. */
  predicate Broken(s: Script, wish: Wish) {
    ReadEnd(s.incoming).Shutdown? || FeedRun(|Collected(s.incoming)|, wish, s.feeds).failed
  }

  /** The write path ends the connection: the socket fails before all `have` and new bytes are out. */
  predicate Refused(s: Script, wish: Wish, have: nat) {
    FlushEnd(have + |Offered(wish, s.sends)|, s.writes).Shutdown?
  }

  /** The replies that the loops get to their call number `i`. */
  function ReadReplyAt(rs: seq<ReadReply>, i: nat): ReadReply {
    if i < |rs| then rs[i] else ReadAgain
  }

  /** A write takes at most what it is offered. */
  function WriteReplyAt(writes: seq<WriteReply>, i: nat, have: nat): (r: WriteReply)
    ensures r.Wrote? ==> r.n <= have
  {
    if i >= |writes| then WriteAgain
    else match writes[i]
         case Wrote(n) => Wrote(if n < have then n else have)
         case other => other
  }

  function FeedReplyAt(feeds: seq<FeedReply>, i: nat, have: nat, wish: Wish): FeedReply {
    if i < |feeds| then feeds[i] else Fed(have, wish, false)
  }

  function Consumed(reply: FeedReply, have: nat): (n: nat)
    ensures n <= have
  {
    if reply.FeedFailed? then 0 else if reply.n < have then reply.n else have
  }

  lemma FeedStep(feeds: seq<FeedReply>, i: nat, have: nat, wish: Wish, k: nat, gone: bool)
    requires have > 0
    ensures var reply := FeedReplyAt(feeds, i, have, wish);
            var n := Consumed(reply, have);
            Resumed(k, gone, FeedRun(have, wish, feeds, i)) ==
            if reply.FeedFailed? then Feeding(k, reply.wish, gone || reply.goaway, true)
            else Resumed(k + n, gone || reply.goaway, FeedRun(have - n, reply.wish, feeds, i + 1))
  {}

  // ---------------------------------------------------------------- the life of a connection, on values

  /** What there is to tell of a connection: `sent` counts the bytes of `produced` that the socket has taken. */
  datatype Life = Life(state: SessionState, ng: Wish, received: Bytes, produced: Bytes, sent: nat, alive: bool)

  function Pending(l: Life): nat {
    if l.sent <= |l.produced| then |l.produced| - l.sent else 0
  }

  /** Disconnecting with nothing left to send. */
  predicate Finished(l: Life) {
    l.state.Disconnecting? && !l.ng.write && Pending(l) == 0
  }

  /** An event for which the worker reads. */
  predicate Reads(ev: Event) {
    ev.readable || ev.closing
  }

  /** After the read path. */
  function AfterRead(l: Life, s: Script): Life {
    var got := Collected(s.incoming);
    if ReadEnd(s.incoming).Shutdown? then l.(received := l.received + got)
    else
      var f := FeedRun(|got|, l.ng, s.feeds);
      l.(received := l.received + got, ng := f.wish, state := if f.goaway then Disconnecting else l.state)
  }

  /** After the write path. */
  function AfterWrite(l: Life, s: Script): Life {
    var out := Offered(l.ng, s.sends);
    l.(produced := l.produced + out, ng := WishAfter(l.ng, s.sends),
       sent := l.sent + Flushed(Pending(l) + |out|, s.writes))
  }

  /** After an event of a connection that is past its handshake. */
  function AfterEvent(l: Life, ev: Event, s: Script): Life {
    var l1 := if Reads(ev) then AfterRead(l, s) else l;
    if (Reads(ev) && Broken(s, l.ng)) || Finished(l1) then l1.(alive := false)
    else if !ev.writable && !l1.ng.write && Pending(l1) == 0 then l1.(alive := !ev.closing)
    else
      var l2 := AfterWrite(l1, s);
      l2.(alive := !ev.closing && !Refused(s, l1.ng, Pending(l1)) && !Finished(l2))
  }

  /** After an attempt at the handshake and, if it is over, at establishing. */
  function AfterAccept(l: Life, tls: bool, reply: AcceptReply, settingsOk: bool): Life {
    var next := Opening(tls, reply, settingsOk);
    if next.Disconnecting? then l.(alive := false) else l.(state := next)
  }

  function AfterDispatch(l: Life, ev: Event, s: Script): Life {
    if l.state.TlsHandshaking? then AfterAccept(l, true, s.accept, s.settingsOk) else AfterEvent(l, ev, s)
  }

  /** After all events from number `i` on, or as many as the connection lives to see. */
  function AfterAll(l: Life, events: seq<(Event, Script)>, i: nat := 0): Life
    decreases |events| - i
  {
    if i >= |events| || !l.alive then l else AfterAll(AfterDispatch(l, events[i].0, events[i].1), events, i + 1)
  }

  /** The number of the first event that the connection does not live to see. */
  function Until(l: Life, events: seq<(Event, Script)>, i: nat := 0): nat
    decreases |events| - i
  {
    if i >= |events| || !l.alive then i else Until(AfterDispatch(l, events[i].0, events[i].1), events, i + 1)
  }

  /** The number of the first event after a handshake that goes on while OpenSSL wants more. */
  function ShakenBy(events: seq<(Event, Script)>, i: nat := 0): nat
    decreases |events| - i
  {
    if i >= |events| then i else if events[i].1.accept.AcceptWants? then ShakenBy(events, i + 1) else i + 1
  }

  /** The first event, from number `i` on, that is not spent on the handshake. */
  function Begins(l: Life, events: seq<(Event, Script)>, i: nat := 0): nat {
    if l.state.TlsHandshaking? then ShakenBy(events, i) else i
  }

  /** Everything that the socket gives for the events `i` to `end`. */
  function Gathered(events: seq<(Event, Script)>, i: nat, end: nat): Bytes
    requires end <= |events|
    decreases end - i
  {
    if i >= end then ""
    else (if Reads(events[i].0) then Collected(events[i].1.incoming) else "") + Gathered(events, i + 1, end)
  }

  /** nghttp2's wish once an event's input is fed, and what it hands over then, unless the read path breaks. */
  function WishFed(wish: Wish, ev: Event, s: Script): Wish {
    if Reads(ev) then FeedRun(|Collected(s.incoming)|, wish, s.feeds).wish else wish
  }

  function Told(wish: Wish, ev: Event, s: Script): Bytes {
    if Reads(ev) && Broken(s, wish) then "" else Offered(WishFed(wish, ev, s), s.sends)
  }

  /** Everything that nghttp2 hands over for the events `i` to `end`, its wish carried along. */
  function ToldAll(wish: Wish, events: seq<(Event, Script)>, i: nat, end: nat): Bytes
    requires end <= |events|
    decreases end - i
  {
    if i >= end then ""
    else
      var (ev, s) := events[i];
      Told(wish, ev, s) + ToldAll(WishAfter(WishFed(wish, ev, s), s.sends), events, i + 1, end)
  }

  /** One event past the handshake adds what it reads and what nghttp2 then says, and carries the wish along. */
  lemma EventAdds(l: Life, ev: Event, s: Script)
    ensures var l' := AfterEvent(l, ev, s);
            && l'.received == l.received + (if ev.readable || ev.closing then Collected(s.incoming) else "")
            && l'.produced == l.produced + Told(l.ng, ev, s)
            && (l'.alive ==> l'.ng == WishAfter(WishFed(l.ng, ev, s), s.sends))
            && (l'.state.TlsHandshaking? ==> l.state.TlsHandshaking?)
  {
    assert l.received + "" == l.received && l.produced + "" == l.produced;
  }

  /**
   * An event leaves a connection alive exactly when there is no close event, nothing breaks the read or
   * write path, and it is not then disconnecting with nothing left to send. Only GOAWAY changes the
   * state, and it starts disconnection.
   */
  lemma SurvivesIff(l: Life, ev: Event, s: Script)
    requires l.alive && !Finished(l)
    ensures var l' := AfterEvent(l, ev, s);
            var broken, wish := Reads(ev) && Broken(s, l.ng), WishFed(l.ng, ev, s);
            var finished := l'.state.Disconnecting? && !l'.ng.write && l'.sent >= |l'.produced|;
            && (l'.alive <==> !ev.closing && !broken && !finished
                              && !((ev.writable || wish.write || Pending(l) > 0) && Refused(s, wish, Pending(l))))
            && (!broken ==> l'.state == if Reads(ev) && FeedRun(|Collected(s.incoming)|, l.ng, s.feeds).goaway
                                        then Disconnecting else l.state)
  {
  }

  /**
   * Over every sequence of events: as long as the connection lives every event is handled; what it has
   * read is what the socket gave, and what it has to send is what nghttp2 said, for all events after the
   * handshake that it lived to see.
   */
  lemma {:induction false} LifeGathers(l: Life, events: seq<(Event, Script)>, i: nat)
    requires i <= |events| && l.alive
    ensures var begin, end, l' := Begins(l, events, i), Until(l, events, i), AfterAll(l, events, i);
            && i <= end <= |events| && (l'.alive ==> end == |events|)
            && l'.received == l.received + Gathered(events, begin, end)
            && l'.produced == l.produced + ToldAll(l.ng, events, begin, end)
    decreases |events| - i
  {
    assert l.received + "" == l.received && l.produced + "" == l.produced;
    if i < |events| {
      var (ev, s) := events[i];
      var l1 := AfterDispatch(l, ev, s);
      if l1.alive { LifeGathers(l1, events, i + 1); }
      if !l.state.TlsHandshaking? { EventGathers(l, events, i, Until(l, events, i)); }
    }
  }

  /** The event that a life past its handshake sees first, in front of what the others add. */
  lemma EventGathers(l: Life, events: seq<(Event, Script)>, i: nat, end: nat)
    requires i < end <= |events| && !l.state.TlsHandshaking?
    ensures var l1 := AfterEvent(l, events[i].0, events[i].1);
            && !l1.state.TlsHandshaking?
            && (l1.alive || end == i + 1 ==>
                  && l1.received + Gathered(events, i + 1, end) == l.received + Gathered(events, i, end)
                  && l1.produced + ToldAll(l1.ng, events, i + 1, end) == l.produced + ToldAll(l.ng, events, i, end))
  {
    var (ev, s) := events[i];
    var wish := WishAfter(WishFed(l.ng, ev, s), s.sends);
    EventAdds(l, ev, s);
    Assoc(l.received, if Reads(ev) then Collected(s.incoming) else "", Gathered(events, i + 1, end));
    Assoc(l.produced, Told(l.ng, ev, s), ToldAll(wish, events, i + 1, end));
  }

  /** A handshake goes on as long as OpenSSL wants more, whatever the events. */
  lemma {:induction false} HandshakeLasts(l: Life, events: seq<(Event, Script)>, i: nat, j: nat)
    requires l.alive && l.state.TlsHandshaking? && i <= j <= |events|
    requires forall k :: i <= k < j ==> events[k].1.accept.AcceptWants?
    ensures AfterAll(l, events, i) == AfterAll(l, events, j) && Until(l, events, i) == Until(l, events, j)
    decreases j - i
  {
    if i < j { HandshakeLasts(l, events, i + 1, j); }
  }

  /** The reply that ends the handshake establishes the connection iff h2 was selected and SETTINGS submitted. */
  lemma HandshakeEnds(l: Life, events: seq<(Event, Script)>, i: nat, j: nat)
    requires l.alive && l.state.TlsHandshaking? && i <= j < |events| && !events[j].1.accept.AcceptWants?
    requires forall k :: i <= k < j ==> events[k].1.accept.AcceptWants?
    ensures var ok := events[j].1.accept == Accepted(true) && events[j].1.settingsOk;
            && (ok ==> AfterAll(l, events, i) == AfterAll(l.(state := Established), events, j + 1))
            && (!ok ==> AfterAll(l, events, i) == l.(alive := false) && Until(l, events, i) == j + 1)
  {
    HandshakeLasts(l, events, i, j);
  }

  // ---------------------------------------------------------------- the other side

  /** The descriptor: the kernel's side of the connection, and OpenSSL's when there is one. */
  class Socket {
    var incoming: seq<ReadReply>         // what it is going to reply
    var readAt: nat
    var writes: seq<WriteReply>
    var writeAt: nat
    var open: bool
    var registered: Option<Interest>     // in the worker's epoll object

    ghost var delivered: Bytes           // everything that read has handed out
    ghost var taken: Bytes               // everything that write has accepted
    ghost var secured: bool              // SSL_accept has succeeded with h2 selected
    ghost var lastRead: ReadReply
    ghost var lastWrite: WriteReply

    constructor ()
      ensures open && registered == None && delivered == "" && taken == "" && !secured
      ensures lastRead == ReadAgain && lastWrite == WriteAgain
    {
      incoming, readAt, writes, writeAt, open, registered := [], 0, [], 0, true, None;
      delivered, taken, secured, lastRead, lastWrite := "", "", false, ReadAgain, WriteAgain;
    }

    /** It is going to reply like this. */
    method Expect(incoming: seq<ReadReply>, writes: seq<WriteReply>)
      modifies this`incoming, this`readAt, this`writes, this`writeAt
      ensures this.incoming == incoming && readAt == 0 && this.writes == writes && writeAt == 0
    {
      this.incoming, readAt, this.writes, writeAt := incoming, 0, writes, 0;
    }

    /** read and SSL_read. */
    method Read() returns (reply: ReadReply)
      modifies this`readAt, this`delivered, this`lastRead
      ensures reply == lastRead == ReadReplyAt(incoming, old(readAt)) && readAt == old(readAt) + 1
      ensures delivered == old(delivered) + if reply.Got? then reply.data else ""
    {
      reply := ReadReplyAt(incoming, readAt);
      readAt := readAt + 1;
      lastRead := reply;
      delivered := delivered + if reply.Got? then reply.data else "";
    }

    /** write and SSL_write. */
    method Write(data: Bytes) returns (reply: WriteReply)
      modifies this`writeAt, this`taken, this`lastWrite
      ensures reply == lastWrite == WriteReplyAt(writes, old(writeAt), |data|) && writeAt == old(writeAt) + 1
      ensures taken == old(taken) + if reply.Wrote? then data[..reply.n] else ""
    {
      reply := WriteReplyAt(writes, writeAt, |data|);
      writeAt := writeAt + 1;
      lastWrite := reply;
      taken := taken + if reply.Wrote? then data[..reply.n] else "";
    }

    /** SSL_accept, with the protocol selected in the handshake. */
    method Accept(reply: AcceptReply)
      modifies this`secured
      ensures secured == (old(secured) || reply == Accepted(true))
    {
      secured := secured || reply == Accepted(true);
    }

    /** epoll_ctl MOD: fails with ENOENT on a descriptor that is not registered. */
    method Modify(wanted: Interest) returns (ok: bool)
      modifies this`registered
      ensures ok <==> old(registered).Some?
      ensures registered == if ok then Some(wanted) else old(registered)
    {
      ok := registered.Some?;
      if ok {
        registered := Some(wanted);
      }
    }

    /** epoll_ctl ADD. */
    method Add(wanted: Interest)
      modifies this`registered
      ensures registered == Some(wanted)
    {
      registered := Some(wanted);
    }

    /** epoll_ctl DEL and close. */
    method Close()
      requires open
      modifies this`registered, this`open
      ensures !open && registered == None
    {
      registered, open := None, false;
    }
  }

  /** The nghttp2 session. */
  class Http2 {
    var wish: Wish
    var feeds: seq<FeedReply>            // what it is going to reply
    var feedAt: nat
    var sends: seq<SendReply>
    var sendAt: nat

    ghost var fed: Bytes                 // everything it has consumed
    ghost var said: Bytes                // everything it has handed over
    ghost var settings: nat              // SETTINGS submitted
    ghost var goaway: bool               // a GOAWAY frame has come
    ghost var failed: bool
    ghost var mute: bool                 // the last call had nothing to say

    constructor (wish: Wish)
      ensures this.wish == wish && fed == "" && said == "" && settings == 0 && !goaway && !failed
    {
      this.wish := wish;
      feeds, feedAt, sends, sendAt := [], 0, [], 0;
      fed, said, settings, goaway, failed, mute := "", "", 0, false, false, false;
    }

    /** It is going to reply like this. */
    method Expect(feeds: seq<FeedReply>, sends: seq<SendReply>)
      modifies this`feeds, this`feedAt, this`sends, this`sendAt
      ensures this.feeds == feeds && feedAt == 0 && this.sends == sends && sendAt == 0
    {
      this.feeds, feedAt, this.sends, sendAt := feeds, 0, sends, 0;
    }

    /** nghttp2_session_mem_recv2; `gone` tells whether a GOAWAY frame was among the data. */
    method MemRecv(data: Bytes) returns (n: int, gone: bool)
      modifies this`wish, this`feedAt, this`fed, this`goaway, this`failed
      ensures var reply := FeedReplyAt(feeds, old(feedAt), |data|, old(wish));
              && wish == reply.wish && gone == reply.goaway && feedAt == old(feedAt) + 1
              && (if reply.FeedFailed? then n < 0 else n == Consumed(reply, |data|))
      ensures n <= |data| && fed == old(fed) + if n < 0 then "" else data[..n]
      ensures goaway == (old(goaway) || gone) && failed == (old(failed) || n < 0)
    {
      var reply := FeedReplyAt(feeds, feedAt, |data|, wish);
      wish, gone, feedAt := reply.wish, reply.goaway, feedAt + 1;
      n := if reply.FeedFailed? then -1 else Consumed(reply, |data|);
      fed := fed + if n < 0 then "" else data[..n];
      goaway, failed := goaway || gone, failed || n < 0;
    }

    /** nghttp2_session_mem_send2. */
    method MemSend() returns (data: Bytes)
      modifies this`wish, this`sendAt, this`said, this`mute
      ensures sendAt == old(sendAt) + 1 && said == old(said) + data && (mute <==> data == "")
      ensures (data, wish) == if old(sendAt) < |sends| then (sends[old(sendAt)].data, sends[old(sendAt)].wish)
                              else ("", old(wish))
    {
      data := "";
      if sendAt < |sends| {
        data, wish := sends[sendAt].data, sends[sendAt].wish;
      }
      sendAt := sendAt + 1;
      said := said + data;
      mute := data == "";
    }

    /** nghttp2_submit_settings. */
    method SubmitSettings(ok: bool)
      modifies this`settings
      ensures settings == old(settings) + if ok then 1 else 0
    {
      settings := settings + if ok then 1 else 0;
    }
  }

  // ---------------------------------------------------------------- the connection

  class Connection {
    const tls: bool
    const socket: Socket
    const http2: Http2
    var state: SessionState
    var events: Interest                 // SessionData::events
    var inMap: bool                      // still in session_map
    var inputBuffer: Bytes
    var outputBuffer: Bytes
    var ssl: Wish

    /** Over TLS only after a handshake that selected h2, with SETTINGS submitted once. */
    ghost predicate Ready()
      reads this, socket, http2
    {
      http2.settings == 1 && (tls ==> socket.secured)
    }

    /** What nghttp2 is fed is what the socket delivers, and what the socket takes is what nghttp2 says. */
    ghost predicate Conserves()
      reads this, socket, http2
    {
      http2.fed + inputBuffer == socket.delivered && socket.taken + outputBuffer == http2.said
    }

    /** No byte is lost, duplicated or reordered, and none moves before the connection is ready. */
    ghost predicate Valid()
      reads this, socket, http2
    {
      && Conserves()
      && (state.Established? || state.Disconnecting? || socket.delivered != "" || http2.said != "" ==> Ready())
      && (state.Connecting? || state.TlsHandshaking? ==> http2.settings == 0 && !http2.goaway)
      && http2.settings <= 1 && (state.Established? ==> !http2.goaway) && (state.Disconnecting? ==> http2.goaway)
      && (inMap <==> socket.open) && (!inMap ==> socket.registered == None)
      && (inMap ==> if socket.registered.Some? then socket.registered.value == events else events == NOTHING)
    }

    /** What there is to tell of the connection. */
    ghost function View(): Life
      reads this, socket, http2
    {
      Life(state, http2.wish, socket.delivered, http2.said, |socket.taken|, inMap)
    }

    ghost predicate Active()
      reads this, socket, http2
    {
      Valid() && Ready() && inMap && (state.Established? || state.Disconnecting?)
    }

    /** During the handshake the kernel watches for what OpenSSL wants, and for input if that is nothing. */
    ghost predicate WatchedInHandshake()
      reads this, socket
    {
      && socket.registered.Some?
      && (socket.registered.value.output <==> ssl.write)
      && (socket.registered.value.input <==> ssl.read || !ssl.write)
    }

    /** Afterwards for output iff there is some to come, and, unless disconnecting, for input iff it is wanted. */
    ghost predicate Watched()
      reads this, socket, http2
    {
      var toWrite := http2.wish.write || outputBuffer != "" || (tls && ssl.write);
      && socket.registered.Some?
      && (socket.registered.value.output <==> toWrite)
      && (state.Disconnecting? ==> toWrite && !socket.registered.value.input)
      && (!state.Disconnecting? ==>
            (socket.registered.value.input <==> http2.wish.read || (tls && ssl.read) || !toWrite))
    }

    /**
     * Nothing is left undone that no new edge would announce: the last read would have blocked, and so
     * would the last write if there is still something to send.
     */
    ghost predicate Exhausted()
      reads this, socket, http2
    {
      && inputBuffer == "" && socket.lastRead.ReadAgain? && !http2.failed
      && !socket.lastWrite.WriteFailed? && (outputBuffer != "" ==> socket.lastWrite.WriteAgain?)
    }

    /** Between two events. */
    ghost predicate AtRest()
      reads this, socket, http2
    {
      && Valid() && inMap && Exhausted()
      && (state.TlsHandshaking? ==> tls && !socket.secured && WatchedInHandshake())
      && (!state.TlsHandshaking? ==> Active() && Watched())
      && (state.Disconnecting? ==> http2.wish.write || outputBuffer != "")
    }

    /** The other side is going to answer from this script. */
    ghost predicate Loaded(s: Script)
      reads this, socket, http2
    {
      && socket.incoming == s.incoming && socket.readAt == 0 && socket.writes == s.writes && socket.writeAt == 0
      && http2.feeds == s.feeds && http2.feedAt == 0 && http2.sends == s.sends && http2.sendAt == 0
    }

    constructor (tls: bool, wish: Wish)
      ensures Valid() && inMap && state == Connecting && this.tls == tls && Exhausted() && !socket.secured
      ensures fresh(socket) && fresh(http2) && View() == Life(Connecting, wish, "", "", 0, true)
    {
      this.tls := tls;
      socket := new Socket();
      http2 := new Http2(wish);
      state, events, inMap := Connecting, NOTHING, true;
      inputBuffer, outputBuffer, ssl := "", "", Wish(false, false);
    }

    // -------------------------------------------------------------- epoll interest

    /** update_event and set_event: the recorded and the registered interest become `wanted`. */
    method UpdateEvent(wanted: Interest)
      requires Valid() && inMap
      modifies this`events, socket`registered
      ensures Valid() && events == wanted && (wanted != NOTHING ==> socket.registered == Some(wanted))
    {
      if events == wanted {
        return;
      }
      events := wanted;
      var ok := socket.Modify(wanted);
      if !ok {
        socket.Add(wanted);
      }
    }

    /** update_events_h2c and update_events_tls. */
    method UpdateEvents()
      requires Valid() && inMap
      modifies this`events, socket`registered
      ensures Valid() && (ShouldCloseAfterDisconnect() || Watched())
    {
      var wanted := NOTHING;
      if state.Disconnecting? {
        if (tls && ssl.write) || http2.wish.write || outputBuffer != "" {
          wanted := wanted.(output := true);
        }
      } else {
        if (tls && ssl.read) || http2.wish.read {
          wanted := wanted.(input := true);
        }
        if (tls && ssl.write) || http2.wish.write || outputBuffer != "" {
          wanted := wanted.(output := true);
        }
        if wanted == NOTHING {
          wanted := Interest(true, false);
        }
      }
      UpdateEvent(wanted);
    }

    /** update_ssl_handshake_events. */
    method UpdateHandshakeEvents()
      requires Valid() && inMap
      modifies this`events, socket`registered
      ensures Valid() && WatchedInHandshake()
    {
      var wanted := Interest(ssl.read, ssl.write);
      if wanted == NOTHING {
        wanted := Interest(true, false);
      }
      UpdateEvent(wanted);
    }

    predicate ShouldCloseAfterDisconnect()
      reads this, http2
    {
      state.Disconnecting? && !http2.wish.write && outputBuffer == ""
    }

    lemma PendingIsBuffered()
      requires Conserves()
      ensures Pending(View()) == |outputBuffer| && (Finished(View()) <==> ShouldCloseAfterDisconnect())
    {
    }

    /** disconnect_from_client. */
    method Disconnect()
      requires Valid() && inMap
      modifies this`inMap, socket`registered, socket`open
      ensures Valid() && !inMap && !socket.open && socket.registered == None
    {
      socket.Close();
      inMap := false;
    }

    // -------------------------------------------------------------- establishment

    /** establish_connection. */
    method Establish(settingsOk: bool) returns (next: SessionState)
      modifies http2`settings
      ensures next == if settingsOk then Established else Disconnecting
      ensures http2.settings == if settingsOk then old(http2.settings) + 1 else old(http2.settings)
    {
      http2.SubmitSettings(settingsOk);
      return if settingsOk then Established else Disconnecting;
    }

    /** do_tls_handshake: one SSL_accept call and the check of the selected protocol. */
    method DoTlsHandshake(reply: AcceptReply) returns (next: SessionState)
      requires Valid() && inMap && tls && !socket.secured
      modifies this`events, this`ssl, socket`registered, socket`secured
      ensures Valid()
      ensures next == match reply
                      case Accepted(h2) => if h2 then Establishing else Disconnecting
                      case AcceptWants(_) => TlsHandshaking
                      case AcceptFailed => Disconnecting
      ensures socket.secured <==> reply == Accepted(true)
      ensures reply.AcceptWants? ==> ssl == reply.wish && WatchedInHandshake()
    {
      socket.Accept(reply);
      match reply {
        case Accepted(h2) =>
          ssl := Wish(false, false);
          return if h2 then Establishing else Disconnecting;
        case AcceptWants(wish) =>
          ssl := wish;
          UpdateHandshakeEvents();
          return TlsHandshaking;
        case AcceptFailed =>
          return Disconnecting;
      }
    }

    /** The tail of handle_tls_handshake and of handle_new_connections. */
    method FinishEstablishing(settingsOk: bool)
      requires Valid() && inMap && http2.settings == 0 && !http2.goaway && (tls ==> socket.secured) && Exhausted()
      requires state.Connecting? || state.TlsHandshaking?
      modifies this`state, this`events, this`inMap, http2`settings, socket`registered, socket`open
      ensures Valid() && (inMap <==> settingsOk) && (inMap ==> AtRest() && state == Established)
      ensures !inMap ==> state == old(state)
    {
      var next := Establish(settingsOk);
      if next.Disconnecting? {
        Disconnect();
        return;
      }
      state := next;
      UpdateEvents();
    }

    /** handle_new_connections, for a connection just put in the map. */
    method Start(reply: AcceptReply, settingsOk: bool)
      requires Valid() && inMap && state == Connecting && !socket.secured && Exhausted()
      modifies this`state, this`events, this`inMap, this`ssl
      modifies http2`settings, socket`registered, socket`open, socket`secured
      ensures Valid() && (inMap ==> AtRest())
      ensures View() == AfterAccept(old(View()), tls, reply, settingsOk)
    {
      if tls {
        var next := DoTlsHandshake(reply);
        if next.Disconnecting? {
          Disconnect();
          return;
        } else if next.TlsHandshaking? {
          state := next;
          return;
        }
      }
      FinishEstablishing(settingsOk);
    }

    /** handle_tls_handshake. */
    method HandleTlsHandshake(reply: AcceptReply, settingsOk: bool)
      requires AtRest() && state.TlsHandshaking?
      modifies this`state, this`events, this`inMap, this`ssl
      modifies http2`settings, socket`registered, socket`open, socket`secured
      ensures Valid() && (inMap ==> AtRest())
      ensures View() == AfterAccept(old(View()), true, reply, settingsOk)
    {
      var next := DoTlsHandshake(reply);
      if next.Disconnecting? {
        Disconnect();
        return;
      }
      if next.TlsHandshaking? {
        return;
      }
      FinishEstablishing(settingsOk);
    }

    // -------------------------------------------------------------- bytes

    /** append_to_input_buffer, with bytes that the socket has just delivered. */
    method AppendToInputBuffer(data: Bytes)
      requires socket.delivered == (http2.fed + inputBuffer) + data
      modifies this`inputBuffer
      ensures http2.fed + inputBuffer == socket.delivered && |inputBuffer| == |old(inputBuffer)| + |data|
    {
      Assoc(http2.fed, inputBuffer, data);
      inputBuffer := inputBuffer + data;
    }

    /** consume_input_buffer, after nghttp2 has consumed the first `n` bytes. */
    method ConsumeInputBuffer(n: nat, ghost before: Bytes)
      requires n <= |inputBuffer| && http2.fed == before + inputBuffer[..n] && before + inputBuffer == socket.delivered
      modifies this`inputBuffer
      ensures http2.fed + inputBuffer == socket.delivered && |inputBuffer| == |old(inputBuffer)| - n
    {
      Moved(before, inputBuffer, n);
      inputBuffer := inputBuffer[n..];
    }

    /** append_to_output_buffer, with bytes that nghttp2 has just handed over. */
    method AppendToOutputBuffer(data: Bytes)
      requires http2.said == (socket.taken + outputBuffer) + data
      modifies this`outputBuffer
      ensures socket.taken + outputBuffer == http2.said && |outputBuffer| == |old(outputBuffer)| + |data|
    {
      Assoc(socket.taken, outputBuffer, data);
      outputBuffer := outputBuffer + data;
    }

    /** consume_output_buffer, after the socket has taken the first `n` bytes. */
    method ConsumeOutputBuffer(n: nat, ghost before: Bytes)
      requires n <= |outputBuffer| && socket.taken == before + outputBuffer[..n] && before + outputBuffer == http2.said
      modifies this`outputBuffer
      ensures socket.taken + outputBuffer == http2.said && |outputBuffer| == |old(outputBuffer)| - n
    {
      Moved(before, outputBuffer, n);
      outputBuffer := outputBuffer[n..];
    }

    /** fill_input_buffer_h2c and fill_input_buffer_tls: all that the socket delivers until it stops. */
    method FillInputBuffer(sslAfter: Wish) returns (r: IOResult)
      requires Conserves()
      modifies this`inputBuffer, this`ssl, socket`readAt, socket`delivered, socket`lastRead
      ensures Conserves() && ssl == sslAfter && !r.Success?
      ensures r.Again? <==> socket.lastRead.ReadAgain?
      ensures r.Shutdown? <==> socket.lastRead.ReadEof? || socket.lastRead.ReadFailed?
      ensures r == ReadEnd(socket.incoming, old(socket.readAt)) && socket.readAt > old(socket.readAt)
      ensures socket.delivered == old(socket.delivered) + Collected(socket.incoming, old(socket.readAt))
    {
      ssl := sslAfter;
      ghost var all := socket.delivered + Collected(socket.incoming, socket.readAt);
      while true
        invariant Conserves() && ssl == sslAfter && socket.readAt >= old(socket.readAt)
        invariant socket.delivered + Collected(socket.incoming, socket.readAt) == all
        invariant ReadEnd(socket.incoming, socket.readAt) == ReadEnd(socket.incoming, old(socket.readAt))
        decreases |socket.incoming| - socket.readAt
      {
        ghost var before := socket.delivered;
        assert before + "" == before;
        var reply := socket.Read();
        match reply {
          case ReadEof => return Shutdown;
          case ReadInterrupted =>
          case ReadAgain => return Again;
          case ReadFailed => return Shutdown;
          case Got(data) =>
            Assoc(before, data, Collected(socket.incoming, socket.readAt));
            AppendToInputBuffer(data);
        }
      }
    }

    /** One turn of the feed loop: nghttp2's callbacks start disconnection at a GOAWAY frame. */
    method FeedOnce() returns (ok: bool, ghost reply: FeedReply)
      requires Active() && !http2.failed && inputBuffer != ""
      modifies this`inputBuffer, this`state, http2`wish, http2`feedAt, http2`fed, http2`goaway, http2`failed
      ensures Active() && http2.failed == !ok && http2.feedAt == old(http2.feedAt) + 1
      ensures reply == FeedReplyAt(http2.feeds, old(http2.feedAt), |old(inputBuffer)|, old(http2.wish))
      ensures ok == reply.Fed? && http2.wish == reply.wish
      ensures state == if reply.goaway then Disconnecting else old(state)
      ensures |inputBuffer| == |old(inputBuffer)| - Consumed(reply, |old(inputBuffer)|)
    {
      reply := FeedReplyAt(http2.feeds, http2.feedAt, |inputBuffer|, http2.wish);
      ghost var before := http2.fed;
      assert before + "" == before;
      var n, goaway := http2.MemRecv(inputBuffer);
      if goaway {
        state := Disconnecting;
      }
      if n < 0 {
        return false, reply;
      }
      ConsumeInputBuffer(n, before);
      return true, reply;
    }

    /** feed_input_buffer: all is fed unless nghttp2 fails, with at most one turn per byte if it makes progress. */
    method FeedInputBuffer() returns (r: IOResult, ghost turns: nat)
      requires Active() && !http2.failed
      modifies this`inputBuffer, this`state, http2`wish, http2`feedAt, http2`fed, http2`goaway, http2`failed
      ensures Active() && !r.Again? && (r.Shutdown? <==> http2.failed) && (r.Success? ==> inputBuffer == "")
      ensures var f := FeedRun(|old(inputBuffer)|, old(http2.wish), http2.feeds, old(http2.feedAt));
              && r == (if f.failed then Shutdown else Success) && http2.wish == f.wish
              && state == (if f.goaway then Disconnecting else old(state))
      ensures Progress(http2.feeds) ==> turns <= |old(inputBuffer)|
    {
      ghost var f := FeedRun(|inputBuffer|, http2.wish, http2.feeds, http2.feedAt);
      ghost var gone := false;
      turns := 0;
      while inputBuffer != ""
        invariant Active() && |inputBuffer| <= |old(inputBuffer)| && !http2.failed
        invariant state == if gone then Disconnecting else old(state)
        invariant f == Resumed(|old(inputBuffer)| - |inputBuffer|, gone,
                               FeedRun(|inputBuffer|, http2.wish, http2.feeds, http2.feedAt))
        invariant Progress(http2.feeds) ==> turns <= |old(inputBuffer)| - |inputBuffer|
        decreases if http2.feedAt < |http2.feeds| then |http2.feeds| - http2.feedAt else 0, |inputBuffer|
      {
        FeedStep(http2.feeds, http2.feedAt, |inputBuffer|, http2.wish, |old(inputBuffer)| - |inputBuffer|, gone);
        ghost var reply;
        var ok;
        ok, reply := FeedOnce();
        gone := gone || reply.goaway;
        if !ok {
          return Shutdown, turns;
        }
        turns := turns + 1;
      }
      return Success, turns;
    }

    /** fill_output_buffer: all that nghttp2 has to say, until it wants nothing more or has nothing. */
    method FillOutputBuffer()
      requires Conserves()
      modifies this`outputBuffer, http2`wish, http2`sendAt, http2`said, http2`mute
      ensures Conserves() && (http2.wish.write ==> http2.mute)
      ensures http2.wish == WishAfter(old(http2.wish), http2.sends, old(http2.sendAt))
      ensures http2.said == old(http2.said) + Offered(old(http2.wish), http2.sends, old(http2.sendAt))
    {
      ghost var all := http2.said + Offered(http2.wish, http2.sends, http2.sendAt);
      while http2.wish.write
        invariant Conserves()
        invariant http2.said + Offered(http2.wish, http2.sends, http2.sendAt) == all
        invariant WishAfter(http2.wish, http2.sends, http2.sendAt)
                  == WishAfter(old(http2.wish), http2.sends, old(http2.sendAt))
        decreases |http2.sends| - http2.sendAt
      {
        ghost var before := http2.said;
        assert before + "" == before;
        var data := http2.MemSend();
        if data == "" {
          return;
        }
        Assoc(before, data, Offered(http2.wish, http2.sends, http2.sendAt));
        AppendToOutputBuffer(data);
      }
    }

    /** One turn of the flush loop: what the socket takes leaves the buffer. */
    method FlushOnce() returns (reply: WriteReply)
      requires Conserves() && outputBuffer != ""
      modifies this`outputBuffer, socket`writeAt, socket`taken, socket`lastWrite
      ensures Conserves() && socket.writeAt == old(socket.writeAt) + 1
      ensures reply == socket.lastWrite == WriteReplyAt(socket.writes, old(socket.writeAt), |old(outputBuffer)|)
      ensures |outputBuffer| == |old(outputBuffer)| - if reply.Wrote? then reply.n else 0
      ensures |socket.taken| == |old(socket.taken)| + if reply.Wrote? then reply.n else 0
    {
      ghost var before := socket.taken;
      assert before + "" == before;
      reply := socket.Write(outputBuffer);
      if reply.Wrote? {
        ConsumeOutputBuffer(reply.n, before);
      }
    }

    /**
     * flush_output_buffer_h2c and flush_output_buffer_tls. `turns` counts the turns that do not end the
     * loop: when the socket makes progress, at most one per byte and one per interruption.
     */
    method FlushOutputBuffer(sslAfter: Wish) returns (r: IOResult, ghost turns: nat)
      requires Conserves() && !socket.lastWrite.WriteFailed?
      modifies this`outputBuffer, this`ssl, socket`writeAt, socket`taken, socket`lastWrite
      ensures Conserves() && ssl == sslAfter
      ensures (r.Success? <==> socket.taken == http2.said) && (r.Success? <==> outputBuffer == "")
      ensures (r.Again? ==> socket.lastWrite.WriteAgain?) && (r.Shutdown? <==> socket.lastWrite.WriteFailed?)
      ensures r == FlushEnd(|old(outputBuffer)|, socket.writes, old(socket.writeAt))
      ensures |socket.taken| == |old(socket.taken)| + Flushed(|old(outputBuffer)|, socket.writes, old(socket.writeAt))
      ensures Moving(socket.writes) ==> turns <= |old(outputBuffer)| + Interruptions(socket.writes, old(socket.writeAt))
    {
      ssl := sslAfter;
      turns := 0;
      ghost var start := socket.writeAt;
      while outputBuffer != ""
        invariant Conserves() && ssl == sslAfter && !socket.lastWrite.WriteFailed?
        invariant |socket.taken| + Flushed(|outputBuffer|, socket.writes, socket.writeAt)
                  == |old(socket.taken)| + Flushed(|old(outputBuffer)|, socket.writes, start)
        invariant FlushEnd(|outputBuffer|, socket.writes, socket.writeAt)
                  == FlushEnd(|old(outputBuffer)|, socket.writes, start)
        invariant Moving(socket.writes) ==>
                    turns + |outputBuffer| + Interruptions(socket.writes, socket.writeAt)
                    <= |old(outputBuffer)| + Interruptions(socket.writes, start)
        decreases |socket.writes| - socket.writeAt
      {
        var reply := FlushOnce();
        if reply.WriteAgain? {
          return Again, turns;
        } else if reply.WriteFailed? {
          return Shutdown, turns;
        }
        turns := turns + 1;
      }
      assert socket.taken + "" == socket.taken;
      return Success, turns;
    }

    // -------------------------------------------------------------- events

    /** handle_read. */
    method HandleRead(s: Script) returns (r: IOResult)
      requires AtRest() && !state.TlsHandshaking? && Loaded(s)
      modifies this`inputBuffer, this`ssl, this`state, this`events
      modifies socket`readAt, socket`delivered, socket`lastRead, socket`registered
      modifies http2`wish, http2`feedAt, http2`fed, http2`goaway, http2`failed
      ensures Active() && !r.Again? && (r.Success? ==> AtRest()) && socket.readAt > 0
      ensures View() == AfterRead(old(View()), s)
      ensures r.Shutdown? <==> Broken(s, old(http2.wish)) || Finished(View())
      ensures Broken(s, old(http2.wish)) <==> !socket.lastRead.ReadAgain? || http2.failed
    {
      assert socket.delivered == http2.fed + "" == http2.fed;
      var filled := FillInputBuffer(s.sslAfterRead);
      if filled.Shutdown? {
        return Shutdown;
      }
      Whole(http2.fed, inputBuffer, Collected(s.incoming));
      ghost var turns;
      var feed;
      feed, turns := FeedInputBuffer();
      if feed.Shutdown? {
        return Shutdown;
      }
      UpdateEvents();
      PendingIsBuffered();
      if ShouldCloseAfterDisconnect() {
        return Shutdown;
      }
      return Success;
    }

    /** handle_write. */
    method HandleWrite(s: Script) returns (r: IOResult)
      requires AtRest() && !state.TlsHandshaking? && socket.writes == s.writes && socket.writeAt == 0
      requires http2.sends == s.sends && http2.sendAt == 0
      modifies this`outputBuffer, this`ssl, this`events, socket`writeAt, socket`taken, socket`lastWrite
      modifies socket`registered, http2`wish, http2`sendAt, http2`said, http2`mute
      ensures Active() && (!r.Shutdown? ==> AtRest()) && (http2.wish.write ==> http2.mute)
      ensures View() == AfterWrite(old(View()), s)
      ensures r.Shutdown? <==> Refused(s, old(http2.wish), |old(outputBuffer)|) || Finished(View())
      ensures Refused(s, old(http2.wish), |old(outputBuffer)|) <==> socket.lastWrite.WriteFailed?
      ensures r.Success? ==> socket.taken == http2.said
    {
      PendingIsBuffered();
      FillOutputBuffer();
      assert |outputBuffer| == |old(outputBuffer)| + |Offered(old(http2.wish), s.sends)|;
      ghost var turns;
      r, turns := FlushOutputBuffer(s.sslAfterWrite);
      if r.Shutdown? {
        return;
      }
      UpdateEvents();
      PendingIsBuffered();
      if ShouldCloseAfterDisconnect() {
        return Shutdown;
      }
    }

    /** The read and write paths of handle_events. */
    method Transfer(ev: Event, s: Script) returns (result: IOResult)
      requires AtRest() && !state.TlsHandshaking? && Loaded(s)
      modifies this, socket, http2
      ensures Active() && (!result.Shutdown? ==> AtRest()) && (ev.readable || ev.closing ==> socket.readAt > 0)
      ensures var l := AfterEvent(old(View()), ev, s);
              View() == l.(alive := true) && (l.alive <==> !result.Shutdown? && !ev.closing)
      ensures result.Shutdown? <==>
                || !socket.lastRead.ReadAgain? || http2.failed || socket.lastWrite.WriteFailed? || Finished(View())
    {
      PendingIsBuffered();
      result := Success;
      if ev.readable || ev.closing {
        result := HandleRead(s);
        PendingIsBuffered();
      }
      if result.Success? {
        if ev.writable || outputBuffer != "" || http2.wish.write {
          result := HandleWrite(s);
          PendingIsBuffered();
        }
      }
    }

    /** handle_events: a connection that survives is again at rest. */
    method HandleEvents(ev: Event, s: Script)
      requires AtRest() && !state.TlsHandshaking? && Loaded(s)
      modifies this, socket, http2
      ensures Valid() && Ready() && (inMap ==> AtRest())
      ensures View() == AfterEvent(old(View()), ev, s)
      ensures ev.readable || ev.closing ==> socket.readAt > 0
      ensures inMap <==> && !ev.closing && socket.lastRead.ReadAgain? && !http2.failed
                         && !socket.lastWrite.WriteFailed? && !Finished(View())
    {
      var result := Transfer(ev, s);
      if result.Shutdown? || ev.closing {
        Disconnect();
      }
    }

    /** The dispatch in Worker::run. */
    method Dispatch(ev: Event, s: Script)
      requires AtRest() && Loaded(s)
      modifies this, socket, http2
      ensures Valid() && (inMap ==> AtRest())
      ensures View() == AfterDispatch(old(View()), ev, s)
    {
      if state.TlsHandshaking? {
        HandleTlsHandshake(s.accept, s.settingsOk);
      } else {
        HandleEvents(ev, s);
      }
    }

    /** epoll_wait, as far as this connection goes: the other side gets ready to answer from a script. */
    method Await(s: Script)
      requires AtRest()
      modifies socket`incoming, socket`readAt, socket`writes, socket`writeAt
      modifies http2`feeds, http2`feedAt, http2`sends, http2`sendAt
      ensures AtRest() && Loaded(s) && View() == old(View())
    {
      socket.Expect(s.incoming, s.writes);
      http2.Expect(s.feeds, s.sends);
    }
  }

  /**
   * The life of a connection: whatever events and replies come, it goes as on values, it is valid all
   * the time, and at rest while it lives. Every event is handled while it lives. The socket has delivered
   * what its replies to the events since the handshake hold, and nghttp2 was fed a prefix of that, all of
   * it while the connection lives; nghttp2 has said what its replies hold, and the socket took a prefix.
   */
  method Serve(c: Connection, accept: AcceptReply, settingsOk: bool, events: seq<(Event, Script)>)
    requires c.Valid() && c.inMap && c.state == Connecting && !c.socket.secured && c.Exhausted()
    modifies c, c.socket, c.http2
    ensures c.Valid() && (c.inMap ==> c.AtRest())
    ensures c.View() == AfterAll(AfterAccept(old(c.View()), c.tls, accept, settingsOk), events)
    ensures c.http2.fed <= c.socket.delivered && c.socket.taken <= c.http2.said
    ensures c.inMap ==> c.http2.fed == c.socket.delivered
    ensures var l := AfterAccept(old(c.View()), c.tls, accept, settingsOk);
            var begin, end := Begins(l, events), Until(l, events);
            && end <= |events| && (c.inMap ==> end == |events|)
            && (l.alive ==> c.socket.delivered == old(c.socket.delivered) + Gathered(events, begin, end))
            && (l.alive ==> c.http2.said == old(c.http2.said) + ToldAll(old(c.http2.wish), events, begin, end))
            && (!l.alive ==> c.socket.delivered == old(c.socket.delivered) && c.http2.said == old(c.http2.said))
  {
    c.Start(accept, settingsOk);
    ghost var l := c.View();
    var k := 0;
    while k < |events| && c.inMap
      invariant 0 <= k <= |events| && c.Valid() && (c.inMap ==> c.AtRest())
      invariant AfterAll(c.View(), events, k) == AfterAll(l, events)
    {
      c.Await(events[k].1);
      c.Dispatch(events[k].0, events[k].1);
      k := k + 1;
    }
    if l.alive { LifeGathers(l, events, 0); }
    if c.inMap { assert c.http2.fed + "" == c.http2.fed; }
  }
}
