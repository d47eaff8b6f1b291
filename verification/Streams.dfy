/**
 * The per-stream bookkeeping of a session (src/session.cc): the nghttp2 callbacks that create, fill,
 * serve and delete StreamData objects, the list that owns them and the user-data pointers that
 * nghttp2 keeps for each stream.
 *
 * nghttp2 is taken to start the request headers of a stream once per stream, and to forget a
 * stream's user data after its close callback. A request handler may change the StreamData it is
 * given and no other; its effect on that object and its return code are a parameter. What makes the
 * temporary names of a new upload parser its own (its address and thread) comes with the header
 * callback that creates it. Every request has the method GET or POST.
 */
module Streams {
  import opened Common
  import opened Paths
  import opened Routers
  import T = RouteTables
  import M = Multipart

  /** What a StreamData object holds; `verb` is None while the field is uninitialised. */
  datatype Stream = Stream(path: string, verb: Option<Method>, parser: Option<M.Parser>, body: string)

  const FRESH_STREAM := Stream("", None, None, "")

  /** What a handler leaves of the stream, and its return code; a non-zero one makes nghttp2 fail. */
  datatype Reply = Reply(stream: Stream, code: int)

  /** The session's router, and what each handler does with its parameter and stream; no handler is the 404 reply. */
  datatype Service = Service(routes: Node, respond: (Option<Handler>, string, Stream) -> Reply)

  /** on_request_recv: the route of a request, and its reply. */
  function RouteOf(svc: Service, s: Stream): (Option<Handler>, string) {
    Find(svc.routes, Segments(s.path), if s.verb.Some? then s.verb.value else GET, "")
  }

  function Answer(svc: Service, s: Stream): Reply {
    svc.respond(RouteOf(svc, s).0, RouteOf(svc, s).1, s)
  }

  datatype Callback =
    | BeginHeaders(id: nat, request: bool)
    | Header(id: nat, request: bool, name: string, value: string, prefix: string)
    | DataChunk(id: nat, chunk: string)
    | FrameReceived(id: nat, endStream: bool)   // HEADERS or DATA
    | GoAway(lastStream: nat)
    | StreamClose(id: nat)

  // ---------------------------------------------------------------- reference

  /** The effect of one header field on a stream. */
  function WithHeader(s: Stream, name: string, value: string, prefix: string): Stream {
    if name == ":path" then s.(path := value)
    else if name == ":method" then
      if value == "GET" then s.(verb := Some(GET))
      else if value == "POST" then s.(verb := Some(POST), parser := Some(M.NewParser(prefix)))
      else s
    else if name == "content-type" && s.parser.Some? then s.(parser := Some(M.ExtractBoundary(s.parser.value, value).0))
    else s
  }

  function Apply(m: map<nat, Stream>, c: Callback, svc: Service): map<nat, Stream> {
    match c
    case BeginHeaders(id, request) => if request then m[id := FRESH_STREAM] else m
    case Header(id, request, name, value, prefix) =>
      if request && id in m then m[id := WithHeader(m[id], name, value, prefix)] else m
    case DataChunk(id, chunk) => if id in m then m[id := m[id].(body := m[id].body + chunk)] else m
    case FrameReceived(id, endStream) => 
      if endStream && id in m then m[id := Answer(svc, m[id]).stream.(body := "")] else m
    case GoAway(_) => m
    case StreamClose(id) => m - {id}
  }

  function Run(m: map<nat, Stream>, cs: seq<Callback>, svc: Service): map<nat, Stream>
    decreases |cs|
  {
    if cs == [] then m else Run(Apply(m, cs[0], svc), cs[1..], svc)
  }

  predicate Concerns(c: Callback, id: nat) {
    !c.GoAway? && c.id == id
  }

  /** The callbacks of one stream, in order. */
  function Only(cs: seq<Callback>, id: nat): seq<Callback> {
    if cs == [] then []
    else if Concerns(cs[0], id) then [cs[0]] + Only(cs[1..], id)
    else Only(cs[1..], id)
  }

  /** Two states agree on one stream. */
  predicate SameAt(m: map<nat, Stream>, n: map<nat, Stream>, id: nat) {
    (id in m <==> id in n) && (id in m ==> m[id] == n[id])
  }

  /** A callback that changes nothing in its stream. */
  predicate Silent(c: Callback) {
    match c
    case BeginHeaders(_, request) => !request
    case Header(_, request, name, value, _) =>
      !request || (name != ":path" && name != ":method" && name != "content-type")
      || (name == ":method" && value != "GET" && value != "POST")
    case DataChunk(_, chunk) => chunk == ""
    case FrameReceived(_, endStream) => !endStream
    case GoAway(_) => true
    case StreamClose(_) => false
  }

  /** The callbacks of one stream that matter to it, in order. */
  function Telling(cs: seq<Callback>, id: nat): seq<Callback> {
    if cs == [] then []
    else if Concerns(cs[0], id) && !Silent(cs[0]) then [cs[0]] + Telling(cs[1..], id)
    else Telling(cs[1..], id)
  }

  lemma SilentLeaves(m: map<nat, Stream>, c: Callback, svc: Service, id: nat)
    requires !Concerns(c, id) || Silent(c)
    ensures SameAt(Apply(m, c, svc), m, id)
  {
    if c.DataChunk? && id in m && Concerns(c, id) { assert m[id].body + "" == m[id].body; }
  }

  lemma TellingActsAlike(m: map<nat, Stream>, n: map<nat, Stream>, c: Callback, svc: Service, id: nat)
    requires SameAt(m, n, id) && Concerns(c, id)
    ensures SameAt(Apply(m, c, svc), Apply(n, c, svc), id)
  {
  }

  lemma RunFirst(m: map<nat, Stream>, c: Callback, cs: seq<Callback>, svc: Service)
    ensures Run(m, [c] + cs, svc) == Run(Apply(m, c, svc), cs, svc)
  {
    assert ([c] + cs)[1..] == cs;
  }

  /** Only a stream's own telling callbacks decide how it ends. */
  lemma {:induction false} TellingDecides(m: map<nat, Stream>, n: map<nat, Stream>, cs: seq<Callback>,
                                          svc: Service, id: nat)
    requires SameAt(m, n, id)
    ensures SameAt(Run(m, cs, svc), Run(n, Telling(cs, id), svc), id)
    decreases |cs|
  {
    if cs != [] {
      var c, m' := cs[0], Apply(m, cs[0], svc);
      if Concerns(c, id) && !Silent(c) {
        TellingActsAlike(m, n, c, svc, id);
        RunFirst(n, c, Telling(cs[1..], id), svc);
        TellingDecides(m', Apply(n, c, svc), cs[1..], svc, id);
      } else {
        SilentLeaves(m, c, svc, id);
        TellingDecides(m', n, cs[1..], svc, id);
      }
    }
  }

  lemma {:induction false} TellingOfOnly(cs: seq<Callback>, id: nat)
    ensures Telling(Only(cs, id), id) == Telling(cs, id)
  {
    if cs != [] {
      TellingOfOnly(cs[1..], id);
      if Concerns(cs[0], id) { assert ([cs[0]] + Only(cs[1..], id))[1..] == Only(cs[1..], id); }
    }
  }

  /** Callbacks of other streams, and silent ones of the stream itself, may come anywhere. */
  lemma {:induction false} OthersMayCome(before: seq<Callback>, c: Callback, after: seq<Callback>, id: nat)
    requires !Concerns(c, id) || Silent(c)
    ensures Telling(before + [c] + after, id) == Telling(before + after, id)
  {
    if before == [] {
      assert before + [c] + after == [c] + after && ([c] + after)[1..] == after && before + after == after;
    } else {
      assert (before + [c] + after)[1..] == before[1..] + [c] + after && (before + after)[1..] == before[1..] + after;
      OthersMayCome(before[1..], c, after, id);
    }
  }

  /** Isolation: however callbacks of many streams interleave, a stream ends as if it had been alone. */
  lemma StreamsAreIsolated(m: map<nat, Stream>, cs: seq<Callback>, svc: Service, id: nat)
    ensures SameAt(Run(m, cs, svc), Run(m, Only(cs, id), svc), id)
  {
    TellingDecides(m, m, cs, svc, id);
    TellingDecides(m, m, Only(cs, id), svc, id);
    TellingOfOnly(cs, id);
  }

  // ---------------------------------------------------------------- an upload over an interleaved session

  function Concat(pieces: seq<string>): string {
    if pieces == [] then "" else pieces[0] + Concat(pieces[1..])
  }

  function Chunks(id: nat, pieces: seq<string>): seq<Callback> {
    if pieces == [] then [] else [DataChunk(id, pieces[0])] + Chunks(id, pieces[1..])
  }

  /** The body is the concatenation of the chunks, and nothing else changes. */
  lemma {:induction false} ChunksFillBody(m: map<nat, Stream>, id: nat, pieces: seq<string>, svc: Service)
    requires id in m
    ensures var n := Run(m, Chunks(id, pieces), svc);
            id in n && n[id] == m[id].(body := m[id].body + Concat(pieces))
    decreases |pieces|
  {
    var body := m[id].body;
    if pieces == [] {
      assert body + "" == body;
    } else {
      var m' := Apply(m, DataChunk(id, pieces[0]), svc);
      RunFirst(m, DataChunk(id, pieces[0]), Chunks(id, pieces[1..]), svc);
      ChunksFillBody(m', id, pieces[1..], svc);
      assert body + pieces[0] + Concat(pieces[1..]) == body + Concat(pieces);
    }
  }

  /**
   * What a request tells before its body: the two pseudo-headers in either order, then the content type
   * if it has one. `prefix` is that of the parser a POST creates; the other headers' prefixes are not used.
   */
  datatype Request = Request(
    verb: Method, path: string, contentType: Option<string>, prefix: string,
    pathFirst: bool, spare: string, spareType: string)

  function PathHeader(id: nat, q: Request): Callback {
    Header(id, true, ":path", q.path, q.spare)
  }

  function MethodHeader(id: nat, q: Request): Callback {
    Header(id, true, ":method", if q.verb.GET? then "GET" else "POST", q.prefix)
  }

  /** The content type, if any, in front of the rest. */
  function Typed(id: nat, q: Request, rest: seq<Callback>): seq<Callback> {
    if q.contentType.None? then rest
    else [Header(id, true, "content-type", q.contentType.value, q.spareType)] + rest
  }

  function Announce(id: nat, q: Request, rest: seq<Callback>): seq<Callback> {
    var one := if q.pathFirst then PathHeader(id, q) else MethodHeader(id, q);
    var two := if q.pathFirst then MethodHeader(id, q) else PathHeader(id, q);
    [BeginHeaders(id, true)] + ([one] + ([two] + Typed(id, q, rest)))
  }

  /** The parser of a POST request, told the content type. */
  function ParserOf(q: Request): Option<M.Parser> {
    if q.verb.GET? then None
    else if q.contentType.None? then Some(M.NewParser(q.prefix))
    else Some(M.ExtractBoundary(M.NewParser(q.prefix), q.contentType.value).0)
  }

  /** The stream when its body begins. */
  function Begun(q: Request): Stream {
    Stream(q.path, Some(q.verb), ParserOf(q), "")
  }

  lemma RunHeader(m: map<nat, Stream>, id: nat, s: Stream, c: Callback, rest: seq<Callback>, svc: Service)
    requires c.Header? && c.id == id && c.request
    ensures Run(m[id := s], [c] + rest, svc) == Run(m[id := WithHeader(s, c.name, c.value, c.prefix)], rest, svc)
  {
    RunFirst(m[id := s], c, rest, svc);
    assert m[id := s][id := WithHeader(s, c.name, c.value, c.prefix)]
           == m[id := WithHeader(s, c.name, c.value, c.prefix)];
  }

  lemma Announced(m: map<nat, Stream>, id: nat, q: Request, rest: seq<Callback>, svc: Service)
    ensures Run(m, Announce(id, q, rest), svc) == Run(m[id := Begun(q)], rest, svc)
  {
    var one := if q.pathFirst then PathHeader(id, q) else MethodHeader(id, q);
    var two := if q.pathFirst then MethodHeader(id, q) else PathHeader(id, q);
    var more := Typed(id, q, rest);
    var s1 := WithHeader(FRESH_STREAM, one.name, one.value, one.prefix);
    var s2 := Stream(q.path, Some(q.verb), if q.verb.GET? then None else Some(M.NewParser(q.prefix)), "");
    assert s2 == WithHeader(s1, two.name, two.value, two.prefix);
    RunFirst(m, BeginHeaders(id, true), [one] + ([two] + more), svc);
    RunHeader(m, id, FRESH_STREAM, one, [two] + more, svc);
    RunHeader(m, id, s1, two, more, svc);
    if q.contentType.Some? { RunHeader(m, id, s2, more[0], rest, svc); }
  }

  /**
   * A request as it arrives among those of other streams: its stream has the path and the method that
   * were sent, a parser exactly if that is POST, and the whole body.
   */
  lemma RequestArrives(m: map<nat, Stream>, cs: seq<Callback>, svc: Service, id: nat, q: Request, pieces: seq<string>)
    requires Telling(cs, id) == Announce(id, q, Chunks(id, pieces))
    ensures var n := Run(m, cs, svc);
            && id in n && n[id] == Begun(q).(body := Concat(pieces))
            && n[id].path == q.path && n[id].verb == Some(q.verb) && n[id].body == Concat(pieces)
            && (n[id].parser.Some? <==> q.verb.POST?)
  {
    TellingDecides(m, m, cs, svc, id);
    Announced(m, id, q, Chunks(id, pieces), svc);
    ChunksFillBody(m[id := Begun(q)], id, pieces, svc);
    assert "" + Concat(pieces) == Concat(pieces);
  }

  lemma {:induction false} RunLast(m: map<nat, Stream>, cs: seq<Callback>, c: Callback, svc: Service)
    ensures Run(m, cs + [c], svc) == Apply(Run(m, cs, svc), c, svc)
    decreases |cs|
  {
    if cs == [] {
      assert [] + [c] == [c] + [];
      RunFirst(m, c, [], svc);
    } else {
      assert (cs + [c])[1..] == cs[1..] + [c];
      RunLast(Apply(m, cs[0], svc), cs[1..], c, svc);
    }
  }

  /** The part of the uploader that stores the file: write on the stream's parser and body. */
  function Store(s: Stream, files: M.Files, k: M.Kernel): M.Outcome
    requires s.parser.Some?
  {
    M.Write(s.parser.value, files, k, s.body)
  }

  /**
   * A request among those of other streams, when its last frame arrives: the winning route of the
   * registered ones is given the whole request and the parameter that route captured.
   */
  lemma RequestIsServed(m: map<nat, Stream>, cs: seq<Callback>, svc: Service, id: nat, q: Request, pieces: seq<string>,
                        rs: seq<T.Registration>)
    requires Telling(cs, id) == Announce(id, q, Chunks(id, pieces)) && svc.routes == T.TrieAfter(rs)
    ensures var n, given := Run(m, cs, svc), Begun(q).(body := Concat(pieces));
            var (handler, param) := RouteOf(svc, given);
            && id in n && n[id] == given && T.Resolves(T.TableAfter(rs), q.verb, q.path, (handler, param))
            && Run(m, cs + [FrameReceived(id, true)], svc)
               == n[id := svc.respond(handler, param, given).stream.(body := "")]
  {
    RequestArrives(m, cs, svc, id, q, pieces);
    RunLast(m, cs, FrameReceived(id, true), svc);
    T.AddsRefine(rs);
    T.FindResolves(svc.routes, T.TableAfter(rs), q.verb, q.path);
  }

  /**
   * A well-formed upload, sent in any pieces and with any other headers while any other streams run.
   * When its last frame arrives the handler is given a StreamData whose storing puts the content up to
   * its first CRLF under the filename or leaves it in the temporary file; the files are as the upload
   * asks precisely when it is storable.
   */
  lemma InterleavedUpload(m: map<nat, Stream>, cs: seq<Callback>, svc: Service, id: nat,
                          q: Request, pieces: seq<string>, u: M.Part,
                          lead: string, rest: string, files: M.Files, k: M.Kernel)
    requires Telling(cs, id) == Announce(id, q, Chunks(id, pieces)) && Concat(pieces) == M.Print(u)
    requires q.verb.POST? && q.contentType == Some(M.ContentType(u, lead, rest)) && M.Announces(u, lead, rest)
    requires M.WellFormed(u)
    requires M.Prepared(u, files, M.TemporaryName(q.prefix, 0))
    ensures id in Run(m, cs, svc)
    ensures var given := Run(m, cs, svc)[id];
            && given.path == q.path && given.verb == Some(POST) && given.parser.Some?
            && Run(m, cs + [FrameReceived(id, true)], svc)
               == Run(m, cs, svc)[id := Answer(svc, given).stream.(body := "")]
            && var r := Store(given, files, k);
               && r.complete && r.parser.fileMap == map[] && r.parser.currentFilename == u.filename
               && r.files == M.Uploaded(u, files, k, M.TemporaryName(q.prefix, 0))
               && (k.opens ==> (r.files == files[u.filename := u.content] <==> M.Storable(u, k)))
  {
    RequestArrives(m, cs, svc, id, q, pieces);
    RunLast(m, cs, FrameReceived(id, true), svc);
    M.UploadFromTheStart(u, lead, rest, files, k, q.prefix);
  }

  /** A closed stream is gone, whatever came before and whatever other streams do afterwards. */
  lemma ClosedIsGone(m: map<nat, Stream>, before: seq<Callback>, after: seq<Callback>, svc: Service, id: nat)
    requires Telling(after, id) == []
    ensures id !in Run(m, before + [StreamClose(id)], svc)
    ensures id !in Run(Run(m, before + [StreamClose(id)], svc), after, svc)
  {
    RunLast(m, before, StreamClose(id), svc);
    var n := Run(m, before + [StreamClose(id)], svc);
    TellingDecides(n, n, after, svc, id);
  }

  /** nghttp2 begins the request headers of a stream only while the stream has no user data. */
  predicate Orderly(m: map<nat, Stream>, cs: seq<Callback>, svc: Service)
    decreases |cs|
  {
    cs == [] || ((cs[0].BeginHeaders? && cs[0].request ==> cs[0].id !in m)
                 && Orderly(Apply(m, cs[0], svc), cs[1..], svc))
  }

  // ---------------------------------------------------------------- the objects

  class StreamData {
    var path: string
    var verb: Option<Method>
    var parser: Option<M.Parser>
    var body: string

    constructor ()
      ensures Value() == FRESH_STREAM
    {
      path, verb, parser, body := "", None, None, "";
    }

    ghost function Value(): Stream
      reads this
    {
      Stream(path, verb, parser, body)
    }
  }

  ghost predicate Injective(m: map<nat, StreamData>) {
    forall i, j :: i in m && j in m && m[i] == m[j] ==> i == j
  }

  lemma Added(m: map<nat, StreamData>, id: nat, d: StreamData)
    requires Injective(m) && id !in m && d !in m.Values
    ensures Injective(m[id := d]) && m[id := d].Values == m.Values + {d}
  {
    var n := m[id := d];
    assert forall i :: i in m ==> n[i] == m[i] && m[i] in m.Values;
    forall e | e in m.Values + {d} ensures e in n.Values {
      if e != d {
        var i :| i in m && m[i] == e;
        assert n[i] == e;
      } else {
        assert n[id] == d;
      }
    }
  }

  lemma Removed(m: map<nat, StreamData>, id: nat)
    requires Injective(m) && id in m
    ensures Injective(m - {id}) && (m - {id}).Values == m.Values - {m[id]}
  {
    var n := m - {id};
    forall e | e in m.Values - {m[id]} ensures e in n.Values {
      var i :| i in m && m[i] == e;
      assert i in n && n[i] == e;
    }
  }

  class SessionStreams {
    var streams: seq<StreamData>             // owns the objects
    var userData: map<nat, StreamData>       // nghttp2's pointer for each stream
    var disconnecting: bool
    var goaways: seq<nat>                    // the GOAWAY frames submitted, by their last stream
    const svc: Service                       // its router is set up before the server listens

    /** The list holds the pointed-to objects, each once, and no others. */
    ghost predicate Valid()
      reads this
    {
      Distinct(streams) && Injective(userData) && (set d | d in streams) == userData.Values
    }

    ghost function View(): map<nat, Stream>
      reads this, userData.Values
    {
      map id | id in userData :: userData[id].Value()
    }

    constructor (svc: Service)
      ensures Valid() && View() == map[] && this.svc == svc && !disconnecting && goaways == []
    {
      streams, userData, disconnecting, goaways := [], map[], false, [];
      this.svc := svc;
    }

    /** on_begin_headers_callback. */
    method OnBeginHeaders(id: nat, request: bool)
      requires Valid() && (request ==> id !in userData)
      modifies this
      ensures Valid() && View() == Apply(old(View()), BeginHeaders(id, request), svc)
      ensures disconnecting == old(disconnecting) && goaways == old(goaways)
      ensures request ==>
                && id in userData && fresh(userData[id]) && userData == old(userData)[id := userData[id]]
                && streams == old(streams) + [userData[id]]
      ensures !request ==> userData == old(userData) && streams == old(streams)
    {
      if request {
        var d := new StreamData();
        Added(userData, id, d);
        userData := userData[id := d];
        streams := streams + [d];
      }
    }

    /** on_header_callback. */
    method OnHeader(id: nat, request: bool, name: string, value: string, prefix: string)
      requires Valid()
      modifies userData.Values
      ensures Valid() && View() == Apply(old(View()), Header(id, request, name, value, prefix), svc)
    {
      if request && id in userData {
        var d := userData[id];
        if name == ":path" {
          d.path := value;
        } else if name == ":method" {
          if value == "GET" {
            d.verb := Some(GET);
          } else if value == "POST" {
            d.verb := Some(POST);
            d.parser := Some(M.NewParser(prefix));
          }
        } else if name == "content-type" {
          if d.parser.Some? {
            var (p, _) := M.ExtractBoundary(d.parser.value, value);
            d.parser := Some(p);
          }
        }
        assert forall i :: i in userData && i != id ==> userData[i] != d;
        assert d.Value() == WithHeader(old(d.Value()), name, value, prefix);
      }
    }

    /** on_data_chunk_recv_callback. */
    method OnDataChunk(id: nat, chunk: string)
      requires Valid()
      modifies userData.Values
      ensures Valid() && View() == Apply(old(View()), DataChunk(id, chunk), svc)
    {
      if id in userData {
        var d := userData[id];
        if |chunk| > 0 {
          d.body := d.body + chunk;
        }
        assert old(d.body) + chunk == d.body;
        assert forall i :: i in userData && i != id ==> userData[i] != d;
        assert d.Value() == old(d.Value()).(body := old(d.body) + chunk);
      }
    }

    /** on_frame_recv_callback for HEADERS and DATA: on_request_recv, then the Request destructor. */
    method OnFrameReceived(id: nat, endStream: bool) returns (code: int)
      requires Valid()
      modifies userData.Values
      ensures Valid() && View() == Apply(old(View()), FrameReceived(id, endStream), svc)
      ensures code == if endStream && id in old(View()) then Answer(svc, old(View())[id]).code else 0
    {
      if endStream && id in userData {
        var d := userData[id];
        var v := Stream(d.path, d.verb, d.parser, d.body);
        var (handler, param) := RouteOf(svc, v);
        var reply := svc.respond(handler, param, v);
        d.path, d.verb, d.parser, d.body := reply.stream.path, reply.stream.verb, reply.stream.parser, "";
        assert forall i :: i in userData && i != id ==> userData[i] != d;
        assert d.Value() == Answer(svc, old(d.Value())).stream.(body := "");
        return reply.code;
      }
      return 0;
    }

    /** on_frame_recv_callback for GOAWAY: answered with a GOAWAY frame. */
    method OnGoAway(lastStream: nat)
      requires Valid()
      modifies this`disconnecting, this`goaways
      ensures Valid() && View() == Apply(old(View()), GoAway(lastStream), svc)
      ensures disconnecting && goaways == old(goaways) + [lastStream]
    {
      goaways := goaways + [lastStream];
      disconnecting := true;
    }

    /** on_stream_close_callback, and nghttp2 forgetting the stream. */
    method OnStreamClose(id: nat)
      requires Valid()
      modifies this
      ensures Valid() && View() == Apply(old(View()), StreamClose(id), svc)
      ensures disconnecting == old(disconnecting) && goaways == old(goaways) && userData == old(userData) - {id}
      ensures forall d :: d in streams <==> d in old(streams) && !(id in old(userData) && d == old(userData)[id])
    {
      if id in userData {
        var d, i := userData[id], 0;
        assert d in userData.Values && d in (set e | e in streams);
        while i < |streams| && streams[i] != d
          invariant 0 <= i <= |streams| && forall j :: 0 <= j < i ==> streams[j] != d
        {
          i := i + 1;
        }
        RemovedOne(streams, i, d);
        Removed(userData, id);
        streams := streams[..i] + streams[i + 1..];
        userData := userData - {id};
      } else {
        assert userData - {id} == userData;
      }
    }
  }

  /** The answers to the GOAWAY frames among the callbacks. */
  function Answers(cs: seq<Callback>, i: nat := 0): seq<nat>
    decreases |cs| - i
  {
    if i >= |cs| then [] else (if cs[i].GoAway? then [cs[i].lastStream] else []) + Answers(cs, i + 1)
  }

  /** Any orderly sequence of callbacks: the objects hold what the reference run says. */
  method Deliver(s: SessionStreams, cs: seq<Callback>)
    requires s.Valid() && Orderly(s.View(), cs, s.svc)
    modifies s, s.userData.Values
    ensures s.Valid() && s.View() == Run(old(s.View()), cs, s.svc)
    ensures s.goaways == old(s.goaways) + Answers(cs)
    ensures s.disconnecting <==> old(s.disconnecting) || Answers(cs) != []
  {
    var i := 0;
    while i < |cs|
      invariant 0 <= i <= |cs| && s.Valid()
      invariant Run(s.View(), cs[i..], s.svc) == Run(old(s.View()), cs, s.svc)
      invariant Orderly(s.View(), cs[i..], s.svc)
      invariant forall d :: d in s.userData.Values ==> d in old(s.userData.Values) || fresh(d)
      invariant s.goaways + Answers(cs, i) == old(s.goaways) + Answers(cs)
      invariant s.disconnecting || Answers(cs, i) != [] <==> old(s.disconnecting) || Answers(cs) != []
    {
      ghost var before := s.View();
      match cs[i] {
        case BeginHeaders(id, request) => s.OnBeginHeaders(id, request);
        case Header(id, request, name, value, prefix) => s.OnHeader(id, request, name, value, prefix);
        case DataChunk(id, chunk) => s.OnDataChunk(id, chunk);
        case FrameReceived(id, endStream) => var _ := s.OnFrameReceived(id, endStream);
        case GoAway(lastStream) => s.OnGoAway(lastStream);
        case StreamClose(id) => s.OnStreamClose(id);
      }
      assert cs[i..][1..] == cs[i + 1..];
      assert s.View() == Apply(before, cs[i], s.svc);
      i := i + 1;
    }
  }

  lemma RemovedOne(list: seq<StreamData>, i: nat, d: StreamData)
    requires i < |list| && list[i] == d && Distinct(list)
    ensures var rest := list[..i] + list[i + 1..];
            && (forall e :: e in rest <==> e in list && e != d)
            && Distinct(rest)
  {
    var rest := list[..i] + list[i + 1..];
    forall e | e in list && e != d ensures e in rest {
      var j :| 0 <= j < |list| && list[j] == e;
      assert rest[if j < i then j else j - 1] == e;
    }
    forall e | e in rest ensures e in list && e != d {
      var j :| 0 <= j < |rest| && rest[j] == e;
      assert list[if j < i then j else j + 1] == e;
    }
  }
}
