/**
 * A flat table of routes as the reference for the trie of Router.dfy: what a sequence of
 * registrations leaves behind, what a lookup returns, and the listing round trip.
 */
module RouteTables {
  import opened Common
  import opened Paths
  import opened Routers

  datatype Registration = Registration(verb: Method, uri: string, handler: Option<Handler>)

  /** `claims`: the patterns under which a parameter segment has been used up, also by failed calls. */
  datatype Table = Table(routes: map<(Method, Pattern), Handler>, claims: set<Pattern>)

  const EMPTY_TABLE := Table(map[], {})

  predicate Stuck(t: Table, segs: seq<string>, i: nat)
    requires i < |segs|
  {
    ParamForm(segs[i]) && (|segs[i]| < 3 || PatternOf(segs[..i]) in t.claims)
  }

  function FirstStuck(t: Table, segs: seq<string>, i: nat): (n: nat)
    requires i <= |segs|
    ensures i <= n <= |segs| && (n < |segs| ==> Stuck(t, segs, n))
    ensures forall j :: i <= j < n ==> !Stuck(t, segs, j)
    decreases |segs| - i
  {
    if i < |segs| && !Stuck(t, segs, i) then FirstStuck(t, segs, i + 1) else i
  }

  function ClaimsOf(segs: seq<string>, n: nat): set<Pattern>
    requires n <= |segs|
  {
    set i: nat | i < n && ParamForm(segs[i]) :: PatternOf(segs[..i])
  }

  function TableAdd(t: Table, r: Registration): (Table, bool) {
    var segs := Segments(r.uri);
    var n := FirstStuck(t, segs, 0);
    var routes := if n == |segs| then Put(t.routes, (r.verb, PatternOf(segs)), r.handler) else t.routes;
    (Table(routes, t.claims + ClaimsOf(segs, n)), n == |segs|)
  }

  /** The trie and the table agree on every route and on every parameter node. */
  ghost predicate Refines(node: Node, t: Table) {
    && Shape(node)
    && (forall m, p :: RouteAt(node, m, p) == Get(t.routes, (m, p)))
    && (forall p :: ParamAt(node, p) <==> p in t.claims)
  }

  lemma EmptyRefines()
    ensures Refines(EMPTY, EMPTY_TABLE)
  {
    forall m, p: Pattern ensures RouteAt(EMPTY, m, p) == Get(EMPTY_TABLE.routes, (m, p)) { EmptyHasNothing(m, p); }
    forall p: Pattern ensures !ParamAt(EMPTY, p) { EmptyHasNothing(GET, p); }
  }

  lemma ClaimsAreCreated(segs: seq<string>, n: nat, p: Pattern)
    requires n <= |segs|
    ensures p in ClaimsOf(segs, n) <==> Creates(segs, n, p)
  {
    if p in ClaimsOf(segs, n) {
      var i: nat :| i < n && ParamForm(segs[i]) && p == PatternOf(segs[..i]);
      assert |p| == i;
    }
  }

  /** One registration: the trie and the table answer alike and stay in agreement. */
  lemma AddRefines(node: Node, t: Table, r: Registration)
    requires Refines(node, t)
    ensures var (node', ok) := Insert(node, Segments(r.uri), r.verb, r.handler);
            Refines(node', TableAdd(t, r).0) && ok == TableAdd(t, r).1
  {
    var segs := Segments(r.uri);
    var (node', ok) := Insert(node, segs, r.verb, r.handler);
    var n := InsertEffect(node, segs, r.verb, r.handler);
    InsertKeepsShape(node, segs, r.verb, r.handler);
    assert forall i: nat :: i < |segs| ==> (Bad(node, segs, i) <==> Stuck(t, segs, i));
    assert n == FirstStuck(t, segs, 0);
    var t' := TableAdd(t, r).0;
    forall m, p ensures RouteAt(node', m, p) == Get(t'.routes, (m, p)) {
      assert RouteAt(node, m, p) == Get(t.routes, (m, p));
    }
    forall p ensures ParamAt(node', p) <==> p in t'.claims {
      ClaimsAreCreated(segs, n, p);
    }
  }

  // ---------------------------------------------------------------- sequences of registrations

  function TrieAfter(rs: seq<Registration>): Node {
    if rs == [] then EMPTY
    else
      var r := rs[|rs| - 1];
      Insert(TrieAfter(rs[..|rs| - 1]), Segments(r.uri), r.verb, r.handler).0
  }

  function TableAfter(rs: seq<Registration>): Table {
    if rs == [] then EMPTY_TABLE else TableAdd(TableAfter(rs[..|rs| - 1]), rs[|rs| - 1]).0
  }

  /** Whatever has been registered, the trie agrees with the table. */
  lemma {:induction false} AddsRefine(rs: seq<Registration>)
    ensures Refines(TrieAfter(rs), TableAfter(rs))
  {
    if rs == [] {
      EmptyRefines();
    } else {
      AddsRefine(rs[..|rs| - 1]);
      AddRefines(TrieAfter(rs[..|rs| - 1]), TableAfter(rs[..|rs| - 1]), rs[|rs| - 1]);
    }
  }

  /** `p` is the winning route of the table for these segments. */
  ghost predicate Wins(t: Table, m: Method, segs: seq<string>, p: Pattern) {
    && Matches(p, segs) && (m, p) in t.routes
    && forall q :: Matches(q, segs) && (m, q) in t.routes ==> Preferred(p, q)
  }

  /** What resolve may return, read off the table. */
  ghost predicate Resolves(t: Table, m: Method, uri: string, r: (Option<Handler>, string)) {
    var segs := Segments(uri);
    if r.0.None? then r.1 == "" && forall q :: Matches(q, segs) ==> (m, q) !in t.routes
    else exists p :: Wins(t, m, segs, p) && r == (Some(t.routes[(m, p)]), LastCapture(p, segs, ""))
  }

  lemma FindResolves(node: Node, t: Table, m: Method, uri: string)
    requires Refines(node, t)
    ensures Resolves(t, m, uri, Find(node, Segments(uri), m, ""))
  {
    var segs := Segments(uri);
    var r := Find(node, segs, m, "");
    FindCorrect(node, segs, m, "");
    if r.0.Some? {
      var p :| Found(node, m, segs, "", r, p);
      assert Wins(t, m, segs, p);
    } else {
      forall q | Matches(q, segs) ensures (m, q) !in t.routes {
        assert RouteAt(node, m, q).None?;
      }
    }
  }

  lemma SamePrefix(p: Pattern, q: Pattern, i: nat, j: nat)
    requires i < j <= |p| && j <= |q| && p[..j] == q[..j]
    ensures p[i] == q[i]
  {
    assert p[i] == p[..j][i] == q[..j][i];
  }

  lemma PreferredIsAntisymmetric(p: Pattern, q: Pattern)
    requires Preferred(p, q) && Preferred(q, p)
    ensures p == q
  {
    if p != q {
      var i :| 0 <= i < |p| && i < |q| && p[..i] == q[..i] && p[i].Lit? && q[i].Par?;
      var j :| 0 <= j < |q| && j < |p| && q[..j] == p[..j] && q[j].Lit? && p[j].Par?;
      if i < j { SamePrefix(p, q, i, j); } else if j < i { SamePrefix(p, q, j, i); }
    }
  }

  ghost predicate SameMatches(t: Table, u: Table, m: Method, segs: seq<string>) {
    forall q :: Matches(q, segs) ==> Get(t.routes, (m, q)) == Get(u.routes, (m, q))
  }

  lemma FoundInBoth(t: Table, u: Table, m: Method, uri: string,
                    r: (Option<Handler>, string), s: (Option<Handler>, string))
    requires Resolves(t, m, uri, r) && Resolves(u, m, uri, s) && r.0.Some? && SameMatches(t, u, m, Segments(uri))
    ensures s.0.Some?
  {
    var p :| Wins(t, m, Segments(uri), p);
    assert Get(u.routes, (m, p)) == Get(t.routes, (m, p));
  }

  /** There is one answer: a table with the same matching routes resolves to the same handler and parameter. */
  lemma ResolutionIsUnique(t: Table, u: Table, m: Method, uri: string,
                           r: (Option<Handler>, string), s: (Option<Handler>, string))
    requires Resolves(t, m, uri, r) && Resolves(u, m, uri, s) && SameMatches(t, u, m, Segments(uri))
    ensures r == s
  {
    if r.0.Some? { FoundInBoth(t, u, m, uri, r, s); }
    if s.0.Some? {
      FoundInBoth(u, t, m, uri, s, r);
      var segs := Segments(uri);
      var p :| Wins(t, m, segs, p) && r == (Some(t.routes[(m, p)]), LastCapture(p, segs, ""));
      assert Get(u.routes, (m, p)) == Get(t.routes, (m, p));
      var q :| Wins(u, m, segs, q) && s == (Some(u.routes[(m, q)]), LastCapture(q, segs, ""));
      assert Get(t.routes, (m, q)) == Get(u.routes, (m, q));
      PreferredIsAntisymmetric(p, q);
    }
  }

  // ---------------------------------------------------------------- routes do not conflict

  /** A pattern that a registration can produce. */
  predicate Printable(p: Pattern) {
    forall i :: 0 <= i < |p| ==>
      match p[i]
      case Lit(text) => IsSegment(text) && !ParamForm(text)
      case Par(name) => IsSegment(name)
  }

  /** Two different routes never have parameters at the same place. */
  predicate Apart(p: Pattern, q: Pattern) {
    forall i :: 0 <= i < |p| && i < |q| && p[..i] == q[..i] ==> !(p[i].Par? && q[i].Par?)
  }

  predicate Claimed(p: Pattern, claims: set<Pattern>) {
    forall i :: 0 <= i < |p| && p[i].Par? ==> p[..i] in claims
  }

  ghost predicate TableInv(t: Table) {
    && (forall k :: k in t.routes ==> Printable(k.1) && Claimed(k.1, t.claims))
    && (forall k, l :: k in t.routes && l in t.routes && k != l ==> Apart(k.1, l.1))
  }

  lemma PatternIsPrintable(segs: seq<string>)
    requires forall i :: 0 <= i < |segs| ==> IsSegment(segs[i]) && (ParamForm(segs[i]) ==> |segs[i]| >= 3)
    ensures Printable(PatternOf(segs))
  {
    var p := PatternOf(segs);
    forall i | 0 <= i < |p|
      ensures match p[i] case Lit(text) => IsSegment(text) && !ParamForm(text) case Par(name) => IsSegment(name)
    {
      var seg := segs[i];
      if ParamForm(seg) {
        var name := seg[1..|seg| - 1];
        forall j | 0 <= j < |name| ensures name[j] != '/' { assert name[j] == seg[j + 1]; }
      }
    }
  }

  /** A pattern that is not stuck has no parameter where a registered route has one. */
  lemma NewIsApart(t: Table, segs: seq<string>, q: Pattern)
    requires FirstStuck(t, segs, 0) == |segs| && Claimed(q, t.claims)
    ensures Apart(PatternOf(segs), q)
  {
    var p := PatternOf(segs);
    forall i | 0 <= i < |p| && i < |q| && p[..i] == q[..i] ensures !(p[i].Par? && q[i].Par?) {
      assert p[..i] == PatternOf(segs[..i]);
      assert !Stuck(t, segs, i);
    }
  }

  lemma NewIsClaimed(t: Table, segs: seq<string>)
    requires FirstStuck(t, segs, 0) == |segs|
    ensures Claimed(PatternOf(segs), t.claims + ClaimsOf(segs, |segs|))
  {
    var p := PatternOf(segs);
    forall i | 0 <= i < |p| && p[i].Par? ensures p[..i] in ClaimsOf(segs, |segs|) {
      assert p[..i] == PatternOf(segs[..i]);
      ClaimsAreCreated(segs, |segs|, p[..i]);
    }
  }

  lemma AddKeepsTableInv(t: Table, r: Registration)
    requires TableInv(t)
    ensures TableInv(TableAdd(t, r).0)
  {
    var segs := Segments(r.uri);
    var p, t' := PatternOf(segs), TableAdd(t, r).0;
    if TableAdd(t, r).1 {
      SegmentsAreSegments(r.uri);
      forall i | 0 <= i < |segs| && ParamForm(segs[i]) ensures |segs[i]| >= 3 { assert !Stuck(t, segs, i); }
      PatternIsPrintable(segs);
      NewIsClaimed(t, segs);
      forall k | k in t.routes ensures Apart(p, k.1) && Apart(k.1, p) {
        NewIsApart(t, segs, k.1);
      }
    }
    forall k | k in t.routes ensures Claimed(k.1, t'.claims) {
      assert Claimed(k.1, t.claims);
    }
  }

  lemma {:induction false} ReachableTableInv(rs: seq<Registration>)
    ensures TableInv(TableAfter(rs))
  {
    if rs != [] {
      ReachableTableInv(rs[..|rs| - 1]);
      AddKeepsTableInv(TableAfter(rs[..|rs| - 1]), rs[|rs| - 1]);
    }
  }

  /** Two routes that match the same segments and have no conflicting parameters are comparable. */
  lemma {:induction false} Comparable(p: Pattern, q: Pattern, segs: seq<string>)
    requires Matches(p, segs) && Matches(q, segs)
    requires Apart(p, q)
    ensures Preferred(p, q) || Preferred(q, p)
  {
    if p != q {
      var i := 0;
      while i < |p| && p[i] == q[i]
        invariant i <= |p| && p[..i] == q[..i]
      {
        assert p[..i + 1] == p[..i] + [p[i]] && q[..i + 1] == q[..i] + [q[i]];
        i := i + 1;
      }
      assert p[..|p|] == p && q[..|q|] == q;
    }
  }

  lemma PreferredIsTransitive(p: Pattern, q: Pattern, r: Pattern)
    requires Preferred(p, q) && Preferred(q, r)
    ensures Preferred(p, r)
  {
    if p != q && q != r {
      var i :| 0 <= i < |p| && i < |q| && p[..i] == q[..i] && p[i].Lit? && q[i].Par?;
      var j :| 0 <= j < |q| && j < |r| && q[..j] == r[..j] && q[j].Lit? && r[j].Par?;
      var k := if i < j then i else j;
      assert p[..k] == p[..i][..k] == q[..k] && r[..k] == r[..j][..k] == q[..k];
      if i < j { assert r[i] == r[..j][i] == q[..j][i]; } else if j < i { assert p[j] == p[..i][j] == q[..i][j]; }
      assert p[k].Lit? && r[k].Par?;
    }
  }

  // ---------------------------------------------------------------- effect of one registration

  /** A registration that fails changes no lookup, whatever nodes it leaves behind. */
  lemma FailedAddChangesNothing(rs: seq<Registration>, r: Registration, m: Method, uri: string)
    requires !TableAdd(TableAfter(rs), r).1
    ensures Find(TrieAfter(rs + [r]), Segments(uri), m, "") == Find(TrieAfter(rs), Segments(uri), m, "")
  {
    assert (rs + [r])[..|rs|] == rs;
    AddsRefine(rs);
    AddsRefine(rs + [r]);
    FindResolves(TrieAfter(rs), TableAfter(rs), m, uri);
    FindResolves(TrieAfter(rs + [r]), TableAfter(rs + [r]), m, uri);
    ResolutionIsUnique(TableAfter(rs + [r]), TableAfter(rs), m, uri,
                       Find(TrieAfter(rs + [r]), Segments(uri), m, ""), Find(TrieAfter(rs), Segments(uri), m, ""));
  }

  lemma BeatenStaysBeaten(t: Table, t': Table, m: Method, segs: seq<string>, p: Pattern, q: Pattern, w: Pattern)
    requires Wins(t, m, segs, w) && Matches(p, segs) && Matches(q, segs) && (m, q) in t.routes
    requires Apart(p, q) && !Preferred(p, q)
    requires forall k :: k != (m, p) ==> Get(t'.routes, k) == Get(t.routes, k)
    ensures Wins(t', m, segs, w) && t'.routes[(m, w)] == t.routes[(m, w)]
  {
    Comparable(p, q, segs);
    PreferredIsTransitive(w, q, p);
    assert Get(t'.routes, (m, w)) == Get(t.routes, (m, w));
    forall v | Matches(v, segs) && (m, v) in t'.routes ensures Preferred(w, v) {
      if v != p { assert Get(t'.routes, (m, v)) == Get(t.routes, (m, v)); }
    }
  }

  /** A new route that some registered match precedes does not change the answer. */
  lemma BeatenRouteIsInvisible(rs: seq<Registration>, r: Registration, uri: string, before: (Option<Handler>, string))
    requires TableAdd(TableAfter(rs), r).1 && r.handler.Some? && Resolves(TableAfter(rs), r.verb, uri, before)
    requires Matches(PatternOf(Segments(r.uri)), Segments(uri))
    requires exists q :: Matches(q, Segments(uri)) && (r.verb, q) in TableAfter(rs).routes
                         && !Preferred(PatternOf(Segments(r.uri)), q)
    ensures Resolves(TableAdd(TableAfter(rs), r).0, r.verb, uri, before)
  {
    var t, m, segs, p := TableAfter(rs), r.verb, Segments(uri), PatternOf(Segments(r.uri));
    var t' := TableAdd(t, r).0;
    ReachableTableInv(rs);
    var q :| Matches(q, segs) && (m, q) in t.routes && !Preferred(p, q);
    assert before.0.Some?;
    var w :| Wins(t, m, segs, w) && before == (Some(t.routes[(m, w)]), LastCapture(w, segs, ""));
    assert Claimed(q, t.claims) by { assert (m, q) in t.routes; }
    NewIsApart(t, Segments(r.uri), q);
    BeatenStaysBeaten(t, t', m, segs, p, q, w);
  }

  /**
   * A registration that succeeds keeps every other route; it wins exactly the lookups of its own
   * method that its pattern matches and that no preferred route already won.
   */
  lemma SuccessfulAddTakesItsPlace(rs: seq<Registration>, r: Registration, m: Method, uri: string)
    requires TableAdd(TableAfter(rs), r).1 && r.handler.Some?
    ensures var p := PatternOf(Segments(r.uri));
            var before := Find(TrieAfter(rs), Segments(uri), m, "");
            var after := Find(TrieAfter(rs + [r]), Segments(uri), m, "");
            && (forall k :: k != (r.verb, p) ==> Get(TableAfter(rs + [r]).routes, k) == Get(TableAfter(rs).routes, k))
            && (if m == r.verb && Matches(p, Segments(uri))
                   && forall q :: Matches(q, Segments(uri)) && (m, q) in TableAfter(rs).routes ==> Preferred(p, q)
                then after == (r.handler, LastCapture(p, Segments(uri), ""))
                else after == before)
  {
    var p, segs := PatternOf(Segments(r.uri)), Segments(uri);
    var t, t' := TableAfter(rs), TableAfter(rs + [r]);
    assert (rs + [r])[..|rs|] == rs;
    AddsRefine(rs);
    AddsRefine(rs + [r]);
    FindResolves(TrieAfter(rs), t, m, uri);
    FindResolves(TrieAfter(rs + [r]), t', m, uri);
    var before, after := Find(TrieAfter(rs), segs, m, ""), Find(TrieAfter(rs + [r]), segs, m, "");
    if m == r.verb && Matches(p, segs) {
      if forall q :: Matches(q, segs) && (m, q) in t.routes ==> Preferred(p, q) {
        assert Wins(t', m, segs, p);
        assert Resolves(t', m, uri, (r.handler, LastCapture(p, segs, "")));
        ResolutionIsUnique(t', t', m, uri, after, (r.handler, LastCapture(p, segs, "")));
      } else {
        BeatenRouteIsInvisible(rs, r, uri, before);
        ResolutionIsUnique(t', t', m, uri, after, before);
      }
    } else {
      ResolutionIsUnique(t', t, m, uri, after, before);
    }
  }

  /** Registering an empty handler takes the route away, and no other. */
  lemma EmptyHandlerUnregisters(rs: seq<Registration>, r: Registration, m: Method, q: Pattern)
    requires TableAdd(TableAfter(rs), r).1 && r.handler.None?
    ensures RouteAt(TrieAfter(rs + [r]), m, q)
            == if (m, q) == (r.verb, PatternOf(Segments(r.uri))) then None else RouteAt(TrieAfter(rs), m, q)
  {
    assert (rs + [r])[..|rs|] == rs;
    AddsRefine(rs);
    AddsRefine(rs + [r]);
  }

  // ---------------------------------------------------------------- the listing

  /** What traverse_print prints, one entry per line; the order of the lines is the hash map's. */
  function Listing(node: Node): set<(Method, Pattern)> {
    (set m | m in node.handlers :: (m, []))
    + (set k, r | k in node.statics && r in Listing(node.statics[k]) :: (r.0, [Lit(k)] + r.1))
    + (if node.param.Child? then set r | r in Listing(node.param.node) :: (r.0, [Par(node.param.name)] + r.1) else {})
  }

  lemma {:induction false} ListingIsRoutes(node: Node, m: Method, p: Pattern)
    ensures (m, p) in Listing(node) <==> RouteAt(node, m, p).Some?
    decreases |p|
  {
    if p != [] {
      var part, rest := p[0], p[1..];
      assert p == [part] + rest;
      ListingIsRoutes(Down(node, part), m, rest);
      EmptyHasNothing(m, rest);
      match part
      case Lit(text) =>
        assert (m, p) in Listing(node) <==> text in node.statics && (m, rest) in Listing(node.statics[text]);
      case Par(name) =>
        assert (m, p) in Listing(node)
               <==> node.param.Child? && node.param.name == name && (m, rest) in Listing(node.param.node);
    }
  }

  function Text(part: Part): string {
    match part
    case Lit(text) => text
    case Par(name) => "{" + name + "}"
  }

  function Texts(p: Pattern): (segs: seq<string>)
    ensures |segs| == |p| && forall i :: 0 <= i < |p| ==> segs[i] == Text(p[i])
  {
    seq(|p|, i requires 0 <= i < |p| => Text(p[i]))
  }

  lemma TextOfPart(part: Part)
    requires Printable([part])
    ensures IsSegment(Text(part)) && PartOf(Text(part)) == part && (part.Par? ==> |Text(part)| >= 3)
  {
    assert [part][0] == part;
    if part.Par? {
      var text := Text(part);
      forall j | 0 <= j < |text| ensures text[j] != '/' {
        if 0 < j < |text| - 1 { assert text[j] == part.name[j - 1]; }
      }
      assert text[1..|text| - 1] == part.name;
    }
  }

  /** A printed route reads back as itself. */
  lemma PrintedReadsBack(p: Pattern)
    requires Printable(p)
    ensures Segments(Join(Texts(p))) == Texts(p) && PatternOf(Texts(p)) == p
    ensures forall i :: 0 <= i < |p| ==> (ParamForm(Texts(p)[i]) <==> p[i].Par?) && (p[i].Par? ==> |Texts(p)[i]| >= 3)
  {
    forall i | 0 <= i < |p|
      ensures IsSegment(Texts(p)[i]) && PartOf(Texts(p)[i]) == p[i] && (p[i].Par? ==> |Texts(p)[i]| >= 3)
    {
      assert Printable([p[i]]);
      TextOfPart(p[i]);
    }
    SegmentsOfJoin(Texts(p));
    assert PatternOf(Texts(p)) == p;
  }

  type Route = (Method, Pattern)

  /** Registering a listed route again. */
  function Again(t: Table, k: Route): Registration
    requires k in t.routes
  {
    Registration(k.0, Join(Texts(k.1)), Some(t.routes[k]))
  }

  function Replay(t: Table, order: seq<Route>): seq<Registration>
    requires forall k :: k in order ==> k in t.routes
  {
    if order == [] then [] else Replay(t, order[..|order| - 1]) + [Again(t, order[|order| - 1])]
  }

  predicate AllSucceed(rs: seq<Registration>) {
    rs == [] || (AllSucceed(rs[..|rs| - 1]) && TableAdd(TableAfter(rs[..|rs| - 1]), rs[|rs| - 1]).1)
  }

  /** The route `k` runs through the parameter child of the node of pattern `c`. */
  predicate Through(k: Route, c: Pattern) {
    |c| < |k.1| && k.1[|c|].Par? && k.1[..|c|] == c
  }

  /** The table holds the routes `done` and no parameter node but theirs. */
  ghost predicate Replayed(t: Table, done: set<Route>, u: Table) {
    && u.routes.Keys == done
    && (forall k :: k in u.routes ==> k in t.routes && u.routes[k] == t.routes[k])
    && (forall c :: c in u.claims ==> exists k :: k in done && Through(k, c))
  }

  lemma ApartAt(p: Pattern, q: Pattern, i: nat)
    requires Apart(p, q) && i < |p| && i < |q| && p[..i] == q[..i] && p[i].Par?
    ensures q[i].Lit?
  {
  }

  lemma NotThrough(t: Table, l: Route, k: Route, i: nat)
    requires TableInv(t) && k in t.routes && l in t.routes && l != k && i < |k.1| && k.1[i].Par?
    ensures !Through(l, k.1[..i])
  {
    if i < |l.1| && l.1[..i] == k.1[..i] { ApartAt(k.1, l.1, i); }
  }

  lemma AgainIsUnclaimed(t: Table, done: set<Route>, k: Route, u: Table, i: nat)
    requires TableInv(t) && k in t.routes && k !in done && Replayed(t, done, u) && i < |k.1| && k.1[i].Par?
    ensures k.1[..i] !in u.claims
  {
    forall l | l in done ensures !Through(l, k.1[..i]) { NotThrough(t, l, k, i); }
  }

  lemma AgainIsNotStuck(t: Table, done: set<Route>, k: Route, u: Table, i: nat)
    requires TableInv(t) && k in t.routes && k !in done && Replayed(t, done, u) && i < |k.1|
    requires ParamForm(Texts(k.1)[i]) <==> k.1[i].Par?
    requires PatternOf(Texts(k.1)) == k.1 && (k.1[i].Par? ==> |Texts(k.1)[i]| >= 3)
    ensures !Stuck(u, Texts(k.1), i)
  {
    assert PatternOf(Texts(k.1)[..i]) == k.1[..i];
    if k.1[i].Par? { AgainIsUnclaimed(t, done, k, u, i); }
  }

  lemma ReplayStep(t: Table, done: set<Route>, k: Route, u: Table)
    requires TableInv(t) && k in t.routes && k !in done && Replayed(t, done, u)
    ensures var (u', ok) := TableAdd(u, Again(t, k)); ok && Replayed(t, done + {k}, u')
  {
    var segs := Texts(k.1);
    assert Printable(k.1);
    PrintedReadsBack(k.1);
    forall i: nat | i < |segs| ensures !Stuck(u, segs, i) { AgainIsNotStuck(t, done, k, u, i); }
    var (u', ok) := TableAdd(u, Again(t, k));
    assert ok && u'.routes == u.routes[k := t.routes[k]];
    forall c | c in u'.claims ensures exists l :: l in done + {k} && Through(l, c) {
      if c in u.claims {
        var l :| l in done && Through(l, c);
        assert l in done + {k};
      } else {
        ClaimsAreCreated(segs, |segs|, c);
        assert PatternOf(segs[..|c|]) == k.1[..|c|];
        assert Through(k, c);
      }
    }
  }

  lemma OneMore(rs: seq<Registration>, r: Registration)
    ensures TableAfter(rs + [r]) == TableAdd(TableAfter(rs), r).0
    ensures AllSucceed(rs + [r]) <==> AllSucceed(rs) && TableAdd(TableAfter(rs), r).1
  {
    assert (rs + [r])[..|rs|] == rs;
  }

  function Set(order: seq<Route>): set<Route> {
    set k | k in order
  }

  lemma LastIsNew(order: seq<Route>)
    requires Distinct(order) && order != []
    ensures var front, k := order[..|order| - 1], order[|order| - 1];
            Distinct(front) && k !in Set(front) && Set(order) == Set(front) + {k}
  {
    assert order == order[..|order| - 1] + [order[|order| - 1]];
  }

  lemma {:induction false} ReplaySucceeds(t: Table, order: seq<Route>)
    requires TableInv(t) && Distinct(order) && (forall k :: k in order ==> k in t.routes)
    ensures AllSucceed(Replay(t, order)) && Replayed(t, Set(order), TableAfter(Replay(t, order)))
  {
    if order != [] {
      var front, k := order[..|order| - 1], order[|order| - 1];
      LastIsNew(order);
      ReplaySucceeds(t, front);
      ReplayStep(t, Set(front), k, TableAfter(Replay(t, front)));
      OneMore(Replay(t, front), Again(t, k));
      assert Replay(t, order) == Replay(t, front) + [Again(t, k)];
    }
  }

  /** The listing of the trie is the key set of the table. */
  lemma ListingIsTable(rs: seq<Registration>)
    ensures Listing(TrieAfter(rs)) == TableAfter(rs).routes.Keys
  {
    AddsRefine(rs);
    forall k: Route ensures k in Listing(TrieAfter(rs)) <==> k in TableAfter(rs).routes {
      ListingIsRoutes(TrieAfter(rs), k.0, k.1);
      assert RouteAt(TrieAfter(rs), k.0, k.1) == Get(TableAfter(rs).routes, (k.0, k.1));
    }
  }

  lemma SameTableSameAnswers(rs: seq<Registration>, ss: seq<Registration>, m: Method, uri: string)
    requires TableAfter(rs).routes == TableAfter(ss).routes
    ensures Find(TrieAfter(rs), Segments(uri), m, "") == Find(TrieAfter(ss), Segments(uri), m, "")
  {
    AddsRefine(rs);
    AddsRefine(ss);
    FindResolves(TrieAfter(rs), TableAfter(rs), m, uri);
    FindResolves(TrieAfter(ss), TableAfter(ss), m, uri);
    ResolutionIsUnique(TableAfter(rs), TableAfter(ss), m, uri,
                       Find(TrieAfter(rs), Segments(uri), m, ""), Find(TrieAfter(ss), Segments(uri), m, ""));
  }

  lemma ReplayGivesTable(t: Table, order: seq<Route>)
    requires TableInv(t) && Distinct(order) && Set(order) == t.routes.Keys
    ensures forall k :: k in order ==> k in t.routes
    ensures AllSucceed(Replay(t, order)) && TableAfter(Replay(t, order)).routes == t.routes
  {
    forall k | k in order ensures k in t.routes { assert k in Set(order); }
    ReplaySucceeds(t, order);
  }

  /**
   * Listing round trip: registering the listed routes in a fresh router, in any order, always
   * succeeds and gives a router that resolves every request alike.
   */
  lemma ListingRoundTrip(rs: seq<Registration>, order: seq<Route>, m: Method, uri: string)
    requires Distinct(order) && Set(order) == Listing(TrieAfter(rs))
    ensures forall k :: k in order ==> k in TableAfter(rs).routes
    ensures var again := Replay(TableAfter(rs), order);
            && AllSucceed(again)
            && Find(TrieAfter(again), Segments(uri), m, "") == Find(TrieAfter(rs), Segments(uri), m, "")
  {
    var t := TableAfter(rs);
    ReachableTableInv(rs);
    ListingIsTable(rs);
    ReplayGivesTable(t, order);
    SameTableSameAnswers(Replay(t, order), rs, m, uri);
  }

  // ---------------------------------------------------------------- the router object

  class Router {
    var root: Node
    ghost var table: Table

    ghost predicate Valid()
      reads this
    {
      Refines(root, table) && TableInv(table)
    }

    constructor ()
      ensures Valid() && table == EMPTY_TABLE
    {
      root := EMPTY;
      table := EMPTY_TABLE;
      new;
      EmptyRefines();
    }

    /** add: behaves as registration in the flat table. */
    method Add(verb: Method, uri: string, handler: Option<Handler>) returns (ok: bool)
      requires Valid()
      modifies this
      ensures Valid() && (table, ok) == TableAdd(old(table), Registration(verb, uri, handler))
    {
      var segs := SplitPathSegments(uri);
      ghost var r := Registration(verb, uri, handler);
      AddRefines(root, table, r);
      AddKeepsTableInv(table, r);
      var (node, inserted) := Insert(root, segs, verb, handler);
      root := node;
      table := TableAdd(table, r).0;
      return inserted;
    }

    /** resolve: the winning route of the flat table, and its last captured segment. */
    method Resolve(verb: Method, uri: string) returns (handler: Option<Handler>, param: string)
      requires Valid()
      ensures Resolves(table, verb, uri, (handler, param))
    {
      var segs := SplitPathSegments(uri);
      FindResolves(root, table, verb, uri);
      var (h, p) := Find(root, segs, verb, "");
      return h, p;
    }
  }
}
