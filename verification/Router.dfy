/**
 * Splitting a request path into segments (src/router.cc, split_path_segments).
 */
module Paths {

  predicate SlashFree(s: string) {
    forall i :: 0 <= i < |s| ==> s[i] != '/'
  }

  predicate IsSegment(s: string) {
    s != "" && SlashFree(s)
  }

  /** find_first_not_of('/', start), with the length for npos. */
  function SkipSlashes(uri: string, start: nat): (i: nat)
    requires start <= |uri|
    ensures start <= i <= |uri|
    ensures forall j :: start <= j < i ==> uri[j] == '/'
    ensures i < |uri| ==> uri[i] != '/'
    decreases |uri| - start
  {
    if start < |uri| && uri[start] == '/' then SkipSlashes(uri, start + 1) else start
  }

  /** find('/', start), with the length for npos. */
  function FindSlash(uri: string, start: nat): (i: nat)
    requires start <= |uri|
    ensures start <= i <= |uri|
    ensures forall j :: start <= j < i ==> uri[j] != '/'
    ensures i < |uri| ==> uri[i] == '/'
    decreases |uri| - start
  {
    if start < |uri| && uri[start] != '/' then FindSlash(uri, start + 1) else start
  }

  /** The segments of `uri`, read one character at a time from the right. */
  function Segments(uri: string): seq<string> {
    if uri == "" then []
    else if uri[0] == '/' then Segments(uri[1..])
    else if |uri| == 1 || uri[1] == '/' then [uri[..1]] + Segments(uri[1..])
    else
      var rest := Segments(uri[1..]);
      if rest == [] then [uri[..1]] else [[uri[0]] + rest[0]] + rest[1..]
  }

  /** A run of slashes from `from` to `to` separates nothing. */
  lemma {:induction false} SegmentsSkip(uri: string, from: nat, to: nat)
    requires from <= to <= |uri| && forall j :: from <= j < to ==> uri[j] == '/'
    ensures Segments(uri[from..]) == Segments(uri[to..])
    decreases |uri| - from
  {
    if from < to {
      SegmentsSkip(uri, from + 1, to);
      assert uri[from..][1..] == uri[from + 1..];
    }
  }

  /** A run of other characters up to a slash or the end is the first segment. */
  lemma {:induction false} SegmentsTake(uri: string, from: nat, to: nat)
    requires from < to <= |uri| && (to < |uri| ==> uri[to] == '/')
    requires forall j :: from <= j < to ==> uri[j] != '/'
    ensures Segments(uri[from..]) == [uri[from..to]] + Segments(uri[to..])
    decreases |uri| - from
  {
    assert uri[from..][1..] == uri[from + 1..];
    if from + 1 == to {
      assert uri[from..][..1] == uri[from..to];
    } else {
      SegmentsTake(uri, from + 1, to);
      assert [uri[from]] + uri[from + 1..to] == uri[from..to];
    }
  }

  method SplitPathSegments(uri: string) returns (segs: seq<string>)
    ensures segs == Segments(uri)
  {
    segs := [];
    var start := SkipSlashes(uri, 0);
    assert uri[0..] == uri;
    SegmentsSkip(uri, 0, start);
    while start < |uri|
      invariant start <= |uri| && (start < |uri| ==> uri[start] != '/')
      invariant Segments(uri) == segs + Segments(uri[start..])
      decreases |uri| - start
    {
      var end := FindSlash(uri, start);
      var next := SkipSlashes(uri, end);
      SegmentsTake(uri, start, end);
      SegmentsSkip(uri, end, next);
      segs := segs + [uri[start..end]];
      start := next;
    }
  }

  lemma {:induction false} SegmentsAreSegments(uri: string)
    ensures forall i :: 0 <= i < |Segments(uri)| ==> IsSegment(Segments(uri)[i])
  {
    if uri != "" { SegmentsAreSegments(uri[1..]); }
  }

  /** The way a route is printed: a slash before every segment. */
  function Join(segs: seq<string>): string {
    if segs == [] then "" else "/" + segs[0] + Join(segs[1..])
  }

  /** Reading back a printed route gives its segments. */
  lemma {:induction false} SegmentsOfJoin(segs: seq<string>)
    requires forall i :: 0 <= i < |segs| ==> IsSegment(segs[i])
    ensures Segments(Join(segs)) == segs
  {
    if segs != [] {
      var uri, end := Join(segs), |segs[0]| + 1;
      assert uri[1..end] == segs[0] && uri[end..] == Join(segs[1..]);
      assert forall j :: 1 <= j < end ==> uri[j] == segs[0][j - 1];
      SegmentsTake(uri, 1, end);
      SegmentsOfJoin(segs[1..]);
    }
  }

  /** Slashes at the end change nothing. */
  lemma {:induction false} TrailingSlash(uri: string)
    ensures Segments(uri + "/") == Segments(uri)
  {
    var longer := uri + "/";
    if uri == "" {
      assert longer[1..] == "";
    } else {
      TrailingSlash(uri[1..]);
      assert longer[1..] == uri[1..] + "/";
      assert longer[..1] == uri[..1];
    }
  }
}

/**
 * The routing trie of src/router.cc and src/router.h, against a flat table of routes.
 *
 * Children are held by unique_ptr, so the trie is a tree and a node is a value. A handler is a
 * std::function, possibly empty: registering an empty one leaves the slot unset.
 */
module Routers {
  import opened Common
  import opened Paths

  datatype Method = GET | POST

  /** Identity of a registered function. */
  type Handler = nat

  datatype Child = NoChild | Child(name: string, node: Node)

  datatype Node = Node(statics: map<string, Node>, param: Child, handlers: map<Method, Handler>)

  const EMPTY := Node(map[], NoChild, map[])

  function Get<K, V>(m: map<K, V>, k: K): Option<V> {
    if k in m then Some(m[k]) else None
  }

  function Put<K, V>(m: map<K, V>, k: K, v: Option<V>): map<K, V> {
    if v.Some? then m[k := v.value] else m - {k}
  }

  predicate ParamForm(seg: string) {
    |seg| >= 2 && seg[0] == '{' && seg[|seg| - 1] == '}'
  }

  /** insert_recursive: the new node, and whether the route was registered. */
  function Insert(node: Node, segs: seq<string>, m: Method, h: Option<Handler>): (Node, bool)
    decreases |segs|
  {
    if segs == [] then (node.(handlers := Put(node.handlers, m, h)), true)
    else
      var seg := segs[0];
      if seg in node.statics then
        var (child, ok) := Insert(node.statics[seg], segs[1..], m, h);
        (node.(statics := node.statics[seg := child]), ok)
      else if ParamForm(seg) then
        if |seg| < 3 || node.param.Child? then (node, false)
        else
          var (child, ok) := Insert(EMPTY, segs[1..], m, h);
          (node.(param := Child(seg[1..|seg| - 1], child)), ok)
      else
        var (child, ok) := Insert(EMPTY, segs[1..], m, h);
        (node.(statics := node.statics[seg := child]), ok)
  }

  /** find_handler_recursive; the second component is the by-reference out_param afterwards. */
  function Find(node: Node, segs: seq<string>, m: Method, out: string): (Option<Handler>, string)
    decreases |segs|
  {
    if segs == [] then (Get(node.handlers, m), out)
    else
      var (h, out1) := if segs[0] in node.statics then Find(node.statics[segs[0]], segs[1..], m, out) else (None, out);
      if h.Some? then (h, out1)
      else if node.param.Child? then
        var (h2, out2) := Find(node.param.node, segs[1..], m, segs[0]);
        if h2.Some? then (h2, out2) else (None, out1)
      else (None, out1)
  }

  // ---------------------------------------------------------------- routes

  datatype Part = Lit(text: string) | Par(name: string)

  type Pattern = seq<Part>

  function PartOf(seg: string): Part {
    if ParamForm(seg) then Par(seg[1..|seg| - 1]) else Lit(seg)
  }

  /** A parameter is a name in braces; everything else stands for itself. */
  lemma PartsRead(seg: string, name: string)
    ensures PartOf(seg) == Par(name) <==> seg == "{" + name + "}"
    ensures PartOf(seg).Lit? ==> PartOf(seg) == Lit(seg)
  {
    if ParamForm(seg) { assert seg == "{" + seg[1..|seg| - 1] + "}"; }
    if seg == "{" + name + "}" { assert seg[1..|seg| - 1] == name; }
  }

  function PatternOf(segs: seq<string>): (p: Pattern)
    ensures |p| == |segs| && forall i :: 0 <= i < |segs| ==> p[i] == PartOf(segs[i])
  {
    seq(|segs|, i requires 0 <= i < |segs| => PartOf(segs[i]))
  }

  /** The child that a part leads to; an empty node if there is none. */
  function Down(node: Node, part: Part): Node {
    match part
    case Lit(text) => if text in node.statics then node.statics[text] else EMPTY
    case Par(name) => if node.param.Child? && node.param.name == name then node.param.node else EMPTY
  }

  /** The handler registered for exactly this pattern. */
  function RouteAt(node: Node, m: Method, p: Pattern): Option<Handler>
    decreases |p|
  {
    if p == [] then Get(node.handlers, m) else RouteAt(Down(node, p[0]), m, p[1..])
  }

  /** The node that the pattern leads to has a parameter child. */
  predicate ParamAt(node: Node, p: Pattern)
    decreases |p|
  {
    if p == [] then node.param.Child? else ParamAt(Down(node, p[0]), p[1..])
  }

  lemma {:induction false} EmptyHasNothing(m: Method, p: Pattern)
    ensures RouteAt(EMPTY, m, p) == None && !ParamAt(EMPTY, p)
    decreases |p|
  {
    if p != [] { EmptyHasNothing(m, p[1..]); }
  }

  // ---------------------------------------------------------------- shape

  /** A path without branches, with handlers at its end only and for at most one method. */
  ghost predicate Chain(node: Node) {
    || (node.statics == map[] && node.param.NoChild?
        && forall m, n :: m in node.handlers && n in node.handlers ==> m == n)
    || (node.statics == map[] && node.param.Child? && node.handlers == map[] && Chain(node.param.node))
    || (exists k :: k in node.statics && node.statics == map[k := node.statics[k]] && node.param.NoChild?
                    && node.handlers == map[] && Chain(node.statics[k]))
  }

  /** No static key looks like a parameter, and below each parameter node there is a single chain. */
  ghost predicate Shape(node: Node) {
    && (forall k :: k in node.statics ==> !ParamForm(k) && Shape(node.statics[k]))
    && (node.param.Child? ==> Chain(node.param.node) && Shape(node.param.node) && node.param.name != "")
  }

  lemma {:induction false} InsertIntoEmpty(segs: seq<string>, m: Method, h: Option<Handler>)
    ensures Chain(Insert(EMPTY, segs, m, h).0) && Shape(Insert(EMPTY, segs, m, h).0)
    decreases |segs|
  {
    var node := Insert(EMPTY, segs, m, h).0;
    if segs != [] {
      InsertIntoEmpty(segs[1..], m, h);
      if !ParamForm(segs[0]) {
        assert segs[0] in node.statics && node.statics == map[segs[0] := node.statics[segs[0]]];
      }
    }
  }

  lemma ShapeWithStatic(node: Node, key: string, child: Node)
    requires Shape(node) && !ParamForm(key) && Shape(child)
    ensures Shape(node.(statics := node.statics[key := child]))
  {
  }

  lemma {:induction false} InsertKeepsShape(node: Node, segs: seq<string>, m: Method, h: Option<Handler>)
    requires Shape(node)
    ensures Shape(Insert(node, segs, m, h).0)
    decreases |segs|
  {
    if segs != [] {
      if segs[0] in node.statics {
        InsertKeepsShape(node.statics[segs[0]], segs[1..], m, h);
        ShapeWithStatic(node, segs[0], Insert(node.statics[segs[0]], segs[1..], m, h).0);
      } else {
        InsertIntoEmpty(segs[1..], m, h);
        if !ParamForm(segs[0]) { ShapeWithStatic(node, segs[0], Insert(EMPTY, segs[1..], m, h).0); }
      }
    }
  }

  // ---------------------------------------------------------------- what one insertion changes

  /** Insertion cannot get past segment `i`: a nameless parameter, or a second one under the same node. */
  predicate Bad(node: Node, segs: seq<string>, i: nat)
    requires i < |segs|
  {
    ParamForm(segs[i]) && (|segs[i]| < 3 || ParamAt(node, PatternOf(segs[..i])))
  }

  predicate FirstBad(node: Node, segs: seq<string>, n: nat) {
    && n <= |segs| && (n < |segs| ==> Bad(node, segs, n))
    && forall i :: 0 <= i < n ==> !Bad(node, segs, i)
  }

  /** Inserting the first `n` segments creates a parameter child under the node of pattern `p`. */
  predicate Creates(segs: seq<string>, n: nat, p: Pattern)
    requires n <= |segs|
  {
    |p| < n && ParamForm(segs[|p|]) && p == PatternOf(segs[..|p|])
  }

  /** The handlers after an insertion. */
  ghost predicate RoutesAfter(node: Node, node': Node, p: Pattern, ok: bool, m: Method, h: Option<Handler>) {
    forall m', p' :: RouteAt(node', m', p') == if ok && m' == m && p' == p then h else RouteAt(node, m', p')
  }

  ghost predicate ParamsAfter(node: Node, node': Node, segs: seq<string>, n: nat)
    requires n <= |segs|
  {
    forall p' :: ParamAt(node', p') <==> ParamAt(node, p') || Creates(segs, n, p')
  }

  lemma PatternTail(segs: seq<string>)
    requires segs != []
    ensures PatternOf(segs) == [PartOf(segs[0])] + PatternOf(segs[1..])
  {
  }

  lemma BadBelow(node: Node, segs: seq<string>, i: nat)
    requires 0 < i < |segs|
    ensures Bad(node, segs, i) <==> Bad(Down(node, PartOf(segs[0])), segs[1..], i - 1)
  {
    var p := PatternOf(segs[..i]);
    assert p[0] == PartOf(segs[0]) && p[1..] == PatternOf(segs[1..][..i - 1]);
  }

  lemma FirstBadBelow(node: Node, segs: seq<string>, n: nat)
    requires segs != [] && !Bad(node, segs, 0) && FirstBad(Down(node, PartOf(segs[0])), segs[1..], n)
    ensures FirstBad(node, segs, n + 1)
  {
    if n + 1 < |segs| { BadBelow(node, segs, n + 1); }
    forall i | 0 <= i < n + 1 ensures !Bad(node, segs, i) {
      if i > 0 { BadBelow(node, segs, i); }
    }
  }

  lemma CreatesBelow(segs: seq<string>, n: nat, p: Pattern)
    requires segs != [] && 0 < n <= |segs| && p != []
    ensures Creates(segs, n, p) <==> p[0] == PartOf(segs[0]) && Creates(segs[1..], n - 1, p[1..])
  {
    if |p| < n {
      var q := PatternOf(segs[..|p|]);
      assert q[1..] == PatternOf(segs[1..][..|p| - 1]);
      assert p == q <==> p[0] == q[0] && p[1..] == q[1..] by {
        if p[0] == q[0] && p[1..] == q[1..] { assert p == [p[0]] + p[1..] == [q[0]] + q[1..] == q; }
      }
    }
  }

  /** `node'` is `node` with the child under `part` replaced. */
  ghost predicate ChildReplaced(node: Node, node': Node, part: Part) {
    && (forall q :: q != part ==> Down(node', q) == Down(node, q))
    && node'.handlers == node.handlers && (node'.param.Child? <==> node.param.Child? || part.Par?)
  }

  lemma ReplacedRoutes(node: Node, node': Node, segs: seq<string>, ok: bool, m: Method, h: Option<Handler>)
    requires segs != [] && ChildReplaced(node, node', PartOf(segs[0]))
    requires RoutesAfter(Down(node, PartOf(segs[0])), Down(node', PartOf(segs[0])), PatternOf(segs[1..]), ok, m, h)
    ensures RoutesAfter(node, node', PatternOf(segs), ok, m, h)
  {
    var part := PartOf(segs[0]);
    PatternTail(segs);
    forall m', p'
      ensures RouteAt(node', m', p') == if ok && m' == m && p' == PatternOf(segs) then h else RouteAt(node, m', p')
    {
      if p' != [] && p'[0] == part {
        assert RouteAt(Down(node', part), m', p'[1..])
            == if ok && m' == m && p'[1..] == PatternOf(segs[1..]) then h else RouteAt(Down(node, part), m', p'[1..]);
        assert p' == [part] + p'[1..];
      }
    }
  }

  lemma ReplacedParams(node: Node, node': Node, segs: seq<string>, n: nat)
    requires segs != [] && n < |segs| && ChildReplaced(node, node', PartOf(segs[0]))
    requires ParamsAfter(Down(node, PartOf(segs[0])), Down(node', PartOf(segs[0])), segs[1..], n)
    ensures ParamsAfter(node, node', segs, n + 1)
  {
    var part := PartOf(segs[0]);
    forall p' ensures ParamAt(node', p') <==> ParamAt(node, p') || Creates(segs, n + 1, p') {
      if p' != [] {
        CreatesBelow(segs, n + 1, p');
        if p'[0] == part {
          assert ParamAt(Down(node', part), p'[1..])
                 <==> ParamAt(Down(node, part), p'[1..]) || Creates(segs[1..], n, p'[1..]);
        }
      } else {
        assert PatternOf(segs[..0]) == [];
      }
    }
  }

  lemma BadHere(node: Node, segs: seq<string>)
    requires segs != []
    ensures Bad(node, segs, 0) <==> ParamForm(segs[0]) && (|segs[0]| < 3 || node.param.Child?)
  {
    assert PatternOf(segs[..0]) == [];
  }

  lemma StaticReplaced(node: Node, key: string, child: Node)
    requires !ParamForm(key)
    ensures var node' := node.(statics := node.statics[key := child]);
            Down(node', PartOf(key)) == child && ChildReplaced(node, node', PartOf(key))
  {
  }

  lemma InsertStepStatic(node: Node, segs: seq<string>, m: Method, h: Option<Handler>)
    requires segs != [] && !ParamForm(segs[0])
    ensures var part := PartOf(segs[0]);
            var (node', ok) := Insert(node, segs, m, h);
            (Down(node', part), ok) == Insert(Down(node, part), segs[1..], m, h) && ChildReplaced(node, node', part)
  {
    var child := Down(node, PartOf(segs[0]));
    var (child', ok) := Insert(child, segs[1..], m, h);
    assert Insert(node, segs, m, h) == (node.(statics := node.statics[segs[0] := child']), ok);
    StaticReplaced(node, segs[0], child');
  }

  lemma InsertStepParam(node: Node, segs: seq<string>, m: Method, h: Option<Handler>)
    requires segs != [] && segs[0] !in node.statics && ParamForm(segs[0]) && |segs[0]| >= 3 && node.param.NoChild?
    ensures var part := PartOf(segs[0]);
            var (node', ok) := Insert(node, segs, m, h);
            (Down(node', part), ok) == Insert(Down(node, part), segs[1..], m, h) && ChildReplaced(node, node', part)
  {
    var seg := segs[0];
    assert Insert(node, segs, m, h).0 == node.(param := Child(seg[1..|seg| - 1], Insert(EMPTY, segs[1..], m, h).0));
  }

  /** One level of insert_recursive. */
  lemma InsertStep(node: Node, segs: seq<string>, m: Method, h: Option<Handler>)
    requires segs != [] && (segs[0] in node.statics ==> !ParamForm(segs[0]))
    ensures Bad(node, segs, 0) ==> Insert(node, segs, m, h) == (node, false)
    ensures !Bad(node, segs, 0) ==>
              var part := PartOf(segs[0]);
              var (node', ok) := Insert(node, segs, m, h);
              && (Down(node', part), ok) == Insert(Down(node, part), segs[1..], m, h)
              && ChildReplaced(node, node', part)
  {
    BadHere(node, segs);
    if !ParamForm(segs[0]) {
      InsertStepStatic(node, segs, m, h);
    } else if !Bad(node, segs, 0) {
      InsertStepParam(node, segs, m, h);
    }
  }

  lemma ShapeBelow(node: Node, part: Part)
    requires Shape(node)
    ensures Shape(Down(node, part))
  {
  }

  /** The end of the path: only the handler of one method changes. */
  lemma InsertHere(node: Node, m: Method, h: Option<Handler>)
    ensures var node' := Insert(node, [], m, h).0;
            RoutesAfter(node, node', [], true, m, h) && ParamsAfter(node, node', [], 0)
  {
    var node' := Insert(node, [], m, h).0;
    forall m', p' ensures RouteAt(node', m', p') == if m' == m && p' == [] then h else RouteAt(node, m', p') {
      if p' != [] { assert Down(node', p'[0]) == Down(node, p'[0]); }
    }
    forall p' ensures ParamAt(node', p') <==> ParamAt(node, p') {
      if p' != [] { assert Down(node', p'[0]) == Down(node, p'[0]); }
    }
  }

  lemma InsertBelow(node: Node, segs: seq<string>, n: nat, m: Method, h: Option<Handler>)
    requires segs != [] && (segs[0] in node.statics ==> !ParamForm(segs[0])) && !Bad(node, segs, 0)
    requires var child := Down(node, PartOf(segs[0]));
             var (child', ok) := Insert(child, segs[1..], m, h);
             && FirstBad(child, segs[1..], n) && (ok <==> n == |segs[1..]|)
             && RoutesAfter(child, child', PatternOf(segs[1..]), ok, m, h) && ParamsAfter(child, child', segs[1..], n)
    ensures var (node', ok) := Insert(node, segs, m, h);
            && FirstBad(node, segs, n + 1) && (ok <==> n + 1 == |segs|)
            && RoutesAfter(node, node', PatternOf(segs), ok, m, h) && ParamsAfter(node, node', segs, n + 1)
  {
    var (node', ok) := Insert(node, segs, m, h);
    InsertStep(node, segs, m, h);
    FirstBadBelow(node, segs, n);
    ReplacedRoutes(node, node', segs, ok, m, h);
    ReplacedParams(node, node', segs, n);
  }

  /** insert_recursive in terms of the routes and parameter nodes before it. */
  lemma {:induction false} InsertEffect(node: Node, segs: seq<string>, m: Method, h: Option<Handler>) returns (n: nat)
    requires Shape(node)
    ensures var (node', ok) := Insert(node, segs, m, h);
            && FirstBad(node, segs, n) && (ok <==> n == |segs|)
            && RoutesAfter(node, node', PatternOf(segs), ok, m, h) && ParamsAfter(node, node', segs, n)
    decreases |segs|
  {
    n := 0;
    if segs == [] {
      InsertHere(node, m, h);
    } else if Bad(node, segs, 0) {
      InsertStep(node, segs, m, h);
    } else {
      ShapeBelow(node, PartOf(segs[0]));
      n := InsertEffect(Down(node, PartOf(segs[0])), segs[1..], m, h);
      InsertBelow(node, segs, n, m, h);
      n := n + 1;
    }
  }

  // ---------------------------------------------------------------- what a lookup finds

  predicate Matches(p: Pattern, segs: seq<string>) {
    |p| == |segs| && forall i :: 0 <= i < |p| ==> p[i].Par? || p[i].text == segs[i]
  }

  /** `p` comes first: at the leftmost difference it has the static segment and `q` the parameter. */
  ghost predicate Preferred(p: Pattern, q: Pattern) {
    p == q || exists i :: 0 <= i < |p| && i < |q| && p[..i] == q[..i] && p[i].Lit? && q[i].Par?
  }

  /** The segment at the last parameter of `p`; `out` if `p` has none. */
  function LastCapture(p: Pattern, segs: seq<string>, out: string): string
    requires |p| == |segs|
  {
    if p == [] then out
    else
      var n := |p| - 1;
      if p[n].Par? then segs[n] else LastCapture(p[..n], segs[..n], out)
  }

  /** `p` is registered, matches, and comes before every other registered match. */
  ghost predicate Best(node: Node, m: Method, p: Pattern, segs: seq<string>) {
    && Matches(p, segs) && RouteAt(node, m, p).Some?
    && forall q: Pattern :: Matches(q, segs) && RouteAt(node, m, q).Some? ==> Preferred(p, q)
  }

  ghost predicate Found(node: Node, m: Method, segs: seq<string>, out: string, r: (Option<Handler>, string),
                        p: Pattern) {
    Best(node, m, p, segs) && r == (RouteAt(node, m, p), LastCapture(p, segs, out))
  }

  ghost predicate FindsBest(node: Node, m: Method, segs: seq<string>, out: string, r: (Option<Handler>, string)) {
    if r.0.None? then r.1 == out && forall p :: Matches(p, segs) ==> RouteAt(node, m, p).None?
    else exists p :: Found(node, m, segs, out, r, p)
  }

  lemma {:induction false} CaptureBelow(p: Pattern, segs: seq<string>, out: string)
    requires |p| == |segs| > 0
    ensures LastCapture(p, segs, out) == LastCapture(p[1..], segs[1..], if p[0].Par? then segs[0] else out)
    decreases |p|
  {
    var n := |p| - 1;
    if n > 0 && p[n].Lit? {
      CaptureBelow(p[..n], segs[..n], out);
      assert p[..n][1..] == p[1..][..n - 1] && segs[..n][1..] == segs[1..][..n - 1];
    }
  }

  lemma PreferredBelow(p: Pattern, q: Pattern)
    requires p != [] && q != [] && p[0] == q[0] && Preferred(p[1..], q[1..])
    ensures Preferred(p, q)
  {
    if p[1..] == q[1..] {
      assert p == [p[0]] + p[1..] == [q[0]] + q[1..] == q;
    } else {
      var i :| 0 <= i < |p[1..]| && i < |q[1..]| && p[1..][..i] == q[1..][..i] && p[1..][i].Lit? && q[1..][i].Par?;
      assert p[..i + 1] == [p[0]] + p[1..][..i] && q[..i + 1] == [q[0]] + q[1..][..i];
      assert p[i + 1].Lit? && q[i + 1].Par?;
    }
  }

  lemma MatchesBelow(p: Pattern, segs: seq<string>)
    requires p != [] && segs != []
    ensures Matches(p, segs) <==> (p[0].Par? || p[0].text == segs[0]) && Matches(p[1..], segs[1..])
  {
    if Matches(p[1..], segs[1..]) {
      forall i | 0 < i < |p| ensures p[i].Par? || p[i].text == segs[i] {
        assert p[1..][i - 1] == p[i] && segs[1..][i - 1] == segs[i];
      }
    }
    if Matches(p, segs) {
      forall i | 0 <= i < |p| - 1 ensures p[1..][i].Par? || p[1..][i].text == segs[1..][i] {}
    }
  }

  /** The best match below a child is the best match of the node, if the child's part comes first. */
  lemma FoundAbove(node: Node, m: Method, segs: seq<string>, out: string, part: Part,
                   r: (Option<Handler>, string), p: Pattern)
    requires segs != [] && (part.Par? || part.text == segs[0])
    requires Found(Down(node, part), m, segs[1..], if part.Par? then segs[0] else out, r, p)
    requires part.Par? ==> forall q: Pattern :: Matches(q, segs) && RouteAt(node, m, q).Some? ==> q[0] == part
    ensures Found(node, m, segs, out, r, [part] + p)
  {
    var up := [part] + p;
    assert up[1..] == p;
    MatchesBelow(up, segs);
    CaptureBelow(up, segs, out);
    forall q: Pattern | Matches(q, segs) && RouteAt(node, m, q).Some? ensures Preferred(up, q) {
      MatchesBelow(q, segs);
      if q[0] == part {
        PreferredBelow(up, q);
      } else {
        assert up[..0] == q[..0] && up[0].Lit? && q[0].Par?;
      }
    }
  }

  /** Nothing matches below a part when the search of that child came back empty. */
  lemma NothingBelow(node: Node, m: Method, segs: seq<string>, q: Pattern)
    requires segs != [] && Matches(q, segs)
    requires forall p :: Matches(p, segs[1..]) ==> RouteAt(Down(node, q[0]), m, p).None?
    ensures RouteAt(node, m, q).None?
  {
    MatchesBelow(q, segs);
  }

  lemma NoChildNoRoute(node: Node, m: Method, part: Part)
    requires Down(node, part) == EMPTY
    ensures forall p :: RouteAt(Down(node, part), m, p).None?
  {
    forall p ensures RouteAt(EMPTY, m, p).None? { EmptyHasNothing(m, p); }
  }

  /**
   * find_handler_recursive returns the handler of the best registered match together with that
   * match's last captured segment, or nothing and the parameter it was given.
   */
  lemma {:induction false} FindCorrect(node: Node, segs: seq<string>, m: Method, out: string)
    ensures FindsBest(node, m, segs, out, Find(node, segs, m, out))
    decreases |segs|
  {
    var r := Find(node, segs, m, out);
    if segs == [] {
      forall p | Matches(p, segs) ensures p == [] {}
      if r.0.Some? { assert Found(node, m, segs, out, r, []); }
    } else {
      var lit := Lit(segs[0]);
      var s := if segs[0] in node.statics then Find(node.statics[segs[0]], segs[1..], m, out) else (None, out);
      if segs[0] in node.statics {
        FindCorrect(node.statics[segs[0]], segs[1..], m, out);
      } else {
        NoChildNoRoute(node, m, lit);
      }
      assert FindsBest(Down(node, lit), m, segs[1..], out, s);
      if s.0.Some? {
        var p :| Found(Down(node, lit), m, segs[1..], out, s, p);
        FoundAbove(node, m, segs, out, lit, s, p);
      } else {
        FindViaParam(node, segs, m, out);
      }
    }
  }

  lemma {:induction false} FindViaParam(node: Node, segs: seq<string>, m: Method, out: string)
    requires segs != []
    requires forall p :: Matches(p, segs[1..]) ==> RouteAt(Down(node, Lit(segs[0])), m, p).None?
    ensures FindsBest(node, m, segs, out,
                      if node.param.NoChild? || Find(node.param.node, segs[1..], m, segs[0]).0.None? then (None, out)
                      else Find(node.param.node, segs[1..], m, segs[0]))
    decreases |segs|, 0
  {
    forall q: Pattern | Matches(q, segs) && RouteAt(node, m, q).Some?
      ensures node.param.Child? && q[0] == Par(node.param.name)
    {
      MatchesBelow(q, segs);
      if q[0].Lit? {
        NothingBelow(node, m, segs, q);
      } else if node.param.NoChild? || q[0].name != node.param.name {
        NoChildNoRoute(node, m, q[0]);
        NothingBelow(node, m, segs, q);
      }
    }
    if node.param.Child? {
      var par, r := Par(node.param.name), Find(node.param.node, segs[1..], m, segs[0]);
      FindCorrect(node.param.node, segs[1..], m, segs[0]);
      if r.0.Some? {
        var p :| Found(Down(node, par), m, segs[1..], segs[0], r, p);
        FoundAbove(node, m, segs, out, par, r, p);
      } else {
        forall q: Pattern | Matches(q, segs) ensures RouteAt(node, m, q).None? {
          if RouteAt(node, m, q).Some? { NothingBelow(node, m, segs, q); }
        }
      }
    }
  }
}
