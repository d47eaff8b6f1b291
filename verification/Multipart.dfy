/**
 * The multipart/form-data extractor (src/multipart_parser.cc). Buffers are strings of bytes; the file
 * system is a map from names to contents. The name of a temporary file is made of a prefix that
 * identifies the parser object and its thread, and of a running count.
 */
module Multipart {
  import opened Common

  predicate Occurs(text: string, pat: string, i: nat) {
    i + |pat| <= |text| && forall k :: 0 <= k < |pat| ==> text[i + k] == pat[k]
  }

  /** string_view::find. */
  function Find(text: string, pat: string, from: nat): (r: Option<nat>)
    ensures r.Some? ==> from <= r.value && r.value + |pat| <= |text|
    decreases |text| - from
  {
    if from + |pat| > |text| then None
    else if Occurs(text, pat, from) then Some(from)
    else Find(text, pat, from + 1)
  }

  const CRLF := "\r\n"
  const BLANK_LINE := "\r\n\r\n"
  const BOUNDARY_MARK := "boundary="
  const NAME_MARK := "filename=\""
  const QUOTE := "\""
  const DASHES := "--"

  type Files = map<string, string>

  datatype Parser = Parser(
    prefix: string,                // identifies the object and its thread in temporary file names
    boundary: string,
    fileMap: map<string, string>,  // file name to temporary file name
    currentFilename: string,
    currentTmpFilename: string,
    count: nat)

  function NewParser(prefix: string): Parser {
    Parser(prefix, "", map[], "", "", 0)
  }

  function ExtractBoundary(p: Parser, contentType: string): (Parser, bool) {
    if p.boundary != "" || contentType == "" then (p, false)
    else
      match Find(contentType, BOUNDARY_MARK, 0)
      case None => (p, false)
      case Some(at) =>
        (p.(boundary := contentType[at + 9..BoundaryEnd(contentType, at + 9)]), true)
  }

  /** Where a boundary that starts at `start` ends: at the next line end, else at the next semicolon. */
  function BoundaryEnd(contentType: string, start: nat): (end: nat)
    requires start <= |contentType|
    ensures start <= end <= |contentType|
  {
    var line := Find(contentType, CRLF, start);
    var end := if line.Some? then line else Find(contentType, ";", start);
    if end.Some? then end.value else |contentType|
  }

  /** A slice found in the buffer, and the by-reference `pos` afterwards; None stands for npos. */
  datatype Hit = Hit(slice: Option<(nat, nat)>, pos: Option<nat>)

  function FindFilename(boundary: string, buffer: string): (hit: Hit)
    ensures hit.slice.Some? ==> hit.slice.value.0 <= hit.slice.value.1 <= |buffer|
  {
    match Find(buffer, boundary + CRLF, 0)
    case None => Hit(None, None)
    case Some(pos) =>
      match Find(buffer, NAME_MARK, pos)
      case None => Hit(None, Some(pos))
      case Some(at) =>
        match Find(buffer, QUOTE, at + 10)
        case None => Hit(None, Some(pos))
        case Some(end) => Hit(Some((at + 10, end)), Some(end))
  }

  function FindFileContent(buffer: string, pos: Option<nat>): (hit: Hit)
    ensures hit.slice.Some? ==> hit.slice.value.0 <= hit.slice.value.1 <= |buffer|
  {
    if pos.None? then Hit(None, None)
    else
      match Find(buffer, BLANK_LINE, pos.value)
      case None => Hit(None, pos)
      case Some(at) =>
        match Find(buffer, CRLF, at + 4)
        case None => Hit(None, pos)
        case Some(end) => Hit(Some((at + 4, end)), Some(end))
  }

  predicate FindEndBoundary(boundary: string, buffer: string, pos: Option<nat>) {
    pos.Some? && Find(buffer, boundary + DASHES, pos.value).Some?
  }

  function Digits(n: nat): string {
    if n < 10 then ["0123456789"[n]] else Digits(n / 10) + ["0123456789"[n % 10]]
  }

  function TemporaryName(prefix: string, count: nat): string {
    "h2_tmp_" + prefix + "_" + Digits(count)
  }

  function Append(files: Files, name: string, data: string): Files {
    files[name := (if name in files then files[name] else "") + data]
  }

  /** The name that the kernel sees: c_str() ends at the first NUL. */
  function CString(name: string): string {
    if name == "" || name[0] == '\0' then "" else [name[0]] + CString(name[1..])
  }

  /** rename; `renames` tells whether the kernel accepts a non-empty new name. Its failure changes nothing. */
  function Rename(files: Files, from: string, to: string, renames: bool): Files {
    if from in files && to != "" && renames then (files - {from})[to := files[from]] else files
  }

  /** The file name found in the buffer becomes current, unless it is already being received. */
  function Named(p: Parser, buffer: string): Parser {
    match FindFilename(p.boundary, buffer).slice
    case None => p
    case Some((start, end)) =>
      if buffer[start..end] in p.fileMap then p
      else
        var name, tmp := buffer[start..end], TemporaryName(p.prefix, p.count);
        Parser(p.prefix, p.boundary, p.fileMap[name := tmp], name, tmp, p.count + 1)
  }

  datatype Outcome = Outcome(parser: Parser, files: Files, complete: bool)

  /** What the kernel answers: whether the temporary file can be opened, and renamed to a non-empty name. */
  datatype Kernel = Kernel(opens: bool, renames: bool)

  /** The middle of write: the content found is appended to the current temporary file. */
  function Saved(p: Parser, files: Files, k: Kernel, buffer: string, content: Hit): Files
    requires content.slice.Some? ==> content.slice.value.0 <= content.slice.value.1 <= |buffer|
  {
    if content.slice.Some? && p.currentTmpFilename != "" && k.opens
    then Append(files, p.currentTmpFilename, buffer[content.slice.value.0..content.slice.value.1])
    else files
  }

  /** The end of write: the file is complete. The result of rename is not looked at. */
  function Finished(p: Parser, files: Files, k: Kernel): Outcome {
    Outcome(p.(fileMap := p.fileMap - {p.currentFilename}),
            Rename(files, p.currentTmpFilename, CString(p.currentFilename), k.renames), true)
  }

  /** write. */
  function Write(p: Parser, files: Files, k: Kernel, buffer: string): Outcome {
    if p.boundary == "" then Outcome(p, files, false)
    else
      var p1 := Named(p, buffer);
      var content := FindFileContent(buffer, FindFilename(p.boundary, buffer).pos);
      var files1 := Saved(p1, files, k, buffer, content);
      if FindEndBoundary(p.boundary, buffer, content.pos) then Finished(p1, files1, k) else Outcome(p1, files1, false)
  }

  // ---------------------------------------------------------------- searching

  /** The first occurrence at or after `from` is at `at`. */
  ghost predicate FirstAt(text: string, pat: string, from: nat, at: nat) {
    from <= at && Occurs(text, pat, at) && forall j: nat :: from <= j < at ==> !Occurs(text, pat, j)
  }

  lemma {:induction false} FindIs(text: string, pat: string, from: nat, at: nat)
    requires FirstAt(text, pat, from, at)
    ensures Find(text, pat, from) == Some(at)
    decreases at - from
  {
    if from < at { FindIs(text, pat, from + 1, at); }
  }

  lemma {:induction false} FindsNothing(text: string, pat: string, from: nat)
    requires forall j: nat :: from <= j ==> !Occurs(text, pat, j)
    ensures Find(text, pat, from).None?
    decreases |text| - from
  {
    if from + |pat| <= |text| { FindsNothing(text, pat, from + 1); }
  }

  /** Where there is an occurrence, one is found, and it is the first. */
  lemma {:induction false} FindsSomething(text: string, pat: string, from: nat, at: nat)
    requires from <= at && Occurs(text, pat, at)
    ensures var r := Find(text, pat, from); r.Some? && r.value <= at && FirstAt(text, pat, from, r.value)
    decreases at - from
  {
    if !Occurs(text, pat, from) { FindsSomething(text, pat, from + 1, at); }
  }

  lemma NotHere(text: string, pat: string, i: nat, k: nat)
    requires k < |pat| && (i + k < |text| ==> text[i + k] != pat[k])
    ensures !Occurs(text, pat, i)
  {
  }

  /** `w` stands in `text` at offset `from`. */
  predicate Window(text: string, from: nat, w: string) {
    from + |w| <= |text| && text[from..from + |w|] == w
  }

  lemma OccursInWindow(text: string, from: nat, w: string, pat: string, j: nat)
    requires Window(text, from, w) && j + |pat| <= |w|
    ensures Occurs(text, pat, from + j) <==> Occurs(w, pat, j)
  {
    forall k | 0 <= k < |w| ensures text[from + k] == w[k] {
      assert text[from..from + |w|][k] == w[k];
    }
    if Occurs(text, pat, from + j) {
      forall k | 0 <= k < |pat| ensures w[j + k] == pat[k] { assert text[from + j + k] == pat[k]; }
    }
  }

  /** Searching from the start of a window that ends with its first hit. */
  lemma FirstInWindow(text: string, from: nat, w: string, pat: string, at: nat)
    requires Window(text, from, w) && FirstAt(w, pat, 0, at)
    ensures FirstAt(text, pat, from, from + at)
  {
    OccursInWindow(text, from, w, pat, at);
    forall j: nat | from <= j < from + at ensures !Occurs(text, pat, j) {
      OccursInWindow(text, from, w, pat, j - from);
    }
  }

  predicate Lacks(text: string, c: char) {
    forall i :: 0 <= i < |text| ==> text[i] != c
  }

  /** Text followed by a marker whose first character it lacks: the marker is found at its end. */
  lemma MarkerAtEnd(text: string, pat: string)
    requires pat != "" && Lacks(text, pat[0])
    ensures FirstAt(text + pat, pat, 0, |text|)
  {
    forall j: nat | j < |text| ensures !Occurs(text + pat, pat, j) {
      assert (text + pat)[j] == text[j];
      NotHere(text + pat, pat, j, 0);
    }
  }

  /** The boundary line is found right behind the two leading dashes. */
  lemma BoundaryLine(b: string)
    requires Lacks(b, '\r')
    ensures FirstAt(DASHES + (b + CRLF), b + CRLF, 0, 2)
  {
    var pat := b + CRLF;
    var line := DASHES + pat;
    forall j: nat | j < 2 ensures !Occurs(line, pat, j) {
      assert pat[|b|] == '\r' && line[j + |b|] != '\r';
      NotHere(line, pat, j, |b|);
    }
  }

  lemma PrefixWindow(text: string, from: nat, w: string, n: nat)
    requires Window(text, from, w) && n <= |w|
    ensures Window(text, from, w[..n])
  {
    assert text[from..from + |w|][..n] == text[from..from + n];
  }

  // ---------------------------------------------------------------- one uploaded file

  /** A single-part body as section 4 of RFC 7578 has it; `pre` and `post` are the rest of the headers. */
  datatype Part = Part(boundary: string, pre: string, filename: string, post: string, content: string, tail: string)

  function Opening(u: Part): string { u.boundary + CRLF + (u.pre + NAME_MARK) }
  function Headers(u: Part): string { QUOTE + (u.post + BLANK_LINE) }
  function Closing(u: Part): string { DASHES + (u.boundary + DASHES) + u.tail }

  function Print(u: Part): string {
    DASHES + Opening(u) + u.filename + Headers(u) + (u.content + CRLF) + Closing(u)
  }

  /** Where the marker stands in the opening, and the blank line in the headers. */
  function MarkAt(u: Part): nat { |u.boundary| + 2 + |u.pre| }
  function BlankAt(u: Part): nat { 1 + |u.post| }

  /** No marker appears before its place. */
  ghost predicate WellFormed(u: Part) {
    && u.boundary != "" && Lacks(u.boundary, '\r') && Lacks(u.filename, '"')
    && FirstAt(Opening(u), NAME_MARK, 0, MarkAt(u)) && FirstAt(Headers(u), BLANK_LINE, 0, BlankAt(u))
  }

  /** Length of the content up to its first CRLF. */
  ghost function CutAt(content: string): (k: nat)
    ensures k <= |content| && FirstAt(content + CRLF, CRLF, 0, k)
  {
    assert Occurs(content + CRLF, CRLF, |content|);
    FindsSomething(content + CRLF, CRLF, 0, |content|);
    Find(content + CRLF, CRLF, 0).value
  }

  /** Where the pieces of a body of this shape stand. */
  lemma Pieces(a: string, b: string, r: string, name: string, q: string, h: string, line: string, z: string)
    ensures var body := a + (b + r) + name + (q + h) + line + z;
            && Window(body, 0, a + b) && Window(body, |a|, b + r)
            && Window(body, |a + (b + r)|, name + q)
            && Window(body, |a + (b + r) + name|, q + h)
            && Window(body, |a + (b + r) + name + (q + h)|, line)
  {
    var body := a + (b + r) + name + (q + h) + line + z;
    assert body[..|a + b|] == a + b;
    assert body[|a|..|a| + |b + r|] == b + r;
    var n := |a + (b + r)|;
    assert body[n..n + |name + q|] == name + q;
  }

  /** A marker that is first in a piece of the buffer is found by a search from the start of that piece. */
  lemma FindsMarker(buffer: string, start: nat, piece: string, pat: string, at: nat)
    requires Window(buffer, start, piece) && FirstAt(piece, pat, 0, at)
    ensures Find(buffer, pat, start) == Some(start + at)
  {
    FirstInWindow(buffer, start, piece, pat, at);
    FindIs(buffer, pat, start, start + at);
  }

  lemma FindsBoundaryLine(buffer: string, b: string)
    requires Lacks(b, '\r') && Window(buffer, 0, DASHES + (b + CRLF))
    ensures Find(buffer, b + CRLF, 0) == Some(2)
  {
    BoundaryLine(b);
    FindsMarker(buffer, 0, DASHES + (b + CRLF), b + CRLF, 2);
  }

  lemma FindsQuote(buffer: string, start: nat, name: string)
    requires Lacks(name, '"') && Window(buffer, start, name + QUOTE)
    ensures Find(buffer, QUOTE, start) == Some(start + |name|) && Window(buffer, start, name)
  {
    MarkerAtEnd(name, QUOTE);
    FindsMarker(buffer, start, name + QUOTE, QUOTE, |name|);
    PrefixWindow(buffer, start, name + QUOTE, |name|);
    assert (name + QUOTE)[..|name|] == name;
  }

  lemma NameHit(buffer: string, b: string, line: nat, at: nat, end: nat)
    requires Find(buffer, b + CRLF, 0) == Some(line) && Find(buffer, NAME_MARK, line) == Some(at)
    requires Find(buffer, QUOTE, at + |NAME_MARK|) == Some(end)
    ensures FindFilename(b, buffer) == Hit(Some((at + |NAME_MARK|, end)), Some(end))
  {
  }

  lemma FindsContentEnd(buffer: string, start: nat, content: string, k: nat)
    requires Window(buffer, start, content + CRLF) && k <= |content| && FirstAt(content + CRLF, CRLF, 0, k)
    ensures Find(buffer, CRLF, start) == Some(start + k) && Window(buffer, start, content[..k])
  {
    var line := content + CRLF;
    assert Find(buffer, CRLF, start) == Some(start + k) by {
      FindsMarker(buffer, start, line, CRLF, k);
    }
    PrefixWindow(buffer, start, line, k);
    assert line[..k] == content[..k];
  }

  lemma FindsEnd(a: string, b: string, z: string, pos: nat)
    requires pos <= |a|
    ensures FindEndBoundary(b, a + (DASHES + (b + DASHES) + z), Some(pos))
  {
    var buffer := a + (DASHES + (b + DASHES) + z);
    assert Occurs(buffer, b + DASHES, |a| + 2);
    FindsSomething(buffer, b + DASHES, pos, |a| + 2);
  }

  lemma NamedGiven(p: Parser, buffer: string, name: string, nameAt: nat, end: nat)
    requires name !in p.fileMap && Window(buffer, nameAt, name) && end == nameAt + |name|
    requires FindFilename(p.boundary, buffer) == Hit(Some((nameAt, end)), Some(end))
    ensures Named(p, buffer) == Begun(p, name)
  {
  }

  lemma SavedGiven(p: Parser, files: Files, k: Kernel, buffer: string, data: string, dataAt: nat, end: nat)
    requires Window(buffer, dataAt, data) && end == dataAt + |data| && p.currentTmpFilename != ""
    ensures Saved(p, files, k, buffer, Hit(Some((dataAt, end)), Some(end)))
            == if k.opens then Append(files, p.currentTmpFilename, data) else files
  {
  }

  /** The parser once it has begun a file of that name. */
  function Begun(p: Parser, name: string): Parser {
    var tmp := TemporaryName(p.prefix, p.count);
    Parser(p.prefix, p.boundary, p.fileMap[name := tmp], name, tmp, p.count + 1)
  }

  /** What write does once the three searches have succeeded. */
  lemma WriteGiven(p: Parser, files: Files, k: Kernel, buffer: string, name: string, data: string,
                   nameAt: nat, dataAt: nat)
    requires p.boundary != "" && name !in p.fileMap
    requires Window(buffer, nameAt, name) && Window(buffer, dataAt, data)
    requires FindFilename(p.boundary, buffer) == Hit(Some((nameAt, nameAt + |name|)), Some(nameAt + |name|))
    requires FindFileContent(buffer, Some(nameAt + |name|))
             == Hit(Some((dataAt, dataAt + |data|)), Some(dataAt + |data|))
    requires FindEndBoundary(p.boundary, buffer, Some(dataAt + |data|))
    ensures var tmp := TemporaryName(p.prefix, p.count);
            Write(p, files, k, buffer)
            == Finished(Begun(p, name), if k.opens then Append(files, tmp, data) else files, k)
  {
    NamedGiven(p, buffer, name, nameAt, nameAt + |name|);
    SavedGiven(Begun(p, name), files, k, buffer, data, dataAt, dataAt + |data|);
  }

  /** Where the content of an upload ends up: under its name, or left in the temporary file. */
  function Target(name: string, tmp: string, renames: bool): string {
    if renames && CString(name) != "" then CString(name) else tmp
  }

  /** Appending to the fresh temporary file and renaming it leaves exactly the data under the target. */
  lemma AppendThenRename(files: Files, tmp: string, name: string, data: string, renames: bool)
    requires tmp !in files
    ensures Rename(Append(files, tmp, data), tmp, CString(name), renames) == files[Target(name, tmp, renames) := data]
    ensures Rename(files, tmp, CString(name), renames) == files
  {
    var appended := Append(files, tmp, data);
    assert appended - {tmp} == files;
    assert appended[tmp] == data && appended == files[tmp := data];
  }

  lemma {:induction false} CStringIsWhole(name: string)
    ensures CString(name) == name <==> Lacks(name, '\0')
  {
    if name != "" {
      CStringIsWhole(name[1..]);
      assert name == [name[0]] + name[1..];
      assert Lacks(name, '\0') <==> name[0] != '\0' && Lacks(name[1..], '\0') by {
        assert forall i :: 0 < i < |name| ==> name[i] == name[1..][i - 1];
      }
      assert |CString(name[1..])| <= |name[1..]| by { CStringIsShorter(name[1..]); }
    }
  }

  lemma {:induction false} CStringIsShorter(name: string)
    ensures |CString(name)| <= |name|
  {
    if name != "" && name[0] != '\0' { CStringIsShorter(name[1..]); }
  }

  /** A name that a file can have, and that rename can give it. */
  predicate IsFileName(name: string) {
    name != "" && Lacks(name, '\0')
  }

  /** The content is stored under the name exactly when the name is a file name and rename succeeds. */
  lemma StoredIff(files: Files, tmp: string, name: string, renames: bool, data: string, content: string)
    requires tmp !in files && tmp != name && forall n :: n in files ==> IsFileName(n)
    ensures files[Target(name, tmp, renames) := data] == files[name := content]
            <==> renames && IsFileName(name) && data == content
  {
    CStringIsWhole(name);
    var target := Target(name, tmp, renames);
    if target == name {
      assert files[target := data][name] == data && files[name := content][name] == content;
    } else {
      assert name !in files ==> name !in files[target := data];
      assert target !in files ==> target !in files[name := content];
      assert name in files[name := content] && target in files[target := data];
    }
  }

  lemma CutInside(content: string)
    requires CutAt(content) < |content|
    ensures Occurs(content, CRLF, CutAt(content))
  {
    var line, k := content + CRLF, CutAt(content);
    assert line[k + 0] == CRLF[0] && line[k + 1] == CRLF[1];
    assert line[|content|] == '\r';
  }

  /** Nothing is cut off exactly when the content has no CRLF in it. */
  lemma WholeIffNoCrlf(content: string)
    ensures content[..CutAt(content)] == content <==> Find(content, CRLF, 0).None?
  {
    var line, k := content + CRLF, CutAt(content);
    if k < |content| {
      CutInside(content);
      FindsSomething(content, CRLF, 0, k);
    } else {
      forall j: nat ensures !Occurs(content, CRLF, j) {
        if j + 2 <= |content| {
          assert Window(line, 0, content) by { assert line[..|content|] == content; }
          OccursInWindow(line, 0, content, CRLF, j);
        }
      }
      FindsNothing(content, CRLF, 0);
    }
  }

  /** Offsets in the printed body. */
  function NameAt(u: Part): nat { 2 + MarkAt(u) + |NAME_MARK| }
  function QuoteAt(u: Part): nat { NameAt(u) + |u.filename| }
  function ContentAt(u: Part): nat { QuoteAt(u) + BlankAt(u) + |BLANK_LINE| }

  predicate LaidOut(u: Part, body: string) {
    && Window(body, 0, DASHES + (u.boundary + CRLF)) && Window(body, 2, Opening(u))
    && Window(body, NameAt(u), u.filename + QUOTE) && Window(body, QuoteAt(u), Headers(u))
    && Window(body, ContentAt(u), u.content + CRLF)
  }

  lemma Layout(u: Part)
    ensures LaidOut(u, Print(u))
  {
    Pieces(DASHES, u.boundary + CRLF, u.pre + NAME_MARK, u.filename,
           QUOTE, u.post + BLANK_LINE, u.content + CRLF, Closing(u));
  }

  /** The three searches of write, on a printed part. */
  ghost predicate Located(u: Part, body: string) {
    && Window(body, NameAt(u), u.filename) && Window(body, ContentAt(u), u.content[..CutAt(u.content)])
    && FindFilename(u.boundary, body) == Hit(Some((NameAt(u), QuoteAt(u))), Some(QuoteAt(u)))
    && FindFileContent(body, Some(QuoteAt(u)))
       == Hit(Some((ContentAt(u), ContentAt(u) + CutAt(u.content))), Some(ContentAt(u) + CutAt(u.content)))
    && FindEndBoundary(u.boundary, body, Some(ContentAt(u) + CutAt(u.content)))
  }

  lemma LocateMark(u: Part, body: string)
    requires FirstAt(Opening(u), NAME_MARK, 0, MarkAt(u)) && Window(body, 2, Opening(u))
    ensures Find(body, NAME_MARK, 2) == Some(2 + MarkAt(u))
  {
    FindsMarker(body, 2, Opening(u), NAME_MARK, MarkAt(u));
  }

  lemma LocateName(u: Part, body: string)
    requires Lacks(u.boundary, '\r') && Lacks(u.filename, '"')
    requires Window(body, 0, DASHES + (u.boundary + CRLF)) && Find(body, NAME_MARK, 2) == Some(2 + MarkAt(u))
    requires Window(body, NameAt(u), u.filename + QUOTE)
    ensures FindFilename(u.boundary, body) == Hit(Some((NameAt(u), QuoteAt(u))), Some(QuoteAt(u)))
    ensures Window(body, NameAt(u), u.filename)
  {
    FindsBoundaryLine(body, u.boundary);
    FindsQuote(body, NameAt(u), u.filename);
    NameHit(body, u.boundary, 2, 2 + MarkAt(u), QuoteAt(u));
  }

  lemma LocateBlankLine(u: Part, body: string)
    requires FirstAt(Headers(u), BLANK_LINE, 0, BlankAt(u)) && Window(body, QuoteAt(u), Headers(u))
    ensures Find(body, BLANK_LINE, QuoteAt(u)) == Some(QuoteAt(u) + BlankAt(u))
  {
    FindsMarker(body, QuoteAt(u), Headers(u), BLANK_LINE, BlankAt(u));
  }

  lemma ContentHit(body: string, pos: nat, at: nat, end: nat)
    requires Find(body, BLANK_LINE, pos) == Some(at) && Find(body, CRLF, at + |BLANK_LINE|) == Some(end)
    ensures FindFileContent(body, Some(pos)) == Hit(Some((at + |BLANK_LINE|, end)), Some(end))
  {
  }

  lemma FindsContent(body: string, pos: nat, start: nat, content: string, k: nat)
    requires start >= |BLANK_LINE| && Find(body, BLANK_LINE, pos) == Some(start - |BLANK_LINE|)
    requires Window(body, start, content + CRLF) && k <= |content| && FirstAt(content + CRLF, CRLF, 0, k)
    ensures FindFileContent(body, Some(pos)) == Hit(Some((start, start + k)), Some(start + k))
    ensures Window(body, start, content[..k])
  {
    FindsContentEnd(body, start, content, k);
    ContentHit(body, pos, start - |BLANK_LINE|, start + k);
  }

  /** The search for the content: it ends, for the parser, at its first CRLF. */
  lemma LocateContent(u: Part, body: string)
    requires Find(body, BLANK_LINE, QuoteAt(u)) == Some(QuoteAt(u) + BlankAt(u))
    requires Window(body, ContentAt(u), u.content + CRLF)
    ensures var end := ContentAt(u) + CutAt(u.content);
            && FindFileContent(body, Some(QuoteAt(u))) == Hit(Some((ContentAt(u), end)), Some(end))
            && Window(body, ContentAt(u), u.content[..CutAt(u.content)])
  {
    FindsContent(body, QuoteAt(u), ContentAt(u), u.content, CutAt(u.content));
  }

  lemma Lengths(u: Part)
    ensures |Opening(u)| == MarkAt(u) + |NAME_MARK| && |Headers(u)| == BlankAt(u) + |BLANK_LINE|
  {
  }

  lemma LocateEnd(u: Part)
    ensures FindEndBoundary(u.boundary, Print(u), Some(ContentAt(u) + CutAt(u.content)))
  {
    Lengths(u);
    FindsEnd(DASHES + Opening(u) + u.filename + Headers(u) + (u.content + CRLF), u.boundary, u.tail,
             ContentAt(u) + CutAt(u.content));
  }

  lemma Locate(u: Part)
    requires WellFormed(u)
    ensures Located(u, Print(u))
  {
    Layout(u);
    LocateMark(u, Print(u));
    LocateName(u, Print(u));
    LocateBlankLine(u, Print(u));
    LocateContent(u, Print(u));
    LocateEnd(u);
  }

  lemma Written(u: Part, body: string, p: Parser, files: Files, k: Kernel)
    requires Located(u, body) && u.boundary != "" && p.boundary == u.boundary && u.filename !in p.fileMap
    ensures var tmp, cut := TemporaryName(p.prefix, p.count), u.content[..CutAt(u.content)];
            Write(p, files, k, body)
            == Finished(Begun(p, u.filename), if k.opens then Append(files, tmp, cut) else files, k)
  {
    WriteGiven(p, files, k, body, u.filename, u.content[..CutAt(u.content)], NameAt(u), ContentAt(u));
  }

  lemma FinishedGiven(p: Parser, name: string, files: Files, data: string, k: Kernel)
    requires name !in p.fileMap && TemporaryName(p.prefix, p.count) !in files
    ensures var tmp := TemporaryName(p.prefix, p.count);
            var r := Finished(Begun(p, name), if k.opens then Append(files, tmp, data) else files, k);
            && r.complete && r.parser.fileMap == p.fileMap && r.parser.currentFilename == name
            && r.files == if k.opens then files[Target(name, tmp, k.renames) := data] else files
  {
    var tmp := TemporaryName(p.prefix, p.count);
    assert p.fileMap[name := tmp] - {name} == p.fileMap;
    AppendThenRename(files, tmp, name, data, k.renames);
  }

  /** The conditions under which an upload is stored as it was sent. */
  predicate Storable(u: Part, k: Kernel) {
    k.renames && IsFileName(u.filename) && Find(u.content, CRLF, 0).None?
  }

  /** The files after the upload: the content up to its first CRLF, under its target, if it could be written. */
  ghost function Uploaded(u: Part, files: Files, k: Kernel, tmp: string): Files {
    if k.opens then files[Target(u.filename, tmp, k.renames) := u.content[..CutAt(u.content)]] else files
  }

  /** The temporary name is fresh, and the files have file names. */
  predicate Prepared(u: Part, files: Files, tmp: string) {
    tmp !in files && tmp != u.filename && forall n :: n in files ==> IsFileName(n)
  }

  /**
   * Upload round trip. Writing a printed part returns true, forgets the file name and stores the
   * content up to its first CRLF, under the file name or, when rename fails, in the temporary file; so
   * the files are as the upload asks exactly when it is storable.
   */
  lemma UploadRoundTrip(u: Part, p: Parser, files: Files, k: Kernel)
    requires WellFormed(u) && p.boundary == u.boundary && u.filename !in p.fileMap
    requires Prepared(u, files, TemporaryName(p.prefix, p.count))
    ensures var r := Write(p, files, k, Print(u));
            && r.complete && r.parser.fileMap == p.fileMap && r.parser.currentFilename == u.filename
            && r.files == Uploaded(u, files, k, TemporaryName(p.prefix, p.count))
            && (k.opens ==> (r.files == files[u.filename := u.content] <==> Storable(u, k)))
  {
    var tmp, cut := TemporaryName(p.prefix, p.count), u.content[..CutAt(u.content)];
    Locate(u);
    Written(u, Print(u), p, files, k);
    FinishedGiven(p, u.filename, files, cut, k);
    WholeIffNoCrlf(u.content);
    StoredIff(files, tmp, u.filename, k.renames, cut, u.content);
  }

  // ---------------------------------------------------------------- any call of write

  lemma {:induction false} FindOccurs(text: string, pat: string, from: nat)
    ensures var r := Find(text, pat, from); r.Some? ==> from <= r.value && Occurs(text, pat, r.value)
    decreases |text| - from
  {
    if from + |pat| <= |text| { FindOccurs(text, pat, from + 1); }
  }

  lemma ContentComesLater(buffer: string, pos: Option<nat>)
    ensures var hit := FindFileContent(buffer, pos); hit.pos.Some? ==> pos.Some? && pos.value <= hit.pos.value
  {
  }

  /**
   * Without a boundary nothing happens. A call completes a file only if a boundary line and, behind it, a
   * closing boundary are in the buffer.
   */
  lemma CompletesOnlyIf(p: Parser, files: Files, k: Kernel, buffer: string)
    ensures p.boundary == "" ==> Write(p, files, k, buffer) == Outcome(p, files, false)
    ensures Write(p, files, k, buffer).complete ==>
              && p.boundary != ""
              && exists line: nat, end: nat ::
                   && line <= end && Occurs(buffer, p.boundary + CRLF, line)
                   && Occurs(buffer, p.boundary + DASHES, end)
  {
    if Write(p, files, k, buffer).complete {
      var name := FindFilename(p.boundary, buffer);
      var content := FindFileContent(buffer, name.pos);
      FindOccurs(buffer, p.boundary + CRLF, 0);
      ContentComesLater(buffer, name.pos);
      FindOccurs(buffer, p.boundary + DASHES, content.pos.value);
      var line := Find(buffer, p.boundary + CRLF, 0).value;
      var end := Find(buffer, p.boundary + DASHES, content.pos.value).value;
      assert line <= end && Occurs(buffer, p.boundary + CRLF, line) && Occurs(buffer, p.boundary + DASHES, end);
    }
  }

  /** A call that does not complete the file touches only the current temporary file, and only adds to it. */
  lemma IncompleteOnlyAdds(p: Parser, files: Files, k: Kernel, buffer: string, name: string)
    requires !Write(p, files, k, buffer).complete
    ensures var r := Write(p, files, k, buffer);
            && (name in files ==> name in r.files && files[name] <= r.files[name])
            && (name != r.parser.currentTmpFilename ==>
                  (name in r.files <==> name in files) && (name in files ==> r.files[name] == files[name]))
  {
  }

  /** The buffer names the file and holds this much of its content. */
  predicate Piece(boundary: string, buffer: string, name: string, nameAt: nat, data: string, dataAt: nat) {
    && Window(buffer, nameAt, name) && Window(buffer, dataAt, data)
    && FindFilename(boundary, buffer) == Hit(Some((nameAt, nameAt + |name|)), Some(nameAt + |name|))
    && FindFileContent(buffer, Some(nameAt + |name|))
       == Hit(Some((dataAt, dataAt + |data|)), Some(dataAt + |data|))
  }

  lemma FirstPiece(p: Parser, files: Files, k: Kernel, buffer: string,
                   name: string, nameAt: nat, data: string, dataAt: nat)
    requires p.boundary != "" && name !in p.fileMap && Piece(p.boundary, buffer, name, nameAt, data, dataAt)
    requires !FindEndBoundary(p.boundary, buffer, Some(dataAt + |data|))
    ensures var tmp := TemporaryName(p.prefix, p.count);
            Write(p, files, k, buffer)
            == Outcome(Begun(p, name), if k.opens then Append(files, tmp, data) else files, false)
  {
    NamedGiven(p, buffer, name, nameAt, nameAt + |name|);
    SavedGiven(Begun(p, name), files, k, buffer, data, dataAt, dataAt + |data|);
  }

  lemma LaterPiece(p: Parser, files: Files, k: Kernel, buffer: string,
                   name: string, nameAt: nat, data: string, dataAt: nat)
    requires p.boundary != "" && name in p.fileMap && p.currentTmpFilename != ""
    requires Piece(p.boundary, buffer, name, nameAt, data, dataAt)
    requires FindEndBoundary(p.boundary, buffer, Some(dataAt + |data|))
    ensures Write(p, files, k, buffer)
            == Finished(p, if k.opens then Append(files, p.currentTmpFilename, data) else files, k)
  {
    SavedGiven(p, files, k, buffer, data, dataAt, dataAt + |data|);
  }

  lemma AppendTwice(files: Files, name: string, data: string, more: string)
    requires name !in files
    ensures Append(Append(files, name, data), name, more) == Append(files, name, data + more)
  {
    assert "" + data == data && "" + (data + more) == data + more;
  }

  /** A file received in two calls is stored as the two pieces of content together, under its target. */
  lemma TwoPieces(p: Parser, files: Files, renames: bool, name: string,
                  first: string, nameAt: nat, data: string, dataAt: nat,
                  second: string, nameAt': nat, data': string, dataAt': nat)
    requires p.boundary != "" && name !in p.fileMap && TemporaryName(p.prefix, p.count) !in files
    requires Piece(p.boundary, first, name, nameAt, data, dataAt)
    requires !FindEndBoundary(p.boundary, first, Some(dataAt + |data|))
    requires Piece(p.boundary, second, name, nameAt', data', dataAt')
    requires FindEndBoundary(p.boundary, second, Some(dataAt' + |data'|))
    ensures var k := Kernel(true, renames);
            var r1 := Write(p, files, k, first);
            var r2 := Write(r1.parser, r1.files, k, second);
            && !r1.complete && r2.complete && r2.parser.fileMap == p.fileMap && r2.parser.count == p.count + 1
            && r2.files == files[Target(name, TemporaryName(p.prefix, p.count), renames) := data + data']
  {
    var k, tmp := Kernel(true, renames), TemporaryName(p.prefix, p.count);
    FirstPiece(p, files, k, first, name, nameAt, data, dataAt);
    var files1 := Append(files, tmp, data);
    LaterPiece(Begun(p, name), files1, k, second, name, nameAt', data', dataAt');
    AppendTwice(files, tmp, data, data');
    FinishedGiven(p, name, files, data + data', k);
  }

  lemma {:induction false} DigitsDiffer(m: nat, n: nat)
    requires Digits(m) == Digits(n)
    ensures m == n
  {
    DigitsLast(m);
    DigitsLast(n);
    if m >= 10 && n >= 10 { DigitsDiffer(m / 10, n / 10); }
  }

  /** The last digit, what is in front of it, and that there is something in front of it from 10 on. */
  lemma DigitsLast(n: nat)
    ensures |Digits(n)| >= 1 && Digits(n)[|Digits(n)| - 1] == "0123456789"[n % 10]
    ensures n >= 10 ==> |Digits(n)| >= 2 && Digits(n)[..|Digits(n)| - 1] == Digits(n / 10)
    ensures n < 10 ==> |Digits(n)| == 1
  {
    if n >= 10 { assert |Digits(n / 10)| >= 1 by { DigitsLast(n / 10); } }
  }

  /** The temporary names of a parser are all different. */
  lemma TemporaryNamesDiffer(prefix: string, m: nat, n: nat)
    requires m != n
    ensures TemporaryName(prefix, m) != TemporaryName(prefix, n)
  {
    var lead := "h2_tmp_" + prefix + "_";
    if TemporaryName(prefix, m) == TemporaryName(prefix, n) {
      assert Digits(m) == (lead + Digits(m))[|lead|..] == (lead + Digits(n))[|lead|..] == Digits(n);
      DigitsDiffer(m, n);
    }
  }

  // ---------------------------------------------------------------- the announcement

  /** Searching beyond a stretch that lacks the pattern's first character. */
  lemma FindsBeyond(text: string, start: nat, skipped: string, rest: string, pat: string)
    requires start <= |text| && text[start..] == skipped + rest && pat != "" && Lacks(skipped, pat[0])
    ensures Find(text, pat, start)
            == match Find(rest, pat, 0) case None => None case Some(k) => Some(start + |skipped| + k)
  {
    var at := start + |skipped|;
    assert text[at..] == rest;
    assert Window(text, at, rest);
    forall j: nat | start <= j < at ensures !Occurs(text, pat, j) {
      assert text[j] == text[start..][j - start] == skipped[j - start];
      NotHere(text, pat, j, 0);
    }
    FindSkips(text, pat, start, at);
    FindInTail(text, at, rest, pat, 0);
  }

  lemma {:induction false} FindSkips(text: string, pat: string, from: nat, to: nat)
    requires from <= to && forall j: nat :: from <= j < to ==> !Occurs(text, pat, j)
    ensures Find(text, pat, from) == Find(text, pat, to)
    decreases |text| - from
  {
    if from < to && from + |pat| <= |text| { FindSkips(text, pat, from + 1, to); }
  }

  lemma {:induction false} FindInTail(text: string, at: nat, rest: string, pat: string, i: nat)
    requires at <= |text| && text[at..] == rest
    ensures Find(text, pat, at + i) == match Find(rest, pat, i) case None => None case Some(k) => Some(at + k)
    decreases |rest| - i
  {
    if i + |pat| <= |rest| {
      OccursInWindow(text, at, rest, pat, i);
      FindInTail(text, at, rest, pat, i + 1);
    }
  }

  /** What may follow the boundary in a content type. */
  predicate EndsBoundary(rest: string) {
    rest == "" || rest[0] == ';' || CRLF <= rest
  }

  /** A line end behind a following parameter: the code takes everything up to it. */
  predicate LineEndTooLate(rest: string) {
    rest != "" && rest[0] == ';' && Find(rest, CRLF, 0).Some?
  }

  lemma MarkFound(lead: string, text: string)
    requires FirstAt(lead + BOUNDARY_MARK, BOUNDARY_MARK, 0, |lead|)
    ensures var ct := lead + BOUNDARY_MARK + text;
            Find(ct, BOUNDARY_MARK, 0) == Some(|lead|) && |lead| + 9 <= |ct| && ct[|lead| + 9..] == text
  {
    var ct := lead + BOUNDARY_MARK + text;
    assert ct[..|lead| + 9] == lead + BOUNDARY_MARK;
    FindsMarker(ct, 0, lead + BOUNDARY_MARK, BOUNDARY_MARK, |lead|);
  }

  lemma EndInTail(ct: string, at: nat, text: string)
    requires at <= |ct| && ct[at..] == text
    ensures BoundaryEnd(ct, at) == at + BoundaryEnd(text, 0)
  {
    FindInTail(ct, at, text, CRLF, 0);
    FindInTail(ct, at, text, ";", 0);
  }

  lemma SliceOfTail(ct: string, at: nat, text: string, n: nat)
    requires at <= |ct| && ct[at..] == text && n <= |text|
    ensures ct[at..at + n] == text[..n]
  {
  }

  lemma BoundaryRead(prefix: string, ct: string, at: nat, text: string)
    requires Find(ct, BOUNDARY_MARK, 0) == Some(at) && at + 9 <= |ct| && ct[at + 9..] == text
    ensures ExtractBoundary(NewParser(prefix), ct)
            == (NewParser(prefix).(boundary := text[..BoundaryEnd(text, 0)]), true)
  {
    EndInTail(ct, at + 9, text);
    SliceOfTail(ct, at + 9, text, BoundaryEnd(text, 0));
  }

  /** Only the first announcement counts, and only one with a boundary in it. */
  lemma FirstAnnouncementCounts(p: Parser, contentType: string)
    ensures var (p', ok) := ExtractBoundary(p, contentType);
            && (ok ==> p.boundary == "" && exists at: nat :: Occurs(contentType, BOUNDARY_MARK, at))
            && (!ok ==> p' == p) && p' == p.(boundary := p'.boundary)
  {
    FindOccurs(contentType, BOUNDARY_MARK, 0);
  }

  /** The announced boundary is the one the parser uses, unless a line end follows behind a parameter. */
  lemma AnnouncedBoundary(prefix: string, lead: string, boundary: string, rest: string)
    requires Lacks(boundary, '\r') && Lacks(boundary, ';') && EndsBoundary(rest)
    requires FirstAt(lead + BOUNDARY_MARK, BOUNDARY_MARK, 0, |lead|)
    ensures var (p, ok) := ExtractBoundary(NewParser(prefix), lead + BOUNDARY_MARK + (boundary + rest));
            && ok && p == NewParser(prefix).(boundary := p.boundary)
            && (p.boundary == boundary <==> !LineEndTooLate(rest))
  {
    var text := boundary + rest;
    MarkFound(lead, text);
    BoundaryRead(prefix, lead + BOUNDARY_MARK + text, |lead|, text);
    FindsBeyond(text, 0, boundary, rest, CRLF);
    FindsBeyond(text, 0, boundary, rest, ";");
    assert text[..|boundary|] == boundary;
    if rest != "" && rest[0] == ';' {
      assert Occurs(rest, ";", 0);
      NotHere(rest, CRLF, 0, 0);
    } else if rest != "" {
      assert Occurs(rest, CRLF, 0);
    }
  }

  /** The whole upload: announce the boundary to a new parser, then write the body. */
  lemma UploadFromTheStart(u: Part, lead: string, rest: string, files: Files, k: Kernel, prefix: string)
    requires WellFormed(u) && Announces(u, lead, rest) && Prepared(u, files, TemporaryName(prefix, 0))
    ensures var (p, ok) := ExtractBoundary(NewParser(prefix), ContentType(u, lead, rest));
            var r := Write(p, files, k, Print(u));
            && ok && r.complete && r.parser.fileMap == map[] && r.parser.currentFilename == u.filename
            && r.files == Uploaded(u, files, k, TemporaryName(prefix, 0))
            && (k.opens ==> (r.files == files[u.filename := u.content] <==> Storable(u, k)))
  {
    AnnouncedBoundary(prefix, lead, u.boundary, rest);
    UploadRoundTrip(u, NewParser(prefix).(boundary := u.boundary), files, k);
  }

  function ContentType(u: Part, lead: string, rest: string): string {
    lead + BOUNDARY_MARK + (u.boundary + rest)
  }

  /** The content type announces the boundary of the part in a way that the parser reads. */
  ghost predicate Announces(u: Part, lead: string, rest: string) {
    && Lacks(u.boundary, ';') && EndsBoundary(rest) && !LineEndTooLate(rest)
    && FirstAt(lead + BOUNDARY_MARK, BOUNDARY_MARK, 0, |lead|)
  }

  // ---------------------------------------------------------------- the parser object

  class FileSystem {
    var files: Files
  }

  class MultipartFormParser {
    const prefix: string
    var boundary: string
    var fileMap: map<string, string>
    var currentFilename: string
    var currentTmpFilename: string
    var count: nat

    ghost function State(): Parser
      reads this
    {
      Parser(prefix, boundary, fileMap, currentFilename, currentTmpFilename, count)
    }

    constructor (prefix: string)
      ensures State() == NewParser(prefix)
    {
      this.prefix := prefix;
      boundary, fileMap, currentFilename, currentTmpFilename, count := "", map[], "", "", 0;
    }

    method ReadBoundary(contentType: string) returns (ok: bool)
      modifies this
      ensures (State(), ok) == ExtractBoundary(old(State()), contentType)
    {
      if boundary == "" && contentType != "" {
        var at := Find(contentType, BOUNDARY_MARK, 0);
        if at.Some? {
          var start := at.value + 9;
          var end := Find(contentType, CRLF, start);
          if end.None? {
            end := Find(contentType, ";", start);
          }
          boundary := contentType[start..if end.Some? then end.value else |contentType|];
          return true;
        }
      }
      return false;
    }

    /** The start of write: a file name that is not being received yet becomes the current one. */
    method BeginFile(buffer: string)
      modifies this
      ensures State() == Named(old(State()), buffer)
    {
      var name := FindFilename(boundary, buffer);
      if name.slice.Some? {
        var filename := buffer[name.slice.value.0..name.slice.value.1];
        if filename !in fileMap {
          var tmp := TemporaryName(prefix, count);
          count := count + 1;
          fileMap := fileMap[filename := tmp];
          currentFilename := filename;
          currentTmpFilename := tmp;
        }
      }
    }

    /** write. */
    method Receive(fs: FileSystem, k: Kernel, buffer: string) returns (complete: bool)
      modifies this, fs
      ensures Outcome(State(), fs.files, complete) == Write(old(State()), old(fs.files), k, buffer)
    {
      if boundary == "" {
        return false;
      }
      BeginFile(buffer);
      var content := FindFileContent(buffer, FindFilename(boundary, buffer).pos);
      if content.slice.Some? && currentTmpFilename != "" && k.opens {
        fs.files := Append(fs.files, currentTmpFilename, buffer[content.slice.value.0..content.slice.value.1]);
      }
      assert fs.files == Saved(State(), old(fs.files), k, buffer, content);
      if FindEndBoundary(boundary, buffer, content.pos) {
        fileMap := fileMap - {currentFilename};
        fs.files := Rename(fs.files, currentTmpFilename, CString(currentFilename), k.renames);
        return true;
      }
      return false;
    }
  }

  /** A new parser is told the boundary and given the body of a printed part. */
  method ReceiveUpload(parser: MultipartFormParser, fs: FileSystem, k: Kernel, contentType: string, body: string,
                       ghost u: Part, ghost lead: string, ghost rest: string)
    returns (complete: bool)
    requires parser.State() == NewParser(parser.prefix) && contentType == ContentType(u, lead, rest) && body == Print(u)
    requires WellFormed(u) && Announces(u, lead, rest) && Prepared(u, fs.files, TemporaryName(parser.prefix, 0))
    modifies parser, fs
    ensures complete && parser.fileMap == map[] && parser.currentFilename == u.filename
    ensures fs.files == Uploaded(u, old(fs.files), k, TemporaryName(parser.prefix, 0))
    ensures k.opens ==> (fs.files == old(fs.files)[u.filename := u.content] <==> Storable(u, k))
  {
    UploadFromTheStart(u, lead, rest, fs.files, k, parser.prefix);
    var announced := parser.ReadBoundary(contentType);
    complete := parser.Receive(fs, k, body);
    ghost var told := ExtractBoundary(NewParser(parser.prefix), contentType).0;
    assert parser.State() == Write(told, old(fs.files), k, body).parser;
  }
}
