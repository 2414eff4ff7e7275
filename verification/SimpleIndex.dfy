// The PEP 503 package index: the page the pull-through template renders and the parser that reads
// such a page from upstream.
//
// A string is the bytes of a page. Lower-casing and trimming come from the Go library as parameters;
// lower-casing can lengthen a string. An absent sha256 is the empty string.
module SimpleIndex {
  import opened Wrappers

  datatype Entry = Entry(filename: string, url: string, sha256: string)

  datatype Lib = Lib(lower: string -> string, trim: string -> string)

  // ---- searching ----

  predicate At(s: string, sub: string, i: nat) {
    i + |sub| <= |s| && s[i..i + |sub|] == sub
  }

  function Index(s: string, sub: string): (r: int)
    ensures r == -1 || 0 <= r <= |s| - |sub|
    ensures r >= 0 ==> At(s, sub, r)
    ensures forall i: nat :: i < (if r < 0 then |s| + 1 else r) ==> !At(s, sub, i)
  {
    IndexFrom(s, sub, 0)
  }

  function IndexFrom(s: string, sub: string, start: nat): (r: int)
    requires start <= |s| + 1
    ensures r == -1 || start <= r <= |s| - |sub|
    ensures r >= 0 ==> At(s, sub, r)
    ensures forall i: nat :: start <= i < (if r < 0 then |s| + 1 else r) ==> !At(s, sub, i)
    decreases |s| + 1 - start
  {
    if start > |s| then -1
    else if At(s, sub, start) then start
    else IndexFrom(s, sub, start + 1)
  }

  lemma IndexIs(s: string, sub: string, i: nat)
    requires At(s, sub, i) && forall k: nat :: k < i ==> !At(s, sub, k)
    ensures Index(s, sub) == i
  {
  }

  function IndexByte(s: string, c: char): (r: int)
    ensures r == -1 || 0 <= r < |s|
    ensures if r < 0 then c !in s else s[r] == c && c !in s[..r]
  {
    if s == [] then -1
    else if s[0] == c then 0
    else
      var r := IndexByte(s[1..], c);
      if r < 0 then -1 else r + 1
  }

  // The parts before and after the first c; the second is empty if there is none.
  function Cut(s: string, c: char): (string, string) {
    var i := IndexByte(s, c);
    if i < 0 then (s, "") else (s[..i], s[i + 1..])
  }

  // ---- the parser ----

  // None stands for the panic of slicing past the end of the tag.
  function AttrValue(lib: Lib, tag: string, attr: string): Option<string> {
    var key := attr + "=";
    var i := Index(lib.lower(tag), key);
    if i < 0 then Some("")
    else if i + |key| > |tag| then None
    else
      var rest := tag[i + |key|..];
      if |rest| < 1 || (rest[0] != '"' && rest[0] != '\'') then Some("")
      else
        var end := IndexByte(rest[1..], rest[0]);
        if end < 0 then Some("") else Some(rest[1..1 + end])
  }

  datatype Reading = Panic | Skip | File(entry: Entry)

  // What the loop body makes of one tag, from "<a " to "</a>".
  function ReadTag(lib: Lib, tag: string): Reading {
    match AttrValue(lib, tag, "href")
    case None => Panic
    case Some(href) =>
      var gt := IndexByte(tag, '>');
      if href == "" || gt < 0 || gt + 1 >= |tag| - 4 then Skip
      else
        var name := lib.trim(tag[gt + 1..|tag| - 4]);
        if name == "" then Skip
        else
          var (url, frag) := Cut(href, '#');
          var (k, v) := Cut(frag, '=');
          File(Entry(name, url, if k == "sha256" then v else ""))
  }

  // The tag the loop finds next and the text after it.
  function NextTag(s: string): (r: Option<(string, string)>)
    ensures r.Some? ==> |r.value.1| < |s|
  {
    var i := Index(s, "<a ");
    if i < 0 then None
    else
      var t := s[i..];
      var end := Index(t, "</a>");
      if end < 0 then None else Some((t[..end + 4], t[end + 4..]))
  }

  function Tags(s: string): seq<string>
    decreases |s|
  {
    match NextTag(s)
    case None => []
    case Some((tag, rest)) => [tag] + Tags(rest)
  }

  function ReadAll(lib: Lib, tags: seq<string>): Option<seq<Entry>> {
    if tags == [] then Some([]) else Then(ReadTag(lib, tags[0]), ReadAll(lib, tags[1..]))
  }

  function Then(r: Reading, more: Option<seq<Entry>>): Option<seq<Entry>> {
    match r
    case Panic => None
    case Skip => more
    case File(e) => if more.None? then None else Some([e] + more.value)
  }

  // The parser: the files of the page in order, or none if it panics.
  function Parse(lib: Lib, s: string): Option<seq<Entry>> {
    ReadAll(lib, Tags(s))
  }

  // ---- panics ----

  // The lower-cased tag has its first href= where the tag itself has run out.
  predicate Overruns(lib: Lib, tag: string) {
    var i := Index(lib.lower(tag), "href=");
    i >= 0 && i + 5 > |tag|
  }

  lemma ReadTagPanicsIff(lib: Lib, tag: string)
    ensures ReadTag(lib, tag).Panic? <==> Overruns(lib, tag)
  {
    assert "href" + "=" == "href=";
  }

  // The parser ends on every page, and panics exactly if some tag of it overruns.
  lemma PanicsIffATagOverruns(lib: Lib, s: string)
    ensures Parse(lib, s).None? <==> exists tag :: tag in Tags(s) && Overruns(lib, tag)
  {
    ReadAllPanicsIff(lib, Tags(s));
  }

  lemma {:induction false} ReadAllPanicsIff(lib: Lib, tags: seq<string>)
    ensures ReadAll(lib, tags).None? <==> exists tag :: tag in tags && Overruns(lib, tag)
  {
    if tags != [] {
      ReadTagPanicsIff(lib, tags[0]);
      ReadAllPanicsIff(lib, tags[1..]);
      assert tags == [tags[0]] + tags[1..];
    }
  }

  // Lower-casing that lengthens no tag never panics.
  lemma NoPanicIfLowerKeepsLength(lib: Lib, s: string)
    requires forall tag :: tag in Tags(s) ==> |lib.lower(tag)| <= |tag|
    ensures Parse(lib, s).Some?
  {
    PanicsIffATagOverruns(lib, s);
  }

  // ---- versions ----

  function TrimSuffix(s: string, suffix: string): string {
    if Ends(s, suffix) then s[..|s| - |suffix|] else s
  }

  function Split(s: string, c: char): seq<string> {
    var i := IndexByte(s, c);
    if i < 0 then [s] else [s[..i]] + Split(s[i + 1..], c)
  }

  predicate Digit(c: char) { '0' <= c <= '9' }

  // The first part that starts with a digit.
  function FirstNumbered(parts: seq<string>): string {
    if parts == [] then ""
    else if parts[0] != "" && Digit(parts[0][0]) then parts[0]
    else FirstNumbered(parts[1..])
  }

  function VersionFromFilename(filename: string): string {
    var low := TrimSuffix(TrimSuffix(TrimSuffix(filename, ".whl"), ".tar.gz"), ".zip");
    FirstNumbered(Split(low, '-')[1..])
  }

  // The versions of the files, each once, in the order of their first files.
  function Versions(files: seq<Entry>): seq<string> {
    if files == [] then []
    else
      var n := |files| - 1;
      var before, v := Versions(files[..n]), VersionFromFilename(files[n].filename);
      if v == "" || v in before then before else before + [v]
  }

  predicate Distinct(list: seq<string>) {
    forall i, j :: 0 <= i < j < |list| ==> list[i] != list[j]
  }

  lemma {:induction false} VersionsOnce(files: seq<Entry>)
    ensures Distinct(Versions(files))
  {
    if files != [] {
      VersionsOnce(files[..|files| - 1]);
    }
  }

  ghost predicate SomeHas(files: seq<Entry>, v: string) {
    exists e :: e in files && VersionFromFilename(e.filename) == v
  }

  lemma SomeOfOneMore(before: seq<Entry>, last: Entry, v: string)
    ensures SomeHas(before + [last], v) <==> SomeHas(before, v) || VersionFromFilename(last.filename) == v
  {
    assert last in before + [last];
    if SomeHas(before, v) {
      var e :| e in before && VersionFromFilename(e.filename) == v;
      assert e in before + [last];
    }
  }

  // Exactly the versions that files have.
  lemma {:induction false} VersionsAre(files: seq<Entry>, v: string)
    ensures v in Versions(files) <==> v != "" && SomeHas(files, v)
  {
    if files != [] {
      var before, last := files[..|files| - 1], files[|files| - 1];
      VersionsAre(before, v);
      assert files == before + [last];
      SomeOfOneMore(before, last, v);
    }
  }

  lemma {:induction false} SplitAt(s: string, c: char, t: string)
    requires c !in s
    ensures Split(s, c) == [s]
    ensures Split(s + ([c] + t), c) == [s] + Split(t, c)
  {
    var u := s + ([c] + t);
    assert u[..|s|] == s;
    ByteIs(u, c, |s|);
    assert u[|s| + 1..] == t;
  }

  predicate Ends(s: string, suffix: string) {
    |suffix| <= |s| && s[|s| - |suffix|..] == suffix
  }

  lemma TrimAdded(s: string, suffix: string)
    ensures TrimSuffix(s + suffix, suffix) == s
  {
    assert (s + suffix)[..|s|] == s && (s + suffix)[|s|..] == suffix;
  }

  // The parts with a dash between each two.
  function Dashed(parts: seq<string>): string
    requires parts != []
  {
    if |parts| == 1 then parts[0] else parts[0] + (['-'] + Dashed(parts[1..]))
  }

  predicate NoDashes(parts: seq<string>) {
    forall p :: p in parts ==> '-' !in p
  }

  lemma {:induction false} DashedSplits(parts: seq<string>)
    requires parts != [] && NoDashes(parts)
    ensures Split(Dashed(parts), '-') == parts
  {
    if |parts| == 1 {
      SplitAt(parts[0], '-', "");
    } else {
      DashedSplits(parts[1..]);
      SplitAt(parts[0], '-', Dashed(parts[1..]));
      assert parts == [parts[0]] + parts[1..];
    }
  }

  predicate Numbered(part: string) { part != "" && '0' <= part[0] <= '9' }

  // v is the first part after part 0 that starts with a digit, and empty if none does.
  ghost predicate IsFirstNumbered(v: string, parts: seq<string>) {
    if v == "" then forall i :: 1 <= i < |parts| ==> !Numbered(parts[i])
    else
      exists k :: 1 <= k < |parts| && parts[k] == v && Numbered(v) && forall i :: 1 <= i < k ==> !Numbered(parts[i])
  }

  lemma {:induction false} FirstNumberedIs(parts: seq<string>)
    requires parts != []
    ensures IsFirstNumbered(FirstNumbered(parts[1..]), parts)
  {
    if |parts| > 1 {
      var rest := parts[1..];
      if Numbered(rest[0]) {
        assert parts[1] == rest[0];
      } else {
        FirstNumberedIs(rest);
        assert forall i :: 1 <= i < |rest| ==> rest[i] == parts[i + 1];
        NumberedLater(parts, FirstNumbered(rest[1..]));
      }
    }
  }

  lemma NumberedLater(parts: seq<string>, v: string)
    requires |parts| > 1 && !Numbered(parts[1]) && IsFirstNumbered(v, parts[1..])
    ensures IsFirstNumbered(v, parts)
  {
    var rest := parts[1..];
    assert forall i :: 2 <= i < |parts| ==> parts[i] == rest[i - 1];
    if v != "" {
      var k :| 1 <= k < |rest| && rest[k] == v && Numbered(v) && forall i :: 1 <= i < k ==> !Numbered(rest[i]);
      assert parts[k + 1] == v;
    }
  }

  lemma SdistIsNoWheel(low: string)
    ensures !Ends(low + ".tar.gz", ".whl")
  {
    var s := low + ".tar.gz";
    assert s[|s| - 1] == 'z';
    if Ends(s, ".whl") {
      assert s[|s| - 4..][3] == s[|s| - 1];
    }
  }

  // A source distribution has as its version the first part of its name after the first that starts
  // with a digit: for name-version.tar.gz, as the format prescribes, the version.
  lemma SdistGivesItsVersion(parts: seq<string>)
    requires parts != [] && NoDashes(parts) && !Ends(Dashed(parts), ".zip")
    ensures IsFirstNumbered(VersionFromFilename(Dashed(parts) + ".tar.gz"), parts)
  {
    var low := Dashed(parts);
    SdistIsNoWheel(low);
    TrimAdded(low, ".tar.gz");
    DashedSplits(parts);
    FirstNumberedIs(parts);
  }

  // So does a wheel, name-version-tags.whl.
  lemma WheelGivesItsVersion(parts: seq<string>)
    requires parts != [] && NoDashes(parts)
    requires !Ends(Dashed(parts), ".tar.gz") && !Ends(Dashed(parts), ".zip")
    ensures IsFirstNumbered(VersionFromFilename(Dashed(parts) + ".whl"), parts)
  {
    TrimAdded(Dashed(parts), ".whl");
    DashedSplits(parts);
    FirstNumberedIs(parts);
  }

  // ---- the parser's loop ----

  function Prefixed(out: seq<Entry>, more: Option<seq<Entry>>): Option<seq<Entry>> {
    match more
    case None => None
    case Some(files) => Some(out + files)
  }

  lemma ThenPrefixed(out: seq<Entry>, r: Reading, more: Option<seq<Entry>>)
    ensures Prefixed(out, Then(r, more))
         == match r case Panic => None case Skip => Prefixed(out, more) case File(e) => Prefixed(out + [e], more)
  {
    if r.File? && more.Some? {
      assert out + [r.entry] + more.value == out + ([r.entry] + more.value);
    }
  }

  lemma ReadNext(lib: Lib, s: string)
    requires NextTag(s).Some?
    ensures Parse(lib, s) == Then(ReadTag(lib, NextTag(s).value.0), Parse(lib, NextTag(s).value.1))
  {
    var (tag, rest) := NextTag(s).value;
    assert ([tag] + Tags(rest))[1..] == Tags(rest);
  }

  lemma Advance(lib: Lib, out: seq<Entry>, s: string, tag: string, rest: string)
    requires NextTag(s) == Some((tag, rest))
    ensures Prefixed(out, Parse(lib, s))
         == match ReadTag(lib, tag)
            case Panic => None
            case Skip => Prefixed(out, Parse(lib, rest))
            case File(e) => Prefixed(out + [e], Parse(lib, rest))
  {
    ReadNext(lib, s);
    ThenPrefixed(out, ReadTag(lib, tag), Parse(lib, rest));
  }

  lemma NothingRead(more: Option<seq<Entry>>)
    ensures Prefixed([], more) == more
  {
    if more.Some? {
      assert [] + more.value == more.value;
    }
  }

  method ParseSimpleHTML(lib: Lib, body: string) returns (files: Option<seq<Entry>>, versions: seq<string>)
    ensures files == Parse(lib, body)
    ensures files.Some? ==> versions == Versions(files.value)
  {
    var s := body;
    var out: seq<Entry> := [];
    var seen := {};
    versions := [];
    NothingRead(Parse(lib, body));
    while true
      invariant Parse(lib, body) == Prefixed(out, Parse(lib, s))
      invariant versions == Versions(out) && forall v :: v in seen <==> v in versions
      decreases |s|
    {
      var i := Index(s, "<a ");
      if i < 0 {
        assert out + [] == out;
        return Some(out), versions;
      }
      var t := s[i..];
      var end := Index(t, "</a>");
      if end < 0 {
        assert out + [] == out;
        return Some(out), versions;
      }
      var tag, rest := t[..end + 4], t[end + 4..];
      Advance(lib, out, s, tag, rest);
      s := rest;
      match ReadTag(lib, tag)
      case Panic => return None, [];
      case Skip =>
      case File(e) =>
        assert (out + [e])[..|out|] == out;
        out := out + [e];
        var v := VersionFromFilename(e.filename);
        if v != "" && v !in seen {
          seen := seen + {v};
          versions := versions + [v];
        }
    }
  }

  // ---- the page ----

  const OPEN := "<a href=\""
  const CLOSE := "</a>"

  function Href(e: Entry): string {
    e.url + ("#sha256=" + e.sha256)
  }

  function Inner(e: Entry): string {
    Href(e) + ("\">" + e.filename)
  }

  function Row(e: Entry): string {
    OPEN + (Inner(e) + CLOSE)
  }

  function Rows(files: seq<Entry>, tail: string): string {
    if files == [] then tail else Row(files[0]) + ("\n" + Rows(files[1..], tail))
  }

  function Lines(pieces: seq<string>, tail: string): string {
    if pieces == [] then tail else pieces[0] + Lines(pieces[1..], tail)
  }

  // The text before the rows, cut at tags and attributes.
  function Head(name: string): seq<string> {
    ["<!DOCTYPE html>\n", "<html>", "<head>", "<meta", " name=\"pypi:repository-version\"", " content=\"1.0\">",
     "<title>Links for ", name, "</title>", "</head>\n", "<body>\n", "<h1>Links for ", name, "</h1>\n"]
  }

  // The template's page, for values it does not escape.
  function Render(name: string, files: seq<Entry>): string {
    Lines(Head(name), Rows(files, "</body></html>\n"))
  }

  // ---- reading a rendered page ----

  // No tag opens in this text, whatever follows it.
  predicate NoLink(text: string) {
    forall k :: 0 <= k < |text| && text[k] == '<' ==> k + 1 < |text| && text[k + 1] != 'a'
  }

  lemma AtBegins(s: string, sub: string, i: nat)
    requires At(s, sub, i) && |sub| >= 2
    ensures s[i] == sub[0] && s[i + 1] == sub[1]
  {
    assert s[i..i + |sub|][0] == s[i] && s[i..i + |sub|][1] == s[i + 1];
  }

  lemma SkipText(text: string, t: string)
    requires NoLink(text)
    ensures Tags(text + t) == Tags(t)
  {
    var s := text + t;
    forall k: nat
      ensures k < |text| ==> !At(s, "<a ", k)
      ensures k >= |text| ==> (At(s, "<a ", k) <==> At(t, "<a ", k - |text|))
    {
      if k < |text| && At(s, "<a ", k) {
        AtBegins(s, "<a ", k);
      }
      if k >= |text| && k + 3 <= |s| {
        assert s[k..k + 3] == t[k - |text|..k - |text| + 3];
      }
    }
    var i, j := Index(s, "<a "), Index(t, "<a ");
    if j >= 0 {
      assert At(s, "<a ", j + |text|);
      assert i == j + |text|;
      assert s[i..] == t[j..];
    } else {
      assert i < 0;
    }
  }

  lemma OpensOnce(inner: string, t: string, k: nat)
    requires '<' !in inner && k < |OPEN + inner|
    ensures var s := OPEN + (inner + CLOSE) + t; k + 1 < |s| && (s[k] == '<' ==> s[k + 1] == 'a')
  {
    var s := OPEN + (inner + CLOSE) + t;
    if k >= 9 {
      assert s[k] == inner[k - 9];
    } else {
      assert s[k] == OPEN[k];
    }
  }

  // The first tag of a page that begins with one.
  lemma FirstTag(inner: string, t: string)
    requires '<' !in inner
    ensures NextTag(OPEN + (inner + CLOSE) + t) == Some((OPEN + (inner + CLOSE), t))
  {
    var tag := OPEN + (inner + CLOSE);
    var s, n := tag + t, |tag| - 4;
    assert s[0..3] == "<a ";
    assert At(s, "<a ", 0);
    assert s[0..] == s;
    assert s[n..n + 4] == CLOSE;
    forall k: nat | k < n
      ensures !At(s, CLOSE, k)
    {
      if At(s, CLOSE, k) {
        AtBegins(s, CLOSE, k);
        OpensOnce(inner, t, k);
      }
    }
    assert At(s, CLOSE, n);
    IndexIs(s, CLOSE, n);
    assert NextTag(s) == Some((s[..n + 4], s[n + 4..]));
    assert s[..n + 4] == tag && s[n + 4..] == t;
  }

  lemma {:induction false} ByteIs(s: string, c: char, i: nat)
    requires i < |s| && s[i] == c && c !in s[..i]
    ensures IndexByte(s, c) == i
  {
    if i > 0 {
      assert s[0] == s[..i][0] && s[1..][..i - 1] == s[..i][1..];
      ByteIs(s[1..], c, i - 1);
    }
  }

  // Bytes the template copies unchanged: in text, in a relative URL and in a fragment.
  predicate TextByte(c: char) { c !in {'\0', '"', '&', '\'', '+', '<', '>'} }

  predicate Alphanumeric(c: char) { '0' <= c <= '9' || 'A' <= c <= 'Z' || 'a' <= c <= 'z' }

  predicate UrlByte(c: char) {
    Alphanumeric(c) || c in {'!', '$', '*', ',', '-', '.', '/', ';', '=', '?', '@', '[', ']', '_', '~'}
  }

  predicate FragmentByte(c: char) { Alphanumeric(c) || c in {'-', '.', '_', '~'} }

  predicate Unescaped(e: Entry) {
    && (forall c :: c in e.filename ==> TextByte(c))
    && (forall c :: c in e.url ==> UrlByte(c))
    && (forall c :: c in e.sha256 ==> FragmentByte(c))
  }

  // Lower-casing leaves an opening in lower case alone.
  ghost predicate KeepsOpening(lib: Lib) {
    forall t :: lib.lower(OPEN + t) == OPEN + lib.lower(t)
  }

  lemma HrefBytes(e: Entry)
    requires Unescaped(e)
    ensures '"' !in Href(e) && '<' !in Href(e) && '>' !in Href(e) && '#' !in e.url && '<' !in Inner(e)
  {
    forall c | c in Href(e)
      ensures c !in {'"', '<', '>'}
    {
      if c !in e.url && c !in e.sha256 {
        assert c in "#sha256=";
      }
    }
  }

  lemma HrefIsRead(lib: Lib, e: Entry)
    requires Unescaped(e) && KeepsOpening(lib)
    ensures AttrValue(lib, Row(e), "href") == Some(Href(e))
  {
    HrefBytes(e);
    var tag, href := Row(e), Href(e);
    var lower := lib.lower(tag);
    assert lower == OPEN + lib.lower(Inner(e) + CLOSE);
    assert "href" + "=" == "href=";
    assert lower[3..8] == "href=";
    assert At(lower, "href=", 3);
    forall k: nat | k < 3
      ensures !At(lower, "href=", k)
    {
      if At(lower, "href=", k) {
        AtBegins(lower, "href=", k);
      }
    }
    IndexIs(lower, "href=", 3);
    var rest := tag[8..];
    assert rest[0] == '"' && rest[1..] == Inner(e) + CLOSE;
    assert rest[1..][..|href|] == href;
    ByteIs(rest[1..], '"', |href|);
    assert rest[1..1 + |href|] == href;
  }

  lemma NameIsFound(e: Entry)
    requires Unescaped(e)
    ensures var gt := |OPEN| + |Href(e)| + 1;
      IndexByte(Row(e), '>') == gt && gt + 1 <= |Row(e)| - 4 && Row(e)[gt + 1..|Row(e)| - 4] == e.filename
  {
    HrefBytes(e);
    var tag, gt := Row(e), |OPEN| + |Href(e)| + 1;
    assert tag[..gt] == OPEN + Href(e) + "\"";
    assert tag[gt] == '>';
    ByteIs(tag, '>', gt);
    assert tag[gt + 1..] == e.filename + CLOSE;
  }

  lemma HrefIsCut(e: Entry)
    requires Unescaped(e)
    ensures Cut(Href(e), '#') == (e.url, "sha256=" + e.sha256)
    ensures Cut("sha256=" + e.sha256, '=') == ("sha256", e.sha256)
  {
    HrefBytes(e);
    var href, frag := Href(e), "sha256=" + e.sha256;
    assert href == e.url + ("#" + frag);
    assert href[..|e.url|] == e.url;
    ByteIs(href, '#', |e.url|);
    assert href[|e.url| + 1..] == frag;
    assert frag[..6] == "sha256";
    ByteIs(frag, '=', 6);
    assert frag[7..] == e.sha256;
  }

  // What a row reads back as: its entry with the name trimmed, or nothing if no name is left.
  function Readable(lib: Lib, e: Entry): Reading {
    if e.filename == "" || lib.trim(e.filename) == "" then Skip else File(e.(filename := lib.trim(e.filename)))
  }

  lemma RowIsRead(lib: Lib, e: Entry)
    requires Unescaped(e) && KeepsOpening(lib)
    ensures ReadTag(lib, Row(e)) == Readable(lib, e)
  {
    HrefIsRead(lib, e);
    NameIsFound(e);
    HrefIsCut(e);
  }

  // ---- reading any tag ----

  // What follows the # of a link, if there is one: a word, or a name and a value.
  datatype Fragment = NoFragment | Word(word: string) | Valued(name: string, value: string)

  function Link(url: string, f: Fragment): string {
    match f
    case NoFragment => url
    case Word(word) => url + (['#'] + word)
    case Valued(name, value) => url + (['#'] + (name + (['='] + value)))
  }

  predicate Parses(url: string, f: Fragment) {
    '#' !in url && (f.Word? ==> '=' !in f.word) && (f.Valued? ==> '=' !in f.name)
  }

  lemma CutAt(a: string, c: char, b: string)
    requires c !in a
    ensures Cut(a + ([c] + b), c) == (a, b) && Cut(a, c) == (a, "")
  {
    var s := a + ([c] + b);
    assert s[..|a|] == a && s[|a| + 1..] == b;
    ByteIs(s, c, |a|);
  }

  lemma LinkIsCut(url: string, f: Fragment)
    requires Parses(url, f)
    ensures var (u, frag) := Cut(Link(url, f), '#');
      && u == url
      && Cut(frag, '=') == match f
                           case NoFragment => ("", "")
                           case Word(word) => (word, "")
                           case Valued(name, value) => (name, value)
  {
    match f
    case NoFragment =>
      CutAt(url, '#', "");
    case Word(word) =>
      CutAt(url, '#', word);
      CutAt(word, '=', "");
    case Valued(name, value) =>
      CutAt(url, '#', name + (['='] + value));
      CutAt(name, '=', value);
  }

  // The first href= of the lower-cased tag is at h.
  ghost predicate HrefAt(lib: Lib, tag: string, h: nat) {
    At(lib.lower(tag), "href=", h) && forall k: nat :: k < h ==> !At(lib.lower(tag), "href=", k)
  }

  // A tag without a value for href, quoted either way, is skipped.
  lemma NoLinkIsSkipped(lib: Lib, tag: string, h: nat)
    requires if HrefAt(lib, tag, h)
      then h + 5 <= |tag| && (h + 5 < |tag| && tag[h + 5] in {'"', '\''} ==> tag[h + 5] !in tag[h + 6..])
      else forall k: nat :: !At(lib.lower(tag), "href=", k)
    ensures ReadTag(lib, tag) == Skip
  {
    assert "href" + "=" == "href=";
    if HrefAt(lib, tag, h) {
      IndexIs(lib.lower(tag), "href=", h);
      assert h + 5 < |tag| ==> tag[h + 5..][1..] == tag[h + 6..];
    }
  }

  lemma QuotedIsRead(lib: Lib, tag: string, h: nat, href: string)
    requires HrefAt(lib, tag, h) && h + 5 < |tag| && tag[h + 5] in {'"', '\''}
    requires At(tag, href + [tag[h + 5]], h + 6) && tag[h + 5] !in href
    ensures AttrValue(lib, tag, "href") == Some(href)
  {
    assert "href" + "=" == "href=";
    IndexIs(lib.lower(tag), "href=", h);
    var rest, n := tag[h + 6..], |href|;
    assert rest[..n + 1] == href + [tag[h + 5]];
    assert rest[n] == rest[..n + 1][n] && rest[..n] == rest[..n + 1][..n];
    ByteIs(rest, tag[h + 5], n);
    assert tag[h + 5..][1..] == rest && tag[h + 5..][1..1 + n] == rest[..n];
  }

  // Any other tag is the file of its link and of the text behind its first >, trimmed, or skipped if
  // either is empty. Only a fragment named sha256 counts.
  lemma TagIsRead(lib: Lib, tag: string, h: nat, url: string, f: Fragment, gt: nat)
    requires HrefAt(lib, tag, h) && h + 5 < |tag| && tag[h + 5] in {'"', '\''}
    requires At(tag, Link(url, f) + [tag[h + 5]], h + 6) && tag[h + 5] !in Link(url, f)
    requires gt < |tag| && tag[gt] == '>' && '>' !in tag[..gt] && Parses(url, f)
    ensures var name := if gt + 5 < |tag| then lib.trim(tag[gt + 1..|tag| - 4]) else "";
      ReadTag(lib, tag)
      == if Link(url, f) == "" || name == "" then Skip
         else File(Entry(name, url, if f.Valued? && f.name == "sha256" then f.value else ""))
  {
    QuotedIsRead(lib, tag, h, Link(url, f));
    LinkedIsRead(lib, tag, url, f, gt);
  }

  lemma LinkedIsRead(lib: Lib, tag: string, url: string, f: Fragment, gt: nat)
    requires AttrValue(lib, tag, "href") == Some(Link(url, f)) && Parses(url, f)
    requires gt < |tag| && tag[gt] == '>' && '>' !in tag[..gt]
    ensures var name := if gt + 5 < |tag| then lib.trim(tag[gt + 1..|tag| - 4]) else "";
      ReadTag(lib, tag)
      == if Link(url, f) == "" || name == "" then Skip
         else File(Entry(name, url, if f.Valued? && f.name == "sha256" then f.value else ""))
  {
    ByteIs(tag, '>', gt);
    LinkIsCut(url, f);
  }

  lemma AtSuffix(s: string, sub: string, i: nat, l: nat)
    requires i <= l && i <= |s|
    ensures At(s, sub, l) <==> At(s[i..], sub, l - i)
  {
    if l + |sub| <= |s| {
      assert s[l..l + |sub|] == s[i..][l - i..l - i + |sub|];
    }
  }

  // The loop takes the first "<a " up to the next "</a>".
  lemma NextTagIs(s: string) returns (i: nat, j: nat)
    requires NextTag(s).Some?
    ensures i <= j && At(s, "<a ", i) && At(s, "</a>", j) && NextTag(s) == Some((s[i..j + 4], s[j + 4..]))
    ensures forall k: nat :: k < i ==> !At(s, "<a ", k)
    ensures forall l: nat :: i <= l < j ==> !At(s, "</a>", l)
  {
    i := Index(s, "<a ");
    var end: nat := Index(s[i..], "</a>");
    j := i + end;
    AtSuffix(s, "</a>", i, j);
    assert s[i..][..end + 4] == s[i..j + 4];
    assert s[i..][end + 4..] == s[j + 4..];
    forall l: nat | i <= l < j
      ensures !At(s, "</a>", l)
    {
      AtSuffix(s, "</a>", i, l);
    }
  }

  // It stops when no "<a " has a "</a>" behind it.
  lemma NoTagIsLeft(s: string, k: nat, l: nat)
    requires NextTag(s).None? && k <= l && At(s, "<a ", k)
    ensures !At(s, "</a>", l)
  {
    var i: nat := Index(s, "<a ");
    AtSuffix(s, "</a>", i, l);
  }

  // ---- the round trip ----

  lemma {:induction false} LinesHaveNoTags(pieces: seq<string>, tail: string)
    requires forall p :: p in pieces ==> NoLink(p)
    ensures Tags(Lines(pieces, tail)) == Tags(tail)
  {
    if pieces != [] {
      SkipText(pieces[0], Lines(pieces[1..], tail));
      LinesHaveNoTags(pieces[1..], tail);
    }
  }

  function RowsOf(files: seq<Entry>): seq<string> {
    if files == [] then [] else [Row(files[0])] + RowsOf(files[1..])
  }

  lemma {:induction false} TagsAreRows(files: seq<Entry>, tail: string)
    requires forall e :: e in files ==> Unescaped(e)
    requires Tags(tail) == []
    ensures Tags(Rows(files, tail)) == RowsOf(files)
  {
    if files != [] {
      var e, more := files[0], Rows(files[1..], tail);
      HrefBytes(e);
      FirstTag(Inner(e), "\n" + more);
      SkipText("\n", more);
      TagsAreRows(files[1..], tail);
    }
  }

  // What a list reads back as: names trimmed, and files without a name dropped.
  function Survivors(lib: Lib, files: seq<Entry>): seq<Entry> {
    if files == [] then []
    else
      var r := Readable(lib, files[0]);
      if r.File? then [r.entry] + Survivors(lib, files[1..]) else Survivors(lib, files[1..])
  }

  lemma {:induction false} RowsAreRead(lib: Lib, files: seq<Entry>)
    requires forall e :: e in files ==> Unescaped(e)
    requires KeepsOpening(lib)
    ensures ReadAll(lib, RowsOf(files)) == Some(Survivors(lib, files))
  {
    if files != [] {
      RowIsRead(lib, files[0]);
      RowsAreRead(lib, files[1..]);
      assert RowsOf(files)[1..] == RowsOf(files[1..]);
    }
  }

  predicate Named(lib: Lib, e: Entry) {
    lib.trim(e.filename) == e.filename != ""
  }

  lemma {:induction false} SurvivorsAreAllIff(lib: Lib, files: seq<Entry>)
    ensures |Survivors(lib, files)| <= |files|
    ensures Survivors(lib, files) == files <==> forall e :: e in files ==> Named(lib, e)
  {
    if files != [] {
      SurvivorsAreAllIff(lib, files[1..]);
      assert files == [files[0]] + files[1..];
      if Readable(lib, files[0]).File? {
        assert Survivors(lib, files)[1..] == Survivors(lib, files[1..]);
        assert Readable(lib, files[0]).entry == files[0] <==> Named(lib, files[0]);
      } else {
        assert files[0] in files && !Named(lib, files[0]);
      }
    }
  }

  lemma HeadHasNoTags(name: string)
    requires '<' !in name
    ensures forall p :: p in Head(name) ==> NoLink(p)
  {
    assert NoLink("<!DOCTYPE html>\n") && NoLink("<html>") && NoLink("<head>");
    assert NoLink("<meta") && NoLink(" name=\"pypi:repository-version\"") && NoLink(" content=\"1.0\">");
    assert NoLink("<title>Links for ") && NoLink("</title>") && NoLink("</head>\n") && NoLink("<body>\n");
    assert NoLink("<h1>Links for ") && NoLink("</h1>\n");
    assert NoLink(name);
  }

  // Parsing a page of rows, between text without tags, gives the files in order with their URLs and
  // sha256 values, each under its trimmed name and without those that have no name; so it gives back
  // the very list exactly if every name is trimmed and there.
  lemma RowsReadBack(lib: Lib, head: seq<string>, files: seq<Entry>, tail: string)
    requires KeepsOpening(lib)
    requires (forall p :: p in head ==> NoLink(p)) && Tags(tail) == []
    requires forall e :: e in files ==> Unescaped(e)
    ensures Parse(lib, Lines(head, Rows(files, tail))) == Some(Survivors(lib, files))
    ensures Parse(lib, Lines(head, Rows(files, tail))) == Some(files) <==> forall e :: e in files ==> Named(lib, e)
  {
    LinesHaveNoTags(head, Rows(files, tail));
    TagsAreRows(files, tail);
    RowsAreRead(lib, files);
    SurvivorsAreAllIff(lib, files);
  }

  // The round trip for the template's own page.
  lemma PageReadsBack(lib: Lib, name: string, files: seq<Entry>)
    requires KeepsOpening(lib) && '<' !in name
    requires forall e :: e in files ==> Unescaped(e)
    ensures Parse(lib, Render(name, files)) == Some(Survivors(lib, files))
    ensures Parse(lib, Render(name, files)) == Some(files) <==> forall e :: e in files ==> Named(lib, e)
  {
    HeadHasNoTags(name);
    assert NoLink("</body></html>\n") && "</body></html>\n" + "" == "</body></html>\n";
    SkipText("</body></html>\n", "");
    RowsReadBack(lib, Head(name), files, "</body></html>\n");
  }

  // ---- a page that panics ----

  // strings.ToLower on the letter A with stroke, two bytes, whose lower case takes three bytes. Other
  // bytes are in lower case already.
  function ToLower(s: string): string {
    if s == "" then ""
    else if |s| >= 2 && s[0] == WIDE[0] && s[1] == WIDE[1] then WIDE_LOWER + ToLower(s[2..])
    else [s[0]] + ToLower(s[1..])
  }

  const WIDE := ['\U{C8}', '\U{BA}']
  const WIDE_LOWER := ['\U{E2}', '\U{B1}', '\U{A5}']

  function Repeat(s: string, n: nat): string {
    if n == 0 then "" else s + Repeat(s, n - 1)
  }

  lemma {:induction false} RepeatHas(s: string, n: nat, c: char)
    requires c !in s
    ensures c !in Repeat(s, n) && |Repeat(s, n)| == n * |s|
  {
    if n > 0 {
      RepeatHas(s, n - 1, c);
    }
  }

  lemma ToLowerNext(c: char, t: string)
    ensures ToLower(WIDE + t) == WIDE_LOWER + ToLower(t)
    ensures c != WIDE[0] ==> ToLower([c] + t) == [c] + ToLower(t)
  {
    assert (WIDE + t)[2..] == t && ([c] + t)[1..] == t;
  }

  lemma {:induction false} ToLowerWide(n: nat, t: string)
    ensures ToLower(Repeat(WIDE, n) + t) == Repeat(WIDE_LOWER, n) + ToLower(t)
  {
    if n == 0 {
      assert Repeat(WIDE, n) + t == t;
    } else {
      var more := Repeat(WIDE, n - 1) + t;
      Regroup(WIDE, Repeat(WIDE, n - 1), t);
      ToLowerNext('a', more);
      ToLowerWide(n - 1, t);
      Regroup(WIDE_LOWER, Repeat(WIDE_LOWER, n - 1), ToLower(t));
    }
  }

  lemma Regroup(a: string, b: string, c: string)
    ensures a + (b + c) == (a + b) + c
  {
  }

  lemma {:induction false} ToLowerPlain(s: string, t: string)
    requires WIDE[0] !in s
    ensures ToLower(s + t) == s + ToLower(t)
  {
    if s == "" {
      assert s + t == t;
    } else {
      assert s + t == [s[0]] + (s[1..] + t);
      ToLowerNext(s[0], s[1..] + t);
      ToLowerPlain(s[1..], t);
      Regroup([s[0]], s[1..], ToLower(t));
      assert [s[0]] + s[1..] == s;
    }
  }

  // A tag with nothing but this text before an href= without a value.
  function Bare(text: string): string {
    "<a " + (text + ("href=" + CLOSE))
  }

  lemma BareTag(text: string)
    requires '<' !in text
    ensures Tags(Bare(text)) == [Bare(text)]
  {
    var s := Bare(text);
    var n := |s| - 4;
    assert s[0..3] == "<a ";
    assert At(s, "<a ", 0) && s[0..] == s;
    IndexIs(s, "<a ", 0);
    assert s[n..n + 4] == CLOSE;
    forall k: nat | k < n
      ensures !At(s, CLOSE, k)
    {
      if At(s, CLOSE, k) {
        AtBegins(s, CLOSE, k);
        BareOpensOnce(text, k);
      }
    }
    IndexIs(s, CLOSE, n);
    assert s[..n + 4] == s && s[n + 4..] == "";
    assert Tags("") == [];
  }

  lemma BareOpensOnce(text: string, k: nat)
    requires '<' !in text && k < |text| + 8
    ensures Bare(text)[k] == '<' ==> Bare(text)[k + 1] == 'a'
  {
    var s := Bare(text);
    if k >= 3 + |text| {
      assert s[k] == "href="[k - 3 - |text|];
    } else if k >= 3 {
      assert s[k] == text[k - 3];
    }
  }

  lemma BareHref(text: string)
    requires 'h' !in text
    ensures Index(Bare(text), "href=") == 3 + |text|
  {
    var s, n := Bare(text), 3 + |text|;
    assert s[n..n + 5] == "href=";
    assert At(s, "href=", n);
    forall k: nat | k < n
      ensures !At(s, "href=", k)
    {
      assert k >= 3 ==> s[k] == text[k - 3];
      if At(s, "href=", k) {
        AtBegins(s, "href=", k);
      }
    }
    IndexIs(s, "href=", n);
  }

  lemma LowerBare(n: nat)
    ensures ToLower(Bare(Repeat(WIDE, n))) == Bare(Repeat(WIDE_LOWER, n))
  {
    var rest := "href=" + CLOSE;
    ToLowerPlain("<a ", Repeat(WIDE, n) + rest);
    ToLowerWide(n, rest);
    ToLowerPlain(rest, "");
    assert rest + "" == rest && ToLower("") == "";
  }

  // A page whose only tag has n such letters before its href= makes the parser panic if and only if
  // n is more than four.
  lemma AWidePagePanicsIff(n: nat, trim: string -> string)
    ensures Parse(Lib(ToLower, trim), Bare(Repeat(WIDE, n))).None? <==> n > 4
  {
    var lib, tag := Lib(ToLower, trim), Bare(Repeat(WIDE, n));
    RepeatHas(WIDE, n, '<');
    RepeatHas(WIDE_LOWER, n, 'h');
    LowerBare(n);
    BareTag(Repeat(WIDE, n));
    BareHref(Repeat(WIDE_LOWER, n));
    assert Overruns(lib, tag) <==> n > 4;
    PanicsIffATagOverruns(lib, tag);
  }
}
