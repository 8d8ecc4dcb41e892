/** The three string functions of the HTTP proxy (src/app/http_proxy_handler.cpp). They search the
    raw bytes for the first "Host: " and for spaces; nothing here knows about HTTP beyond that. */
module HttpText {
  import opened Wrappers

  const HOST := "Host: "
  const CRLF := "\r\n"

  /** `pat` stands in `s` at offset `i`. */
  predicate At(s: string, pat: string, i: nat) {
    i + |pat| <= |s| && s[i..i + |pat|] == pat
  }

  /** std::string::find; None is npos. */
  function Find(s: string, pat: string, from: nat): (r: Option<nat>)
    ensures r.Some? ==> from <= r.value && r.value + |pat| <= |s|
    decreases |s| - from
  {
    if from + |pat| > |s| then None
    else if At(s, pat, from) then Some(from)
    else Find(s, pat, from + 1)
  }

  /** The first match, and none at all when there is none. */
  lemma {:induction false} FindFirst(s: string, pat: string, from: nat)
    ensures Find(s, pat, from).Some? ==> At(s, pat, Find(s, pat, from).value)
    ensures Find(s, pat, from).Some? ==> forall i :: from <= i < Find(s, pat, from).value ==> !At(s, pat, i)
    ensures Find(s, pat, from).None? ==> forall i :: from <= i ==> !At(s, pat, i)
    decreases |s| - from
  {
    if from + |pat| <= |s| && !At(s, pat, from) {
      FindFirst(s, pat, from + 1);
    }
  }

  function ParseHeader(req: string, key: string): string {
    LineAfter(req, key + ": ")
  }

  /** The text from the first `pat` to the end of its line. */
  function LineAfter(req: string, pat: string): string {
    match Find(req, pat, 0)
    case None => ""
    case Some(pos) =>
      var start := pos + |pat|;
      match Find(req, CRLF, start)
      case None => ""
      case Some(end) => req[start..end]
  }

  function ParsePath(req: string): string {
    match Find(req, " ", 0)
    case None => ""
    case Some(first) =>
      match Find(req, " ", first + 1)
      case None => ""
      case Some(second) => req[first + 1..second]
  }

  function ModifyRequest(req: string, addr: string): string {
    match Find(req, HOST, 0)
    case None => req
    case Some(pos) =>
      match Find(req, CRLF, pos)
      case None => req
      case Some(eol) => req[..pos] + HOST + addr + CRLF + req[eol + 2..]
  }

  // ---- Searching a stream that is still arriving ----

  lemma FoundAt(s: string, pat: string, from: nat, k: nat)
    requires from <= k && At(s, pat, k)
    requires forall i :: from <= i < k ==> !At(s, pat, i)
    ensures Find(s, pat, from) == Some(k)
  {
    FindFirst(s, pat, from);
  }

  lemma FoundNowhere(s: string, pat: string, from: nat)
    requires forall i :: from <= i ==> !At(s, pat, i)
    ensures Find(s, pat, from).None?
  {
    FindFirst(s, pat, from);
  }

  lemma FoundBy(s: string, pat: string, from: nat, k: nat)
    requires from <= k && At(s, pat, k)
    ensures Find(s, pat, from).Some? && Find(s, pat, from).value <= k
  {
    FindFirst(s, pat, from);
  }

  lemma BreakAt(s: string, i: nat)
    ensures At(s, CRLF, i) <==> i + 1 < |s| && s[i] == '\r' && s[i + 1] == '\n'
  {
    if i + 2 <= |s| {
      assert s[i..i + 2] == [s[i], s[i + 1]];
    }
  }

  lemma AtPrefix(s: string, more: string, pat: string, i: nat)
    requires i + |pat| <= |s|
    ensures At(s + more, pat, i) <==> At(s, pat, i)
  {
    assert (s + more)[i..i + |pat|] == s[i..i + |pat|];
  }

  /** A match found in a prefix is the match found in every extension. */
  lemma FindStable(s: string, more: string, pat: string, from: nat)
    requires Find(s, pat, from).Some?
    ensures Find(s + more, pat, from) == Find(s, pat, from)
  {
    FindFirst(s, pat, from);
    var k := Find(s, pat, from).value;
    forall i | from <= i <= k
      ensures At(s + more, pat, i) <==> At(s, pat, i)
    {
      AtPrefix(s, more, pat, i);
    }
    FoundAt(s + more, pat, from, k);
  }

  lemma SliceStable(s: string, more: string, i: nat, j: nat)
    requires i <= j <= |s|
    ensures (s + more)[i..j] == s[i..j] && (s + more)[..j] == s[..j]
  {}

  lemma RestGrows(s: string, more: string, i: nat)
    requires i <= |s|
    ensures (s + more)[i..] == s[i..] + more
  {}

  lemma LineStable(req: string, more: string, pat: string)
    requires LineAfter(req, pat) != ""
    ensures LineAfter(req + more, pat) == LineAfter(req, pat)
  {
    var start := Find(req, pat, 0).value + |pat|;
    FindStable(req, more, pat, 0);
    FindStable(req, more, CRLF, start);
    var end := Find(req, CRLF, start).value;
    SliceStable(req, more, start, end);
  }

  /** Once a header is read from the bytes so far, later bytes do not change it. */
  lemma HeaderStable(req: string, more: string, key: string)
    requires ParseHeader(req, key) != ""
    ensures ParseHeader(req + more, key) == ParseHeader(req, key)
  {
    LineStable(req, more, key + ": ");
  }

  /** Once a path is read from the bytes so far, later bytes do not change it. */
  lemma PathStable(req: string, more: string)
    requires ParsePath(req) != ""
    ensures ParsePath(req + more) == ParsePath(req)
  {
    var first := Find(req, " ", 0).value;
    FindStable(req, more, " ", 0);
    var second := Find(req, " ", first + 1).value;
    FindStable(req, more, " ", first + 1);
    SliceStable(req, more, first + 1, second);
  }

  // ---- What a path is ----

  lemma SpaceAt(s: string, i: nat)
    ensures At(s, " ", i) <==> i < |s| && s[i] == ' '
  {
    if i < |s| {
      assert s[i..i + 1] == [s[i]];
    }
  }

  /** The second word of a request. */
  lemma PathIsSecondWord(method': string, path: string, rest: string)
    requires ' ' !in method' && ' ' !in path
    ensures ParsePath(method' + " " + path + " " + rest) == path
  {
    var req := method' + " " + path + " " + rest;
    WordsAt(method', path, rest, req);
    BetweenSpaces(req, |method'|, |method'| + 1 + |path|);
  }

  lemma BetweenSpaces(s: string, m: nat, n: nat)
    requires m < n < |s| && s[m] == ' ' && s[n] == ' '
    requires forall i :: 0 <= i < n && i != m ==> s[i] != ' '
    ensures ParsePath(s) == s[m + 1..n]
  {
    forall i: nat
      ensures At(s, " ", i) <==> i < |s| && s[i] == ' '
    {
      SpaceAt(s, i);
    }
    FoundAt(s, " ", 0, m);
    FoundAt(s, " ", m + 1, n);
  }

  lemma WordsAt(a: string, b: string, c: string, s: string)
    requires s == a + " " + b + " " + c && ' ' !in a && ' ' !in b
    ensures var m, n := |a|, |a| + 1 + |b|;
      && n < |s| && s[m] == ' ' && s[n] == ' ' && s[m + 1..n] == b
      && forall i :: 0 <= i < n && i != m ==> s[i] != ' '
  {
    var m := |a|;
    forall i | 0 <= i < m
      ensures s[i] == a[i] && a[i] in a
    {
    }
    forall i | m < i < m + 1 + |b|
      ensures s[i] == b[i - m - 1] && b[i - m - 1] in b
    {
    }
  }

  /** Every request with two spaces has that shape. */
  lemma SplitAtSpaces(req: string, j: nat, k: nat) returns (method': string, path: string, rest: string)
    requires j < k < |req| && req[j] == ' ' && req[k] == ' '
    ensures req == method' + " " + path + " " + rest && ' ' !in method' && ' ' !in path
  {
    forall i: nat
      ensures At(req, " ", i) <==> i < |req| && req[i] == ' '
    {
      SpaceAt(req, i);
    }
    FindFirst(req, " ", 0);
    var m := Find(req, " ", 0).value;
    FindFirst(req, " ", m + 1);
    var n := Find(req, " ", m + 1).value;
    method', path, rest := req[..m], req[m + 1..n], req[n + 1..];
    WordsJoin(req, m, n);
    forall i | 0 <= i < m
      ensures method'[i] != ' '
    {
      assert !At(req, " ", i);
    }
    forall i | 0 <= i < |path|
      ensures path[i] != ' '
    {
      assert !At(req, " ", m + 1 + i);
    }
  }

  lemma WordsJoin(s: string, m: nat, n: nat)
    requires m < n < |s| && s[m] == ' ' && s[n] == ' '
    ensures s == s[..m] + " " + s[m + 1..n] + " " + s[n + 1..]
  {}

  /** With fewer there is no path yet. */
  lemma NoPathYet(req: string)
    requires forall j, k :: 0 <= j < k < |req| ==> req[j] != ' ' || req[k] != ' '
    ensures ParsePath(req) == ""
  {
    forall i: nat
      ensures At(req, " ", i) <==> i < |req| && req[i] == ' '
    {
      SpaceAt(req, i);
    }
    FindFirst(req, " ", 0);
    if Find(req, " ", 0).Some? {
      FindFirst(req, " ", Find(req, " ", 0).value + 1);
    }
  }

  /** The first "Host: " and the end of its line have both arrived. */
  predicate HostLineComplete(req: string) {
    match Find(req, HOST, 0)
    case None => false
    case Some(pos) => Find(req, CRLF, pos).Some?
  }

  lemma NoBreakInHost(req: string, pos: nat)
    requires At(req, HOST, pos)
    ensures Find(req, CRLF, pos) == Find(req, CRLF, pos + 6)
  {
    forall i | pos <= i < pos + 6
      ensures !At(req, CRLF, i)
    {
      assert req[i] == HOST[i - pos];
      BreakAt(req, i);
    }
    FindFirst(req, CRLF, pos + 6);
    var later := Find(req, CRLF, pos + 6);
    if later.Some? {
      FoundAt(req, CRLF, pos, later.value);
    } else {
      FoundNowhere(req, CRLF, pos);
    }
  }

  /** Without a complete host line nothing is rewritten. */
  lemma NothingToRewrite(req: string, addr: string)
    requires forall i, j :: At(req, HOST, i) && i <= j ==> !At(req, CRLF, j)
    ensures ModifyRequest(req, addr) == req && !HostLineComplete(req)
  {
    FindFirst(req, HOST, 0);
    if Find(req, HOST, 0).Some? {
      FindFirst(req, CRLF, Find(req, HOST, 0).value);
    }
  }

  /** The guard of the proxy's first phase is enough to start rewriting. */
  lemma HostParsedMeansComplete(req: string)
    requires ParseHeader(req, "Host") != ""
    ensures HostLineComplete(req)
  {
    assert "Host" + ": " == HOST;
    FindFirst(req, HOST, 0);
    NoBreakInHost(req, Find(req, HOST, 0).value);
  }

  lemma RewrittenAt(req: string, addr: string, pos: nat, eol: nat)
    requires Find(req, HOST, 0) == Some(pos) && Find(req, CRLF, pos) == Some(eol)
    ensures ModifyRequest(req, addr) == req[..pos] + HOST + addr + CRLF + req[eol + 2..]
  {}

  /** Rewriting what has arrived and forwarding the rest as it is equals rewriting the whole stream. */
  lemma RewriteThenForward(req: string, more: string, addr: string)
    requires HostLineComplete(req)
    ensures ModifyRequest(req + more, addr) == ModifyRequest(req, addr) + more
  {
    var pos := Find(req, HOST, 0).value;
    var eol := Find(req, CRLF, pos).value;
    FindStable(req, more, HOST, 0);
    FindStable(req, more, CRLF, pos);
    RewrittenAt(req, addr, pos, eol);
    RewrittenAt(req + more, addr, pos, eol);
    PiecesGrow(req, more, HOST + addr + CRLF, pos, eol + 2);
    assert req[..pos] + HOST + addr + CRLF == req[..pos] + (HOST + addr + CRLF);
  }

  lemma PiecesGrow(req: string, more: string, line: string, i: nat, j: nat)
    requires i <= |req| && j <= |req|
    ensures (req + more)[..i] == req[..i]
    ensures (req + more)[..i] + line + (req + more)[j..] == req[..i] + line + req[j..] + more
  {
    SliceStable(req, more, 0, i);
    RestGrows(req, more, j);
    Regroup(req[..i] + line, req[j..], more);
  }

  lemma Regroup(a: string, b: string, c: string)
    ensures a + (b + c) == a + b + c
  {}

  /** Before the line is complete, some continuation makes the two differ. */
  lemma RewriteTooEarly(req: string) returns (more: string, addr: string)
    requires !HostLineComplete(req)
    ensures ModifyRequest(req + more, addr) != ModifyRequest(req, addr) + more
  {
    var found := Find(req, HOST, 0);
    FindFirst(req, HOST, 0);
    more := if found.None? then HOST + CRLF else CRLF;
    var all := req + more;
    assert found.None? ==> all == req + HOST + CRLF;
    addr := seq(|all| + 1, _ => 'x');
    var at := if found.None? then |req| else found.value;
    if found.None? {
      assert all[|req|..|req| + 6] == HOST;
    } else {
      AtPrefix(req, more, HOST, at);
    }
    FoundBy(all, HOST, 0, at);
    var pos := Find(all, HOST, 0).value;
    var end: nat := |all| - 2;
    EndsWith(if found.None? then req + HOST else req, CRLF, all);
    FoundBy(all, CRLF, pos, end);
    assert |ModifyRequest(all, addr)| > |all|;
  }

  lemma EndsWith(a: string, b: string, s: string)
    requires s == a + b
    ensures s[|s| - |b|..|s|] == b
  {}

  /** Rewriting a prefix and forwarding the rest is rewriting the stream exactly when the host line
      lies in the prefix. */
  lemma RewriteIffComplete(req: string)
    ensures HostLineComplete(req)
       <==> forall more, addr :: ModifyRequest(req + more, addr) == ModifyRequest(req, addr) + more
  {
    if HostLineComplete(req) {
      forall more, addr
        ensures ModifyRequest(req + more, addr) == ModifyRequest(req, addr) + more
      {
        RewriteThenForward(req, more, addr);
      }
    } else {
      var more, addr := RewriteTooEarly(req);
    }
  }

  // ---- One line, and only that line ----

  /** A request cut at its host line. */
  function WithHost(pre: string, value: string, post: string): string {
    pre + HOST + (value + CRLF + post)
  }

  /** No "Host: " begins inside `pre`, even when one follows it. */
  ghost predicate FirstHostAfter(pre: string) {
    forall i :: 0 <= i < |pre| ==> !At(pre + HOST, HOST, i)
  }

  ghost predicate OneLine(value: string) {
    forall i: nat :: !At(value, CRLF, i)
  }

  lemma FirstHostFound(s: string, pre: string, rest: string)
    requires FirstHostAfter(pre) && s == pre + HOST + rest
    ensures Find(s, HOST, 0) == Some(|pre|) && At(s, HOST, |pre|)
  {
    forall i | 0 <= i <= |pre|
      ensures At(s, HOST, i) <==> At(pre + HOST, HOST, i)
    {
      AtPrefix(pre + HOST, rest, HOST, i);
    }
    assert (pre + HOST)[|pre|..|pre| + 6] == HOST;
    FoundAt(s, HOST, 0, |pre|);
  }

  lemma NoBreakBefore(value: string, post: string, i: nat)
    requires OneLine(value) && i < |value|
    ensures !At(value + CRLF + post, CRLF, i)
  {
    BreakAt(value + CRLF + post, i);
    BreakAt(value, i);
    assert !At(value, CRLF, i);
  }

  lemma LineEndFound(s: string, front: string, start: nat, value: string, post: string)
    requires OneLine(value) && s == front + (value + CRLF + post) && start == |front|
    ensures Find(s, CRLF, start) == Some(start + |value|)
  {
    var t := value + CRLF + post;
    forall i | start <= i < start + |value|
      ensures !At(s, CRLF, i)
    {
      NoBreakBefore(value, post, i - start);
      BreakAt(s, i);
      BreakAt(t, i - start);
    }
    BreakAt(s, start + |value|);
    FoundAt(s, CRLF, start, start + |value|);
  }

  lemma SearchWithHost(s: string, pre: string, start: nat, value: string, post: string)
    requires FirstHostAfter(pre) && OneLine(value) && s == WithHost(pre, value, post) && start == |pre| + 6
    ensures Find(s, HOST, 0) == Some(|pre|)
    ensures Find(s, CRLF, start) == Some(start + |value|)
    ensures Find(s, CRLF, |pre|) == Some(start + |value|)
  {
    FirstHostFound(s, pre, value + CRLF + post);
    NoBreakInHost(s, |pre|);
    LineEndFound(s, pre + HOST, start, value, post);
  }

  /** Every request with a complete host line has that shape. */
  lemma SplitAtHost(req: string) returns (pre: string, value: string, post: string)
    requires HostLineComplete(req)
    ensures req == WithHost(pre, value, post) && FirstHostAfter(pre) && OneLine(value)
  {
    var pos := Find(req, HOST, 0).value;
    var eol := Find(req, CRLF, pos).value;
    FindFirst(req, HOST, 0);
    FindFirst(req, CRLF, pos);
    NoBreakInHost(req, pos);
    pre, value, post := req[..pos], req[pos + 6..eol], req[eol + 2..];
    CutAtHost(req, pos, eol);
    HostIsFirst(req, pos);
    NoBreakBetween(req, pos + 6, eol);
  }

  lemma CutAtHost(req: string, pos: nat, eol: nat)
    requires At(req, HOST, pos) && At(req, CRLF, eol) && pos + 6 <= eol
    ensures req == WithHost(req[..pos], req[pos + 6..eol], req[eol + 2..])
  {
    assert req[pos..pos + 6] == HOST && req[eol..eol + 2] == CRLF;
    assert req[pos + 6..] == req[pos + 6..eol] + CRLF + req[eol + 2..];
    assert req[..pos + 6] == req[..pos] + HOST;
    assert req == req[..pos + 6] + req[pos + 6..];
  }

  lemma NoBreakBetween(req: string, from: nat, eol: nat)
    requires Find(req, CRLF, from) == Some(eol)
    ensures OneLine(req[from..eol])
  {
    FindFirst(req, CRLF, from);
    forall i: nat
      ensures !At(req[from..eol], CRLF, i)
    {
      BreakAt(req[from..eol], i);
      BreakAt(req, from + i);
    }
  }

  lemma HostIsFirst(req: string, pos: nat)
    requires Find(req, HOST, 0) == Some(pos)
    ensures FirstHostAfter(req[..pos])
  {
    FindFirst(req, HOST, 0);
    var head := req[..pos] + HOST;
    assert head == req[..pos + 6];
    assert req == head + req[pos + 6..];
    forall i | 0 <= i < pos
      ensures !At(head, HOST, i)
    {
      AtPrefix(head, req[pos + 6..], HOST, i);
    }
  }

  /** Only the value of the first host line changes; every byte before and after it stays. */
  lemma RewriteChangesOneLine(pre: string, value: string, post: string, addr: string)
    requires FirstHostAfter(pre) && OneLine(value)
    ensures ModifyRequest(WithHost(pre, value, post), addr) == WithHost(pre, addr, post)
  {
    var s := WithHost(pre, value, post);
    SearchWithHost(s, pre, |pre| + 6, value, post);
    AroundHost(pre, value + CRLF, post, s);
  }

  lemma AroundHost(pre: string, line: string, post: string, s: string)
    requires s == pre + HOST + line + post || s == pre + HOST + (line + post)
    ensures s[..|pre|] == pre && s[|pre| + 6 + |line|..] == post
  {}

  lemma HeaderOfWithHost(pre: string, value: string, post: string)
    requires FirstHostAfter(pre) && OneLine(value)
    ensures ParseHeader(WithHost(pre, value, post), "Host") == value
  {
    var s := WithHost(pre, value, post);
    SearchWithHost(s, pre, |pre| + 6, value, post);
    assert "Host" + ": " == HOST;
    Middle(pre + HOST, value, CRLF, post, s);
  }

  lemma Middle(a: string, b: string, c: string, d: string, s: string)
    requires s == a + (b + c + d)
    ensures s[|a|..|a| + |b|] == b
  {}

  /** The backend reads back the address it was given, and a later rewrite wins. */
  lemma {:induction false} RewriteRoundTrip(req: string, addr: string, again: string)
    requires HostLineComplete(req) && OneLine(addr)
    ensures ParseHeader(ModifyRequest(req, addr), "Host") == addr
    ensures ModifyRequest(ModifyRequest(req, addr), again) == ModifyRequest(req, again)
    ensures ModifyRequest(req, ParseHeader(req, "Host")) == req
  {
    var pre, value, post := SplitAtHost(req);
    RewriteChangesOneLine(pre, value, post, addr);
    HeaderOfWithHost(pre, addr, post);
    HeaderOfWithHost(pre, value, post);
    RewriteChangesOneLine(pre, addr, post, again);
    RewriteChangesOneLine(pre, value, post, again);
    RewriteChangesOneLine(pre, value, post, value);
  }

  // ---- Which line that is ----

  /** A field named "Host" starts here: at the beginning, or after the end of a line. */
  predicate FieldAt(req: string, i: nat) {
    At(req, HOST, i) && (i == 0 || (i >= 2 && At(req, CRLF, i - 2)))
  }

  function FindField(req: string, from: nat): (r: Option<nat>)
    ensures r.Some? ==> from <= r.value && FieldAt(req, r.value)
    ensures r.Some? ==> forall i :: from <= i < r.value ==> !FieldAt(req, i)
    ensures r.None? ==> forall i :: from <= i ==> !FieldAt(req, i)
    decreases |req| - from
  {
    if from + |HOST| > |req| then None
    else if FieldAt(req, from) then Some(from)
    else FindField(req, from + 1)
  }

  /** What the name of the function promises: the line of the first Host field is rewritten, if it has
      arrived in full, and nothing else. */
  function RewriteField(req: string, addr: string): string {
    match FindField(req, 0)
    case None => req
    case Some(pos) =>
      match Find(req, CRLF, pos)
      case None => req
      case Some(eol) => req[..pos] + HOST + addr + CRLF + req[eol + 2..]
  }

  /** No "Host: " occurs before the field; without a field, none with a complete line at all. */
  predicate NothingBeforeTheField(req: string) {
    match FindField(req, 0)
    case None => !HostLineComplete(req)
    case Some(pos) => forall i :: 0 <= i < pos ==> !At(req, HOST, i)
  }

  /** A match inside a line ends before that line does. */
  lemma MatchWithinLine(req: string, i: nat, eol: nat)
    requires At(req, HOST, i) && At(req, CRLF, eol) && i < eol + 2
    ensures i + 6 <= eol
  {
    forall k | i <= k < i + 6
      ensures req[k] != '\r' && req[k] != '\n'
    {
      assert req[k] == HOST[k - i];
    }
    BreakAt(req, eol);
  }

  lemma NewByte(a: string, b: string, addr: string, c: string, d: string)
    requires addr != ""
    ensures |a + b| < |a + b + addr + c + d| && (a + b + addr + c + d)[|a| + |b|] == addr[0]
  {}

  lemma OldByte(req: string, pos: nat, b: string, addr: string, c: string, d: string, k: nat)
    requires k < pos <= |req|
    ensures k < |req[..pos] + b + addr + c + d| && (req[..pos] + b + addr + c + d)[k] == req[k]
  {}

  /** Rewriting at an earlier match writes where the field's rewriting leaves the byte as it is. */
  lemma EarlierMatchDiffers(req: string, pos: nat) returns (addr: string)
    requires Find(req, HOST, 0) == Some(pos) && Find(req, CRLF, pos).Some? && FindField(req, 0) != Some(pos)
    ensures ModifyRequest(req, addr) != RewriteField(req, addr)
  {
    var eol := Find(req, CRLF, pos).value;
    FindFirst(req, HOST, 0);
    FindFirst(req, CRLF, pos);
    NoBreakInHost(req, pos);
    addr := if req[pos + 6] == 'x' then "y" else "x";
    NewByte(req[..pos], HOST, addr, CRLF, req[eol + 2..]);
    FieldLeaves(req, pos, addr);
  }

  lemma FieldLeaves(req: string, pos: nat, addr: string)
    requires Find(req, HOST, 0) == Some(pos) && FindField(req, 0) != Some(pos) && pos + 6 < |req|
    ensures var r := RewriteField(req, addr);
      pos + 6 < |r| && r[pos + 6] == req[pos + 6]
  {
    FindFirst(req, HOST, 0);
    if FindField(req, 0).Some? {
      var f := FindField(req, 0).value;
      MatchWithinLine(req, pos, f - 2);
      if Find(req, CRLF, f).Some? {
        OldByte(req, f, HOST, addr, CRLF, req[Find(req, CRLF, f).value + 2..], pos + 6);
      }
    }
  }

  /** The search is for the first "Host: " wherever it stands. So the line that is rewritten is the Host
      field's, for every address, exactly when no "Host: " occurs before that field. */
  lemma RewritesTheHostFieldIff(req: string)
    ensures (forall addr :: ModifyRequest(req, addr) == RewriteField(req, addr)) <==> NothingBeforeTheField(req)
  {
    FindFirst(req, HOST, 0);
    if NothingBeforeTheField(req) {
      if FindField(req, 0).Some? {
        FoundAt(req, HOST, 0, FindField(req, 0).value);
      }
    } else {
      var pos := EarlierMatch(req);
      var addr := EarlierMatchDiffers(req, pos);
    }
  }

  lemma EarlierMatch(req: string) returns (pos: nat)
    requires !NothingBeforeTheField(req)
    ensures Find(req, HOST, 0) == Some(pos) && Find(req, CRLF, pos).Some? && FindField(req, 0) != Some(pos)
  {
    FindFirst(req, HOST, 0);
    pos := Find(req, HOST, 0).value;
    if FindField(req, 0).Some? {
      var f := FindField(req, 0).value;
      MatchWithinLine(req, pos, f - 2);
      BreakFollows(req, pos, f - 2);
    }
  }

  lemma BreakFollows(req: string, from: nat, k: nat)
    requires At(req, CRLF, k) && from <= k
    ensures Find(req, CRLF, from).Some?
  {
    FindFirst(req, CRLF, from);
  }

  /** For one, a field whose name ends in it is rewritten when it comes first. */
  lemma ForwardedHostIsRewritten(addr: string)
    ensures ModifyRequest("X-Forwarded-Host: a\r\nHost: b\r\n\r\n", addr)
         == "X-Forwarded-Host: " + addr + "\r\nHost: b\r\n\r\n"
  {
    var pre, post := "X-Forwarded-", "Host: b\r\n\r\n";
    WithoutH(pre);
    OneLetter('a');
    RewriteChangesOneLine(pre, "a", post, addr);
    ForwardedParts();
    Nested(pre + HOST, addr, CRLF, post);
  }

  lemma ForwardedParts()
    ensures "X-Forwarded-Host: a\r\nHost: b\r\n\r\n" == WithHost("X-Forwarded-", "a", "Host: b\r\n\r\n")
    ensures "X-Forwarded-" + HOST == "X-Forwarded-Host: "
    ensures CRLF + "Host: b\r\n\r\n" == "\r\nHost: b\r\n\r\n"
  {}

  lemma Nested(a: string, b: string, c: string, d: string)
    ensures a + (b + c + d) == a + b + (c + d)
  {}

  lemma WithoutH(pre: string)
    requires 'H' !in pre
    ensures FirstHostAfter(pre)
  {
    forall i | 0 <= i < |pre|
      ensures !At(pre + HOST, HOST, i)
    {
      assert pre[i] in pre;
      NotHere(pre + HOST, HOST, i);
    }
  }

  lemma OneLetter(c: char)
    ensures OneLine([c])
  {
    forall i: nat
      ensures !At([c], CRLF, i)
    {
      BreakAt([c], i);
    }
  }

  lemma NotHere(s: string, pat: string, i: nat)
    requires i < |s| && pat != "" && s[i] != pat[0]
    ensures !At(s, pat, i)
  {
    if i + |pat| <= |s| {
      assert s[i..i + |pat|][0] == s[i];
    }
  }
}
