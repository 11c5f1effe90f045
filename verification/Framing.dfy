/** Reading one HTTP response off a kept-alive socket (post() in src/sinks/http/sink.cpp; section 6.3 of RFC 9112). A
    char stands for one byte. `chunks` is what successive recv calls return, after which recv fails or times out. */
module Framing {
  import opened Text

  const CRLF := "\r\n"
  const TERMINATOR := "\r\n\r\n"
  const HEADER_LIMIT: nat := 65536
  const CHUNK: nat := 4096

  // ---------------------------------------------------------------- the small string helpers

  function LowerChar(c: char): char {
    if 'A' <= c <= 'Z' then c - 'A' + 'a' else c
  }

  function Lower(s: string): string {
    seq(|s|, i requires 0 <= i < |s| => LowerChar(s[i]))
  }

  predicate IsSpace(c: char) {
    c == ' ' || 9 as char <= c <= 13 as char
  }

  function SkipSpace(s: string): string {
    if s != "" && IsSpace(s[0]) then SkipSpace(s[1..]) else s
  }

  predicate Signed(s: string) {
    s != "" && (s[0] == '-' || s[0] == '+')
  }

  /** The digits strtoul and atoi read: after white space and a sign, as far as they run. */
  function Magnitude(s: string): nat {
    var t := SkipSpace(s);
    var u := if Signed(t) then t[1..] else t;
    Value(u[..DigitRun(u)])
  }

  predicate Negative(s: string) {
    SkipSpace(s) != "" && SkipSpace(s)[0] == '-'
  }

  function Atoi(s: string): int {
    var v: int := Magnitude(s);
    if Negative(s) then -v else v
  }

  /** strtoul saturates, and takes a sign as negation modulo 2^64. */
  function Strtoul(s: string): nat {
    var v := Magnitude(s);
    if v > UINT64_MAX then UINT64_MAX
    else if Negative(s) && v != 0 then UINT64_MAX + 1 - v
    else v
  }

  function StatusCode(line: string): int {
    match IndexOf(line, ' ', 0)
    case None => 0
    case Some(a) =>
      match IndexOf(line, ' ', a + 1)
      case None => Atoi(line[a + 1..])
      case Some(b) => Atoi(line[a + 1..b])
  }

  function SkipBlanks(s: string, i: nat): (j: nat)
    requires i <= |s|
    ensures i <= j <= |s|
    decreases |s| - i
  {
    if i < |s| && s[i] == ' ' then SkipBlanks(s, i + 1) else i
  }

  function HeaderValue(headers: string, name: string): string {
    match Find(headers, name + ":", 0)
    case None => ""
    case Some(pos) =>
      var start := SkipBlanks(headers, pos + |name| + 1);
      match Find(headers, CRLF, start)
      case None => headers[start..]
      case Some(end) => headers[start..end]
  }

  // ---------------------------------------------------------------- what a header block says

  function FirstLine(s: string): string {
    match Find(s, CRLF, 0)
    case None => s
    case Some(i) => s[..i]
  }

  predicate Is2xx(head: string) {
    200 <= StatusCode(FirstLine(head)) < 300
  }

  predicate IsChunked(head: string) {
    Find(Lower(head), "transfer-encoding: chunked", 0).Some?
  }

  predicate AsksClose(head: string) {
    Find(Lower(head), "connection: close", 0).Some?
  }

  /** The body length this client waits for: the first Content-Length match, or none at all. */
  function Want(head: string): nat {
    if HasLength(head) then Strtoul(HeaderValue(Lower(head), "content-length")) else 0
  }

  predicate HasLength(head: string) {
    HeaderValue(Lower(head), "content-length") != ""
  }

  // ---------------------------------------------------------------- the receive loops

  function Joined(chunks: seq<string>): string {
    if chunks == [] then "" else chunks[0] + Joined(chunks[1..])
  }

  /** The header block, what was received past its terminator, and the chunks still to come. */
  datatype Head = Aborted(rest: seq<string>) | Got(head: string, past: string, rest: seq<string>)

  /** A buffer cut at its first terminator, if it has one. */
  function Cut(buf: string): (cut: Option<(string, string)>)
    ensures cut.Some? ==> buf == cut.value.0 + TERMINATOR + cut.value.1
  {
    match Find(buf, TERMINATOR, 0)
    case None => None
    case Some(end) => Some((buf[..end], buf[end + 4..]))
  }

  function ReadHead(buf: string, chunks: seq<string>): Head
    decreases |chunks|
  {
    if chunks == [] then Aborted([])
    else
      var buf' := buf + chunks[0];
      match Cut(buf')
      case Some((head, past)) => Got(head, past, chunks[1..])
      case None => if |buf'| > HEADER_LIMIT then Aborted(chunks[1..]) else ReadHead(buf', chunks[1..])
  }

  /** Receives until `have` reaches `want`; `rest` is None if the peer stopped first. */
  function Drain(have: nat, want: nat, chunks: seq<string>): (rest: Option<seq<string>>)
    decreases |chunks|
  {
    if have >= want then Some(chunks)
    else if chunks == [] then None
    else Drain(have + |chunks[0]|, want, chunks[1..])
  }

  /** What post() concludes, whether it closed the connection, and the chunks it left unread. */
  datatype Outcome = Outcome(ok: bool, closed: bool, rest: seq<string>)

  function Respond(chunks: seq<string>): Outcome {
    match ReadHead("", chunks)
    case Aborted(rest) => Outcome(false, true, rest)
    case Got(head, past, rest) => Conclude(head, |past|, rest)
  }

  /** What follows once the header block is in hand, with `have` bytes past it already received. */
  function Conclude(head: string, have: nat, rest: seq<string>): Outcome {
    if IsChunked(head) then Outcome(Is2xx(head), true, rest)
    else
      match Drain(have, Want(head), rest)
      case None => Outcome(Is2xx(head), true, [])
      case Some(left) => Outcome(Is2xx(head), AsksClose(head), left)
  }

  /** The status line is read off the whole buffer; it is the first line of the header block all the same. */
  lemma StatusLineIsFirstLine(buf: string, end: nat)
    requires Find(buf, TERMINATOR, 0) == Some(end)
    ensures Find(buf, CRLF, 0).Some? && buf[..Find(buf, CRLF, 0).value] == FirstLine(buf[..end])
  {
    var head := buf[..end];
    var i := match Find(head, CRLF, 0) case None => end case Some(k) => k;
    var t := buf[end..end + 4];
    assert t == TERMINATOR && buf[end] == t[0] == '\r' && buf[end + 1] == t[1] == '\n';
    forall j: nat | j < end
      ensures At(buf, CRLF, j) <==> At(head, CRLF, j)
    {
      if j + 2 <= end {
        assert head[j..j + 2] == buf[j..j + 2];
      } else {
        assert buf[j..j + 2][1] != CRLF[1];
      }
    }
    FindIs(buf, CRLF, 0, i);
  }

  /** Receives until the header block is in hand, or there is no framing left to trust. */
  method ReceiveHead(chunks: seq<string>) returns (buf: string, headerEnd: Option<nat>, rest: seq<string>)
    ensures headerEnd.None? ==> ReadHead("", chunks) == Aborted(rest)
    ensures headerEnd.Some? ==> Find(buf, TERMINATOR, 0) == headerEnd
    ensures headerEnd.Some? ==> ReadHead("", chunks) == Got(buf[..headerEnd.value], buf[headerEnd.value + 4..], rest)
  {
    var n := 0;
    buf, headerEnd := "", None;
    while true
      invariant n <= |chunks|
      invariant ReadHead("", chunks) == ReadHead(buf, chunks[n..])
      decreases |chunks| - n
    {
      if n == |chunks| {
        return buf, None, [];
      }
      assert chunks[n..][1..] == chunks[n + 1..];
      buf := buf + chunks[n];
      n := n + 1;
      headerEnd := Find(buf, TERMINATOR, 0);
      if headerEnd.Some? {
        return buf, headerEnd, chunks[n..];
      }
      if |buf| > HEADER_LIMIT {
        return buf, None, chunks[n..];
      }
    }
  }

  /** Receives the rest of the body; `full` is false when the peer stopped first. */
  method ReceiveBody(chunks: seq<string>, already: nat, want: nat) returns (full: bool, n: nat)
    ensures n <= |chunks|
    ensures Drain(already, want, chunks) == if full then Some(chunks[n..]) else None
    ensures !full ==> n == |chunks|
  {
    var have: nat := already;
    n := 0;
    while have < want
      invariant n <= |chunks|
      invariant Drain(already, want, chunks) == Drain(have, want, chunks[n..])
      decreases |chunks| - n
    {
      if n == |chunks| {
        return false, n;
      }
      have := have + |chunks[n]|;
      n := n + 1;
      assert chunks[n - 1..][1..] == chunks[n..];
    }
    full := true;
  }

  /** The source takes the status line from the whole buffer, not from the header block. */
  method ReadStatus(buf: string, end: nat) returns (ok: bool)
    requires Find(buf, TERMINATOR, 0) == Some(end)
    ensures ok == Is2xx(buf[..end])
  {
    StatusLineIsFirstLine(buf, end);
    var status := StatusCode(buf[..Find(buf, CRLF, 0).value]);
    ok := status >= 200 && status < 300;
  }

  method ReadBody(head: string, ok: bool, have: nat, rest: seq<string>) returns (o: Outcome)
    requires ok == Is2xx(head)
    ensures o == Conclude(head, have, rest)
  {
    var n := 0;
    var closeAfter := AsksClose(head);
    if IsChunked(head) {
      closeAfter := true;
    } else if HasLength(head) {
      var full;
      full, n := ReceiveBody(rest, have, Want(head));
      closeAfter := closeAfter || !full;
    }
    return Outcome(ok, closeAfter, rest[n..]);
  }

  method ReadResponse(chunks: seq<string>) returns (o: Outcome)
    ensures o == Respond(chunks)
  {
    var buf, headerEnd, rest := ReceiveHead(chunks);
    if headerEnd.None? {
      return Outcome(false, true, rest);
    }
    var ok := ReadStatus(buf, headerEnd.value);
    o := ReadBody(buf[..headerEnd.value], ok, |buf| - (headerEnd.value + 4), rest);
  }

  // ---------------------------------------------------------------- any split of the response

  /** recv hands over at least one byte and at most a buffer's worth. */
  ghost predicate Split(chunks: seq<string>, stream: string) {
    Joined(chunks) == stream && forall k :: 0 <= k < |chunks| ==> 0 < |chunks[k]| <= CHUNK
  }

  /** `head` is the header block of the stream and `body` what follows it. */
  predicate Framed(stream: string, head: string, body: string) {
    Cut(stream) == Some((head, body))
  }

  /** The header block and its terminator together fit the limit checked between receives. */
  predicate Fits(head: string) {
    |head| + 4 <= 64 * 1024 + 1
  }

  /** More bytes do not move a terminator already found, and one found early enough was there already. */
  lemma CutPrefix(buf: string, more: string)
    ensures Cut(buf).Some? ==> Cut(buf + more) == Some((Cut(buf).value.0, Cut(buf).value.1 + more))
    ensures Cut(buf + more).Some? && |Cut(buf + more).value.0| + 4 <= |buf| ==> Cut(buf).Some?
  {
    var s := buf + more;
    forall j: nat | j + 4 <= |buf|
      ensures At(buf, TERMINATOR, j) <==> At(s, TERMINATOR, j)
    {
      assert s[j..j + 4] == buf[j..j + 4];
    }
    if Find(buf, TERMINATOR, 0).Some? {
      var end := Find(buf, TERMINATOR, 0).value;
      FindIs(s, TERMINATOR, 0, end);
      assert s[..end] == buf[..end] && s[end + 4..] == buf[end + 4..] + more;
    }
  }

  /** A header block within the limit is read whole from every split, and nothing past it is lost. */
  lemma {:induction false} HeadIsRead(buf: string, chunks: seq<string>, head: string, body: string)
    requires Framed(buf + Joined(chunks), head, body) && Fits(head)
    requires |buf| < |head| + 4
    ensures var h := ReadHead(buf, chunks);
            h.Got? && h.head == head && h.past + Joined(h.rest) == body
    decreases |chunks|
  {
    assert |buf + Joined(chunks)| >= |head| + 4;
    if chunks != [] {
      var buf', more := buf + chunks[0], Joined(chunks[1..]);
      assert buf + Joined(chunks) == buf' + more;
      CutPrefix(buf', more);
      if Cut(buf').None? {
        HeadIsRead(buf', chunks[1..], head, body);
      }
    }
  }

  /** Whatever the header block's length: if it is read at all, it is read whole and nothing past it is lost. */
  lemma {:induction false} HeadGot(buf: string, chunks: seq<string>, head: string, body: string)
    requires Framed(buf + Joined(chunks), head, body) && |buf| < |head| + 4
    ensures var h := ReadHead(buf, chunks);
            h.Got? ==> h.head == head && h.past + Joined(h.rest) == body
    decreases |chunks|
  {
    if chunks != [] {
      var buf', more := buf + chunks[0], Joined(chunks[1..]);
      assert buf + Joined(chunks) == buf' + more;
      CutPrefix(buf', more);
      if Cut(buf').None? && |buf'| <= HEADER_LIMIT {
        HeadGot(buf', chunks[1..], head, body);
      }
    }
  }

  /** The receive loop ends with everything read when the length was right, and short when it was too long. */
  lemma {:induction false} DrainIsExact(have: nat, want: nat, chunks: seq<string>)
    requires forall k :: 0 <= k < |chunks| ==> chunks[k] != ""
    requires have <= want
    ensures have + |Joined(chunks)| == want ==> Drain(have, want, chunks) == Some([])
    ensures have + |Joined(chunks)| < want ==> Drain(have, want, chunks) == None
    decreases |chunks|
  {
    if chunks != [] && have + |chunks[0]| <= want {
      DrainIsExact(have + |chunks[0]|, want, chunks[1..]);
    }
  }

  lemma {:induction false} JoinedSuffix(buf: string, chunks: seq<string>)
    requires ReadHead(buf, chunks).Got? && forall k :: 0 <= k < |chunks| ==> chunks[k] != ""
    ensures forall k :: 0 <= k < |ReadHead(buf, chunks).rest| ==> ReadHead(buf, chunks).rest[k] != ""
    decreases |chunks|
  {
    if Cut(buf + chunks[0]).None? {
      JoinedSuffix(buf + chunks[0], chunks[1..]);
    }
  }

  /** However the response is split, post() reads exactly it: true exactly for a 2xx status, the connection kept unless
      the response asks to close it, and nothing left for the next post to trip over. */
  lemma SplitIndependent(chunks: seq<string>, stream: string, head: string, body: string)
    requires Split(chunks, stream) && Framed(stream, head, body) && Fits(head)
    requires !IsChunked(head) && Want(head) == |body|
    ensures Respond(chunks) == Outcome(Is2xx(head), AsksClose(head), [])
  {
    assert "" + stream == stream;
    HeadIsRead("", chunks, head, body);
    JoinedSuffix("", chunks);
    var h := ReadHead("", chunks);
    DrainIsExact(|h.past|, Want(head), h.rest);
  }

  /** A length the peer does not live up to costs the connection, not the verdict. */
  lemma ShortBodyCloses(chunks: seq<string>, stream: string, head: string, body: string)
    requires Split(chunks, stream) && Framed(stream, head, body) && Fits(head)
    requires !IsChunked(head) && Want(head) > |body|
    ensures Respond(chunks) == Outcome(Is2xx(head), true, [])
  {
    assert "" + stream == stream;
    HeadIsRead("", chunks, head, body);
    JoinedSuffix("", chunks);
    var h := ReadHead("", chunks);
    DrainIsExact(|h.past|, Want(head), h.rest);
  }

  /** A chunked response is never drained; its connection is closed instead. */
  lemma ChunkedCloses(chunks: seq<string>, stream: string, head: string, body: string)
    requires Split(chunks, stream) && Framed(stream, head, body) && Fits(head) && IsChunked(head)
    ensures Respond(chunks).ok == Is2xx(head) && Respond(chunks).closed
  {
    assert "" + stream == stream;
    HeadIsRead("", chunks, head, body);
  }

  // ---------------------------------------------------------------- the same, off the text of the header block

  /** The first line is a version, a blank and the number `n`, and then ends or goes on with a blank. */
  ghost predicate StatusLine(head: string, n: nat) {
    exists version, rest :: StatusText(FirstLine(head), version, n, rest)
  }

  ghost predicate StatusText(line: string, version: string, n: nat, rest: string) {
    ' ' !in version && (rest == "" || rest[0] == ' ') && line == version + " " + Dec(n) + rest
  }

  /** The first place a field is named gives it the value `n`: blanks, digits, then the end of the line or the block. */
  ghost predicate FirstField(low: string, name: string, n: nat) {
    exists before, blanks, rest :: FieldText(low, name, before, blanks, n, rest)
  }

  ghost predicate FieldText(low: string, name: string, before: string, blanks: string, n: nat, rest: string) {
    && (forall i :: 0 <= i < |blanks| ==> blanks[i] == ' ') && (rest == "" || At(rest, CRLF, 0))
    && low == before + name + ":" + blanks + Dec(n) + rest
    && forall j: nat :: j < |before| ==> !At(low, name + ":", j)
  }

  ghost predicate Mentions(head: string, words: string) {
    exists j: nat :: At(Lower(head), words, j)
  }

  /** What the client makes of the two phrases it looks for, wherever in the block they stand and in whatever case. */
  lemma MentionsExactly(head: string)
    ensures IsChunked(head) <==> Mentions(head, "transfer-encoding: chunked")
    ensures AsksClose(head) <==> Mentions(head, "connection: close")
    ensures !Mentions(head, "content-length:") ==> Want(head) == 0 && !HasLength(head)
  {
    assert "content-length" + ":" == "content-length:";
    hide Lower;
  }

  lemma LowerIs(s: string, i: nat)
    requires i < |s|
    ensures |Lower(s)| == |s|
    ensures Lower(s)[i] == if 'A' <= s[i] <= 'Z' then (s[i] as int + 32) as char else s[i]
  {
  }

  predicate Blank(s: string) {
    forall i :: 0 <= i < |s| ==> s[i] in {' ', '\t', '\n', 11 as char, 12 as char, '\r'}
  }

  lemma {:induction false} SpacesSkipped(blank: string, s: string)
    requires Blank(blank) && (s == "" || !Blank(s[..1]))
    ensures SkipSpace(blank + s) == s
  {
    if blank == "" {
      assert "" + s == s;
      assert s != "" ==> s[..1][0] == s[0];
    } else {
      assert (blank + s)[1..] == blank[1..] + s && (blank + s)[0] == blank[0];
      SpacesSkipped(blank[1..], s);
    }
  }

  lemma DigitsAlone(n: nat, rest: string)
    requires rest == "" || !IsDigit(rest[0])
    ensures DigitRun(Dec(n) + rest) == |Dec(n)| && (Dec(n) + rest)[..|Dec(n)|] == Dec(n)
    ensures !Blank((Dec(n) + rest)[..1]) && !Signed(Dec(n) + rest)
  {
    var text := Dec(n) + rest;
    assert IsDigit(Dec(n)[0]) && text[0] == Dec(n)[0] && text[..1][0] == text[0];
    DigitRunIs(text, |Dec(n)|);
  }

  /** The two number readers: white space skipped, digits as far as they run, and what a minus sign does. */
  lemma NumbersRead(blank: string, n: nat, rest: string)
    requires Blank(blank) && (rest == "" || !IsDigit(rest[0]))
    ensures Atoi(blank + (Dec(n) + rest)) == n
    ensures Strtoul(blank + (Dec(n) + rest)) == if n < 0x1_0000_0000_0000_0000 then n else 0xFFFF_FFFF_FFFF_FFFF
    ensures Atoi(blank + ("-" + (Dec(n) + rest))) + n == 0
    ensures 0 < n < 0x1_0000_0000_0000_0000 ==>
              Strtoul(blank + ("-" + (Dec(n) + rest))) == 0x1_0000_0000_0000_0000 - n
  {
    var text, minus := Dec(n) + rest, "-" + (Dec(n) + rest);
    DigitsAlone(n, rest);
    SpacesSkipped(blank, text);
    assert minus[..1] == "-" && !Blank("-") by {
      assert "-"[0] == '-';
    }
    SpacesSkipped(blank, minus);
    assert minus[1..] == text;
    hide SkipSpace, DigitRun;
  }

  lemma NumberAlone(n: nat)
    ensures Atoi(Dec(n)) == n && Strtoul(Dec(n)) == if n < 0x1_0000_0000_0000_0000 then n else 0xFFFF_FFFF_FFFF_FFFF
  {
    hide Atoi, Strtoul;
    NumbersRead("", n, "");
    assert "" + (Dec(n) + "") == Dec(n);
  }

  /** The status number is the one the status line names. */
  lemma StatusCodeIs(line: string, version: string, n: nat, rest: string)
    requires StatusText(line, version, n, rest)
    ensures StatusCode(line) == n
  {
    hide StatusCode, IndexOf;
    var a, b := |version|, |version| + 1 + |Dec(n)|;
    assert forall j :: 0 <= j < a ==> line[j] == version[j];
    assert line[a] == ' ';
    assert forall j :: a + 1 <= j < b ==> line[j] == Dec(n)[j - a - 1] && IsDigit(line[j]);
    assert line[a + 1..b] == Dec(n);
    assert b < |line| ==> line[b] == rest[0];
    hide StatusText;
    StatusAt(line, a, b);
    NumberAlone(n);
  }

  lemma StatusAt(line: string, a: nat, b: nat)
    requires a < b <= |line| && line[a] == ' ' && (forall j :: 0 <= j < a ==> line[j] != ' ')
    requires (forall j :: a + 1 <= j < b ==> line[j] != ' ') && (b < |line| ==> line[b] == ' ')
    ensures StatusCode(line) == Atoi(line[a + 1..b])
  {
    hide IndexOf, Atoi;
    IndexOfIs(line, ' ', 0, a);
    if b == |line| {
      assert line[a + 1..] == line[a + 1..b];
      assert IndexOf(line, ' ', a + 1) == None;
    } else {
      IndexOfIs(line, ' ', a + 1, b);
    }
  }

  lemma VerdictIs(head: string, n: nat)
    requires StatusLine(head, n)
    ensures Is2xx(head) <==> 200 <= n < 300
  {
    hide StatusCode, FirstLine, StatusText;
    var version, rest :| StatusText(FirstLine(head), version, n, rest);
    StatusCodeIs(FirstLine(head), version, n, rest);
  }

  /** A first line without a blank is no success. */
  lemma NoStatusNoSuccess(head: string)
    requires ' ' !in FirstLine(head)
    ensures !Is2xx(head)
  {
    hide FirstLine;
    assert IndexOf(FirstLine(head), ' ', 0) == None;
  }

  lemma {:induction false} BlanksSkipped(s: string, i: nat, j: nat)
    requires i <= j <= |s| && (forall k :: i <= k < j ==> s[k] == ' ') && (j < |s| ==> s[j] != ' ')
    ensures SkipBlanks(s, i) == j
    decreases j - i
  {
    if i < j {
      BlanksSkipped(s, i + 1, j);
    }
  }

  lemma FieldIs(low: string, name: string, before: string, blanks: string, n: nat, rest: string)
    requires FieldText(low, name, before, blanks, n, rest)
    ensures HeaderValue(low, name) == Dec(n)
  {
    hide HeaderValue, At, Dec;
    var key, pos := name + ":", |before|;
    var start := pos + |key| + |blanks|;
    KeyIsOne(before, name, blanks, Dec(n), rest);
    Pieces(before, key, blanks, Dec(n), rest);
    FieldAt(low, name, pos, start, start + |Dec(n)|);
  }

  lemma KeyIsOne(before: string, name: string, blanks: string, digits: string, rest: string)
    ensures before + name + ":" + blanks + digits + rest == before + (name + ":") + blanks + digits + rest
  {
    assert before + name + ":" == before + (name + ":");
  }

  /** The value of a field found at `pos` are the digits from `start` to `end`. */
  lemma FieldAt(low: string, name: string, pos: nat, start: nat, end: nat)
    requires At(low, name + ":", pos) && forall j: nat :: j < pos ==> !At(low, name + ":", j)
    requires pos + |name| + 1 <= start < end <= |low|
    requires (forall k :: pos + |name| + 1 <= k < start ==> low[k] == ' ') && low[start] != ' '
    requires forall k :: start <= k < end ==> IsDigit(low[k])
    requires end == |low| || At(low, CRLF, end)
    ensures HeaderValue(low, name) == low[start..end]
  {
    hide Find, SkipBlanks;
    FindIs(low, name + ":", 0, pos);
    BlanksSkipped(low, pos + |name| + 1, start);
    hide At;
    if end == |low| {
      NoLineEnd(low, start);
      assert low[start..] == low[start..end];
    } else {
      LineEndIs(low, start, end);
    }
  }

  /** Where the pieces of a block are. */
  lemma Pieces(before: string, key: string, blanks: string, digits: string, rest: string)
    requires (forall i :: 0 <= i < |blanks| ==> blanks[i] == ' ') && AllDigits(digits) && digits != ""
    requires rest == "" || At(rest, CRLF, 0)
    ensures var low, pos := before + key + blanks + digits + rest, |before|;
            var start := pos + |key| + |blanks|;
            var end := start + |digits|;
            && At(low, key, pos) && (forall k :: pos + |key| <= k < start ==> low[k] == ' ') && low[start] != ' '
            && low[start..end] == digits && (forall k :: start <= k < end ==> IsDigit(low[k]))
            && (rest == "" ==> end == |low|) && (rest != "" ==> At(low, CRLF, end))
  {
    var low, pos := before + key + blanks + digits + rest, |before|;
    var start := pos + |key| + |blanks|;
    var end := start + |digits|;
    assert low[pos..pos + |key|] == key;
    assert low[start..end] == digits;
    assert forall k :: pos + |key| <= k < start ==> low[k] == blanks[k - pos - |key|];
    assert forall k :: start <= k < end ==> low[k] == digits[k - start];
    assert rest != "" ==> low[end..end + 2] == rest[0..2];
  }

  lemma NoLineEnd(s: string, from: nat)
    requires forall k :: from <= k < |s| ==> IsDigit(s[k])
    ensures Find(s, CRLF, from) == None
  {
    forall j | from <= j
      ensures !At(s, CRLF, j)
    {
      assert j + 2 <= |s| ==> s[j..j + 2][0] == s[j];
    }
  }

  lemma LineEndIs(s: string, from: nat, end: nat)
    requires from <= end && At(s, CRLF, end) && forall k :: from <= k < end ==> IsDigit(s[k])
    ensures Find(s, CRLF, from) == Some(end)
  {
    hide Find;
    forall j | from <= j < end
      ensures !At(s, CRLF, j)
    {
      assert j + 2 <= |s| ==> s[j..j + 2][0] == s[j];
    }
    FindIs(s, CRLF, from, end);
  }

  lemma FirstFieldIs(low: string, name: string, n: nat)
    requires FirstField(low, name, n)
    ensures HeaderValue(low, name) == Dec(n)
  {
    hide HeaderValue, FieldText;
    var before, blanks, rest :| FieldText(low, name, before, blanks, n, rest);
    FieldIs(low, name, before, blanks, n, rest);
  }

  /** The length waited for is the number the first Content-Length gives, at most what 64 bits hold. */
  lemma WantIs(head: string, n: nat)
    requires FirstField(Lower(head), "content-length", n)
    ensures HasLength(head) && Want(head) == if n < 0x1_0000_0000_0000_0000 then n else 0xFFFF_FFFF_FFFF_FFFF
  {
    hide FirstField, HeaderValue, Lower, Strtoul;
    FirstFieldIs(Lower(head), "content-length", n);
    NumberAlone(n);
  }

  /** However a response whose header block fits is split, post() is true exactly for a status from 200 to 299. */
  lemma VerdictIsStatus(chunks: seq<string>, stream: string, head: string, body: string, n: nat)
    requires Split(chunks, stream) && Framed(stream, head, body) && Fits(head) && StatusLine(head, n)
    ensures Respond(chunks).ok <==> 200 <= n < 300
  {
    hide Is2xx, StatusLine;
    VerdictIs(head, n);
    assert "" + stream == stream;
    HeadIsRead("", chunks, head, body);
  }

  /** Nothing but an answer succeeds: without a whole header block in the stream, or with one of another status,
      post() is false on every split; and a stream without a header block costs the connection. */
  lemma OnlyAnswersSucceed(chunks: seq<string>, stream: string)
    requires Split(chunks, stream)
    ensures Respond(chunks).ok ==> exists head, body :: Framed(stream, head, body) && Is2xx(head)
    ensures (forall head, body :: !Framed(stream, head, body)) ==> Respond(chunks).closed
  {
    hide Is2xx;
    assert "" + stream == stream;
    if Cut(stream).Some? {
      var (head, body) := Cut(stream).value;
      assert Framed(stream, head, body);
      HeadGot("", chunks, head, body);
    } else {
      NoHeadAborts("", chunks);
    }
  }

  lemma {:induction false} NoHeadAborts(buf: string, chunks: seq<string>)
    requires Cut(buf + Joined(chunks)).None?
    ensures ReadHead(buf, chunks).Aborted?
    decreases |chunks|
  {
    if chunks != [] {
      var buf', more := buf + chunks[0], Joined(chunks[1..]);
      assert buf + Joined(chunks) == buf' + more;
      CutPrefix(buf', more);
      if |buf'| <= HEADER_LIMIT {
        NoHeadAborts(buf', chunks[1..]);
      }
    }
  }

  /** The whole answer off the text: the status the first line names, a body of the length announced, no body where none
      is announced, the connection kept unless the block says otherwise. */
  lemma AnswerIs(chunks: seq<string>, stream: string, head: string, body: string, n: nat)
    requires Split(chunks, stream) && Framed(stream, head, body) && Fits(head) && StatusLine(head, n)
    requires !Mentions(head, "transfer-encoding: chunked")
    requires if Mentions(head, "content-length:")
             then |body| < 0x1_0000_0000_0000_0000 && FirstField(Lower(head), "content-length", |body|)
             else body == ""
    ensures Respond(chunks) == Outcome(200 <= n < 300, Mentions(head, "connection: close"), [])
  {
    hide Is2xx, StatusLine, FirstField, Mentions, IsChunked, AsksClose, Want, HasLength;
    VerdictIs(head, n);
    MentionsExactly(head);
    if Mentions(head, "content-length:") {
      WantIs(head, |body|);
    }
    SplitIndependent(chunks, stream, head, body);
  }

  // ---------------------------------------------------------------- and exactly when

  /** The stream in full receive buffers. */
  function Slices(s: string): seq<string>
    decreases |s|
  {
    if s == "" then [] else if |s| <= CHUNK then [s] else [s[..CHUNK]] + Slices(s[CHUNK..])
  }

  lemma {:induction false} SlicesSplit(s: string)
    ensures Split(Slices(s), s)
    decreases |s|
  {
    if |s| > CHUNK {
      SlicesSplit(s[CHUNK..]);
      assert s[..CHUNK] + s[CHUNK..] == s;
    } else if s != "" {
      assert Joined([s]) == s + Joined([]);
    }
  }

  lemma {:induction false} JoinedConcat(a: seq<string>, b: seq<string>)
    ensures Joined(a + b) == Joined(a) + Joined(b)
  {
    if a == [] {
      assert a + b == b;
    } else {
      assert (a + b)[1..] == a[1..] + b;
      JoinedConcat(a[1..], b);
      assert a[0] + (Joined(a[1..]) + Joined(b)) == (a[0] + Joined(a[1..])) + Joined(b);
    }
  }

  /** A split with a boundary at `p`. */
  lemma SplitAt(s: string, p: nat)
    requires p <= |s|
    ensures Split(Slices(s[..p]) + Slices(s[p..]), s)
  {
    SlicesSplit(s[..p]);
    SlicesSplit(s[p..]);
    JoinedConcat(Slices(s[..p]), Slices(s[p..]));
    assert s[..p] + s[p..] == s;
  }

  lemma {:induction false} ReadHeadExtends(buf: string, a: seq<string>, b: seq<string>)
    requires ReadHead(buf, a).Got?
    ensures ReadHead(buf, a + b) == ReadHead(buf, a).(rest := ReadHead(buf, a).rest + b)
    decreases |a|
  {
    assert (a + b)[0] == a[0] && (a + b)[1..] == a[1..] + b;
    if Cut(buf + a[0]).None? {
      ReadHeadExtends(buf + a[0], a[1..], b);
    }
  }

  lemma {:induction false} DrainExtends(have: nat, want: nat, a: seq<string>, b: seq<string>)
    requires Drain(have, want, a).Some?
    ensures Drain(have, want, a + b) == Some(Drain(have, want, a).value + b)
    decreases |a|
  {
    if have < want {
      assert (a + b)[0] == a[0] && (a + b)[1..] == a[1..] + b;
      DrainExtends(have + |a[0]|, want, a[1..], b);
    }
  }

  /** Past the limit, the header read fails for a split that happens to stop in between. */
  lemma {:induction false} HeadIsRefused(buf: string, a: seq<string>, b: seq<string>)
    requires |buf| <= HEADER_LIMIT < |buf + Joined(a)| && Cut(buf + Joined(a)).None?
    ensures ReadHead(buf, a + b).Aborted?
    decreases |a|
  {
    assert buf + "" == buf;
    if a != [] {
      var buf' := buf + a[0];
      assert buf + Joined(a) == buf' + Joined(a[1..]);
      CutPrefix(buf', Joined(a[1..]));
      assert (a + b)[0] == a[0] && (a + b)[1..] == a[1..] + b;
      if |buf'| <= HEADER_LIMIT {
        HeadIsRefused(buf', a[1..], b);
      }
    }
  }

  /** Every split gets the header block read exactly when it fits the limit. */
  lemma HeadReadExactly(stream: string, head: string, body: string)
    requires Framed(stream, head, body)
    ensures (forall chunks :: Split(chunks, stream) ==> ReadHead("", chunks).Got?) <==> Fits(head)
  {
    if Fits(head) {
      forall chunks | Split(chunks, stream)
        ensures ReadHead("", chunks).Got?
      {
        assert "" + stream == stream;
        HeadIsRead("", chunks, head, body);
      }
    } else {
      var p := HEADER_LIMIT + 1;
      var a, b := Slices(stream[..p]), Slices(stream[p..]);
      SplitAt(stream, p);
      SlicesSplit(stream[..p]);
      assert stream == stream[..p] + stream[p..];
      CutPrefix(stream[..p], stream[p..]);
      assert "" + Joined(a) == stream[..p];
      HeadIsRefused("", a, b);
    }
  }

  /** One receive can take a header block past the limit and its terminator in together, but no more than a buffer. */
  predicate Readable(head: string) {
    |head| + 4 <= 64 * 1024 + 4096
  }

  /** No split leaves a byte of this response on a connection that stays open exactly when its header block is too long
      ever to be read, or it is chunked, asks to close, or has no more body than the length this client waits for. So on
      a connection that is kept, a body sent with no Content-Length, or with one too small, can leak into the next
      response, and nothing else can. */
  lemma ReadsAllExactly(stream: string, head: string, body: string)
    requires Framed(stream, head, body)
    ensures (forall chunks :: Split(chunks, stream) ==> Respond(chunks).closed || Respond(chunks).rest == []) <==>
            !Readable(head) || IsChunked(head) || AsksClose(head) || |body| <= Want(head)
  {
    if !Readable(head) || IsChunked(head) || AsksClose(head) || |body| <= Want(head) {
      forall chunks | Split(chunks, stream)
        ensures Respond(chunks).closed || Respond(chunks).rest == []
      {
        NothingLeftOpen(chunks, stream, head, body);
      }
    } else {
      LeavesTail(stream, head, body);
    }
  }

  lemma NothingLeftOpen(chunks: seq<string>, stream: string, head: string, body: string)
    requires Split(chunks, stream) && Framed(stream, head, body)
    requires !Readable(head) || IsChunked(head) || AsksClose(head) || |body| <= Want(head)
    ensures Respond(chunks).closed || Respond(chunks).rest == []
  {
    var h := ReadHead("", chunks);
    if h.Got? {
      assert "" + stream == stream;
      if !Readable(head) {
        TooLongIsRefused("", chunks, head, body);
      }
      HeadGot("", chunks, head, body);
      JoinedSuffix("", chunks);
      if |body| <= Want(head) {
        DrainIsExact(|h.past|, Want(head), h.rest);
      }
    }
  }

  /** A header block longer than the limit and a receive together is refused however it is split. */
  lemma {:induction false} TooLongIsRefused(buf: string, chunks: seq<string>, head: string, body: string)
    requires Framed(buf + Joined(chunks), head, body) && !Readable(head) && |buf| <= HEADER_LIMIT
    requires forall k :: 0 <= k < |chunks| ==> 0 < |chunks[k]| <= CHUNK
    ensures ReadHead(buf, chunks).Aborted?
    decreases |chunks|
  {
    if chunks != [] {
      var buf', more := buf + chunks[0], Joined(chunks[1..]);
      assert buf + Joined(chunks) == buf' + more;
      CutPrefix(buf', more);
      if |buf'| <= HEADER_LIMIT {
        TooLongIsRefused(buf', chunks[1..], head, body);
      }
    }
  }

  /** Some split gets the header read exactly when one receive can bridge what is past the limit. */
  lemma SomeSplitReads(stream: string, head: string, body: string)
    requires Framed(stream, head, body)
    ensures (exists chunks :: Split(chunks, stream) && ReadHead("", chunks).Got?) <==> Readable(head)
  {
    if Readable(head) {
      var top := BridgeHead(stream, head, body);
      SlicesSplit(body);
      SplitsJoin(top, head + TERMINATOR, Slices(body), body);
      ReadHeadExtends("", top, Slices(body));
      assert stream == head + TERMINATOR + body;
    } else {
      assert "" + stream == stream;
      forall chunks | Split(chunks, stream)
        ensures ReadHead("", chunks).Aborted?
      {
        TooLongIsRefused("", chunks, head, body);
      }
    }
  }

  lemma SplitsJoin(a: seq<string>, s: string, b: seq<string>, t: string)
    requires Split(a, s) && Split(b, t)
    ensures Split(a + b, s + t)
  {
    JoinedConcat(a, b);
  }

  /** A split of the header block and its terminator that gets it read: up to the limit, then the rest at once. */
  lemma BridgeHead(stream: string, head: string, body: string) returns (chunks: seq<string>)
    requires Framed(stream, head, body) && Readable(head)
    ensures Split(chunks, head + TERMINATOR) && ReadHead("", chunks) == Got(head, "", [])
  {
    var top := head + TERMINATOR;
    var q := if |top| > CHUNK then |top| - CHUNK else 0;
    var first, last := top[..q], top[q..];
    TopIsCut(stream, head, body);
    SlicesSplit(first);
    assert first + last == top;
    CutPrefix(first, last);
    assert Cut(first).None?;
    chunks := Slices(first) + [last];
    assert Joined([last]) == last + Joined([]);
    SplitsJoin(Slices(first), first, [last], last);
    assert "" + first == first;
    BridgeIsRead("", Slices(first), last, head);
  }

  lemma TopIsCut(stream: string, head: string, body: string)
    requires Framed(stream, head, body)
    ensures Cut(head + TERMINATOR) == Some((head, ""))
  {
    var top := head + TERMINATOR;
    assert stream == top + body;
    CutPrefix(top, body);
    assert Cut(top).Some?;
  }

  lemma {:induction false} BridgeIsRead(buf: string, chunks: seq<string>, last: string, head: string)
    requires |buf + Joined(chunks)| <= HEADER_LIMIT && Cut(buf + Joined(chunks)).None?
    requires Cut(buf + Joined(chunks) + last) == Some((head, ""))
    ensures ReadHead(buf, chunks + [last]) == Got(head, "", [])
    decreases |chunks|
  {
    if chunks == [] {
      assert buf + "" == buf && [] + [last] == [last];
    } else {
      var buf' := buf + chunks[0];
      assert buf + Joined(chunks) == buf' + Joined(chunks[1..]);
      CutPrefix(buf', Joined(chunks[1..]));
      assert (chunks + [last])[0] == chunks[0] && (chunks + [last])[1..] == chunks[1..] + [last];
      BridgeIsRead(buf', chunks[1..], last, head);
    }
  }

  lemma LeavesTail(stream: string, head: string, body: string)
    requires Framed(stream, head, body) && Readable(head)
    requires !IsChunked(head) && !AsksClose(head) && |body| > Want(head)
    ensures exists chunks :: Split(chunks, stream) && !Respond(chunks).closed && Respond(chunks).rest != []
  {
    var want := Want(head);
    var read, left := Slices(body[..want]), Slices(body[want..]);
    var top := BridgeHead(stream, head, body);
    SplitAt(body, want);
    SlicesSplit(body[..want]);
    SplitsJoin(top, head + TERMINATOR, read + left, body);
    assert stream == head + TERMINATOR + body;
    ReadHeadExtends("", top, read + left);
    DrainIsExact(0, want, read);
    DrainExtends(0, want, read, left);
    assert [] + (read + left) == read + left && [] + left == left;
    var chunks := top + (read + left);
    assert Respond(chunks) == Conclude(head, 0, read + left) == Outcome(Is2xx(head), false, left);
    assert left != [];
  }

  // ---------------------------------------------------------------- successive posts on one connection

  /** Post after post on a connection that stays open: each sees what is still unread, then what newly arrives. */
  function Session(unread: seq<string>, arrivals: seq<seq<string>>): seq<Outcome>
    decreases |arrivals|
  {
    if arrivals == [] then []
    else
      var o := Respond(unread + arrivals[0]);
      [o] + if o.closed then [] else Session(o.rest, arrivals[1..])
  }

  datatype Response = Response(head: string, body: string) {
    function Stream(): string { head + TERMINATOR + body }

    /** A response this client can frame and that leaves the connection open. */
    predicate KeepsAlive() {
      Framed(Stream(), head, body) && Fits(head) && !IsChunked(head) && Want(head) == |body| && !AsksClose(head)
    }
  }

  const NO_CONTENT := "HTTP/1.1 204 No Content"

  /** The usual answer of an ingest endpoint is one. */
  lemma NoContentKeepsAlive()
    ensures Response(NO_CONTENT, "").KeepsAlive() && Is2xx(NO_CONTENT)
  {
    hide Is2xx, IsChunked, AsksClose, HasLength, Cut;
    NoContentIsFramed();
    NoContentHasNoFields();
    NoContentIs2xx();
  }

  lemma NoContentIsFramed()
    ensures Framed(NO_CONTENT + TERMINATOR + "", NO_CONTENT, "") && Fits(NO_CONTENT)
  {
    hide Find;
    var stream := NO_CONTENT + TERMINATOR + "";
    assert |NO_CONTENT| == 23 && stream[23..27] == TERMINATOR;
    forall j: nat | j < 23
      ensures !At(stream, TERMINATOR, j)
    {
      assert stream[j..j + 4][0] == stream[j] == NO_CONTENT[j] != TERMINATOR[0];
    }
    FindIs(stream, TERMINATOR, 0, 23);
    assert stream[..23] == NO_CONTENT && stream[27..] == "";
  }

  lemma NoContentHasNoFields()
    ensures !IsChunked(NO_CONTENT) && !AsksClose(NO_CONTENT) && !HasLength(NO_CONTENT)
  {
    hide Find;
    var low := Lower(NO_CONTENT);
    assert ':' !in low;
    NotFound(low, "transfer-encoding: chunked", 17);
    NotFound(low, "connection: close", 10);
    NotFound(low, "content-length" + ":", 14);
  }

  lemma NoContentIs2xx()
    ensures Is2xx(NO_CONTENT)
  {
    hide Find, IndexOf, Atoi;
    NotFound(NO_CONTENT, CRLF, 0);
    IndexOfIs(NO_CONTENT, ' ', 0, 8);
    IndexOfIs(NO_CONTENT, ' ', 9, 12);
    assert NO_CONTENT[9..12] == "204";
    NumberOf204();
  }

  lemma NumberOf204()
    ensures Atoi("204") == 204
  {
    DigitRunIs("204", 3);
    assert SkipSpace("204") == "204" && "204"[..3] == "204";
    assert "204"[..2] == "20" && "20"[..1] == "2" && "2"[..0] == "";
    assert Value("2") == 2 && Value("20") == 20;
  }

  lemma NotFound(s: string, pat: string, k: nat)
    requires k < |pat| && pat[k] !in s
    ensures Find(s, pat, 0) == None
  {
  }

  lemma KeptAnswer(r: Response, chunks: seq<string>)
    requires r.KeepsAlive() && Split(chunks, r.Stream())
    ensures Respond(chunks) == Outcome(Is2xx(r.head), false, [])
  {
    hide Is2xx, Respond, Split, Want, IsChunked, AsksClose;
    SplitIndependent(chunks, r.Stream(), r.head, r.body);
  }

  /** Over any number of posts on one kept connection, each reads its own response and only that, however every one
      of them is split. */
  lemma {:induction false} EachReadsItsOwn(responses: seq<Response>, arrivals: seq<seq<string>>)
    requires |arrivals| == |responses|
    requires forall k :: 0 <= k < |responses| ==> responses[k].KeepsAlive() && Split(arrivals[k], responses[k].Stream())
    ensures |Session([], arrivals)| == |responses|
    ensures forall k :: 0 <= k < |responses| ==>
        Session([], arrivals)[k] == Outcome(Is2xx(responses[k].head), false, [])
    ensures forall k, n: nat :: 0 <= k < |responses| && StatusLine(responses[k].head, n) ==>
        (Session([], arrivals)[k].ok <==> 200 <= n < 300)
  {
    hide Is2xx, StatusLine, Respond, Split, Framed, Fits, Want, IsChunked, AsksClose;
    forall k, n: nat | 0 <= k < |responses| && StatusLine(responses[k].head, n)
      ensures Is2xx(responses[k].head) <==> 200 <= n < 300
    {
      VerdictIs(responses[k].head, n);
    }
    if responses != [] {
      KeptAnswer(responses[0], arrivals[0]);
      assert [] + arrivals[0] == arrivals[0];
      EachReadsItsOwn(responses[1..], arrivals[1..]);
    }
  }
}
