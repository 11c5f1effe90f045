/** Two settings parsers: the http sink's endpoint (src/sinks/http/endpoint.cpp) and durations
    (src/core/config/config.cpp). */
module Settings {
  import opened Text

  // ---------------------------------------------------------------- http://host[:port][/path]

  datatype Endpoint = Endpoint(host: string, port: nat, path: string)

  const SCHEME := "http://"
  const MAX_PORT := 65535

  function PortOf(text: string): Option<nat> {
    if text != "" && AllDigits(text) && 0 < Value(text) <= MAX_PORT then Some(Value(text)) else None
  }

  /** Splits "host" or "host:port"; a missing port is 80. */
  function AuthorityOf(authority: string, path: string): Option<Endpoint> {
    match IndexOf(authority, ':', 0)
    case None => Some(Endpoint(authority, 80, path))
    case Some(colon) =>
      var port := PortOf(authority[colon + 1..]);
      if colon == 0 || port.None? then None else Some(Endpoint(authority[..colon], port.value, path))
  }

  function EndpointOf(text: string): Option<Endpoint> {
    if !At(text, SCHEME, 0) then None
    else
      var rest := text[|SCHEME|..];
      var slash := IndexOf(rest, '/', 0);
      var authority := if slash.None? then rest else rest[..slash.value];
      if authority == "" then None
      else AuthorityOf(authority, if slash.None? then "/" else rest[slash.value..])
  }

  method ParseHttpEndpoint(text: string) returns (r: Option<Endpoint>)
    ensures r == EndpointOf(text)
  {
    if !At(text, SCHEME, 0) {
      return None;
    }
    var rest := text[|SCHEME|..];
    if rest == "" {
      return None;
    }
    var slash := IndexOf(rest, '/', 0);
    var authority := if slash.None? then rest else rest[..slash.value];
    if authority == "" {
      return None;
    }
    var out := Endpoint("", 80, "/");
    out := out.(path := if slash.None? then "/" else rest[slash.value..]);
    var colon := IndexOf(authority, ':', 0);
    if colon.None? {
      out := out.(host := authority);
    } else {
      out := out.(host := authority[..colon.value]);
      var portText := authority[colon.value + 1..];
      if out.host == "" || portText == "" {
        return None;
      }
      var i := 0;
      while i < |portText|
        invariant 0 <= i <= |portText|
        invariant forall j :: 0 <= j < i ==> IsDigit(portText[j])
      {
        if !IsDigit(portText[i]) {
          return None;
        }
        i := i + 1;
      }
      var port := Value(portText);
      if port > UINT64_MAX || port == 0 || port > MAX_PORT {
        return None;
      }
      out := out.(port := port);
    }
    return Some(out);
  }

  /** `text` is the scheme, the host, a port part and a path part; each part may be left out for its default. */
  ghost predicate SpelledWith(text: string, e: Endpoint, portText: string, pathText: string) {
    && text == "http://" + (e.host + portText + pathText)
    && e.host != "" && '/' !in e.host && ':' !in e.host
    && (if portText == "" then e.port == 80 else portText[0] == ':' && Numbers(portText[1..], e.port))
    && (if pathText == "" then e.path == "/" else pathText[0] == '/' && pathText == e.path)
  }

  /** Digits for a number from 1 to 65535. */
  ghost predicate Numbers(digits: string, port: nat) {
    digits != "" && AllDigits(digits) && Value(digits) == port && 1 <= port <= 65535
  }

  lemma PortExactly(digits: string, port: nat)
    ensures PortOf(digits) == Some(port) <==> Numbers(digits, port)
  {
  }

  ghost predicate Spells(text: string, e: Endpoint) {
    exists portText, pathText :: SpelledWith(text, e, portText, pathText)
  }

  /** What is accepted, and as what: exactly the texts of that shape. */
  lemma EndpointExact(text: string, e: Endpoint)
    ensures EndpointOf(text) == Some(e) <==> Spells(text, e)
  {
    if EndpointOf(text) == Some(e) {
      EndpointSound(text, e);
    }
    if Spells(text, e) {
      var portText, pathText :| SpelledWith(text, e, portText, pathText);
      EndpointComplete(text, e, portText, pathText);
    }
  }

  lemma EndpointSound(text: string, e: Endpoint)
    requires EndpointOf(text) == Some(e)
    ensures Spells(text, e)
  {
    var rest := text[|SCHEME|..];
    assert text == SCHEME + rest;
    var slash := IndexOf(rest, '/', 0);
    var authority := if slash.None? then rest else rest[..slash.value];
    var pathText := if slash.None? then "" else rest[slash.value..];
    assert rest == authority + pathText;
    assert '/' !in authority;
    var portText := AuthoritySound(authority, e);
    if portText != "" {
      PortExactly(portText[1..], e.port);
    }
    assert SpelledWith(text, e, portText, pathText);
  }

  lemma AuthoritySound(authority: string, e: Endpoint) returns (portText: string)
    requires authority != "" && AuthorityOf(authority, e.path) == Some(e)
    ensures authority == e.host + portText
    ensures e.host != "" && ':' !in e.host
    ensures if portText == "" then e.port == 80 else portText[0] == ':' && PortOf(portText[1..]) == Some(e.port)
  {
    var colon := IndexOf(authority, ':', 0);
    if colon.None? {
      portText := "";
    } else {
      portText := authority[colon.value..];
      assert portText[1..] == authority[colon.value + 1..];
    }
  }

  lemma EndpointComplete(text: string, e: Endpoint, portText: string, pathText: string)
    requires SpelledWith(text, e, portText, pathText)
    ensures EndpointOf(text) == Some(e)
  {
    if portText != "" {
      PortExactly(portText[1..], e.port);
    }
    var authority := e.host + portText;
    var rest := authority + pathText;
    assert text[..|SCHEME|] == SCHEME && text[|SCHEME|..] == rest;
    assert '/' !in authority by {
      assert portText != "" ==> portText == ":" + portText[1..];
    }
    if pathText == "" {
      assert rest == authority;
      assert IndexOf(rest, '/', 0) == None;
    } else {
      assert forall j :: 0 <= j < |authority| ==> rest[j] == authority[j];
      IndexOfIs(rest, '/', 0, |authority|);
      assert rest[..|authority|] == authority && rest[|authority|..] == pathText;
    }
    AuthorityComplete(e, portText);
  }

  lemma AuthorityComplete(e: Endpoint, portText: string)
    requires e.host != "" && ':' !in e.host
    requires if portText == "" then e.port == 80 else portText[0] == ':' && PortOf(portText[1..]) == Some(e.port)
    ensures AuthorityOf(e.host + portText, e.path) == Some(e)
  {
    var authority := e.host + portText;
    if portText == "" {
      assert authority == e.host;
      assert IndexOf(authority, ':', 0) == None;
    } else {
      IndexOfIs(authority, ':', 0, |e.host|);
      assert authority[..|e.host|] == e.host && authority[|e.host| + 1..] == portText[1..];
    }
  }

  function PrintEndpoint(e: Endpoint): string {
    SCHEME + (e.host + (":" + Dec(e.port)) + e.path)
  }

  /** Every endpoint the daemon can hold prints to a text that parses back to it. */
  lemma EndpointRoundTrip(e: Endpoint)
    requires e.host != "" && '/' !in e.host && ':' !in e.host
    requires 1 <= e.port <= 65535
    requires e.path != "" && e.path[0] == '/'
    ensures EndpointOf(PrintEndpoint(e)) == Some(e)
  {
    var portText := ":" + Dec(e.port);
    assert portText[1..] == Dec(e.port);
    EndpointComplete(PrintEndpoint(e), e, portText, e.path);
  }

  // ---------------------------------------------------------------- durations

  const INT64_MAX: nat := 0x7FFF_FFFF_FFFF_FFFF

  /** Accepted with an exact count, rejected, or accepted with a count the signed 64-bit representation cannot hold. */
  datatype Duration = Rejected | Millis(ms: nat) | Unrepresentable

  function Scale(unit: string): Option<nat> {
    if unit == "" || unit == "ms" then Some(1)
    else if unit == "s" then Some(1000)
    else if unit == "m" then Some(60_000)
    else if unit == "h" then Some(3_600_000)
    else None
  }

  function Scaled(value: nat, scale: nat): Duration {
    if value * scale <= INT64_MAX then Millis(value * scale) else Unrepresentable
  }

  function DurationOf(text: string): Duration {
    var i := DigitRun(text);
    if i == 0 || Value(text[..i]) > UINT64_MAX || Scale(text[i..]).None? then Rejected
    else Scaled(Value(text[..i]), Scale(text[i..]).value)
  }

  /** The digits run as far as they can; strtoull reports a range error past 64 bits. */
  method ParseDurationMs(text: string) returns (r: Duration)
    ensures r == DurationOf(text)
  {
    var i := 0;
    while i < |text| && IsDigit(text[i])
      invariant 0 <= i <= |text|
      invariant forall j :: 0 <= j < i ==> IsDigit(text[j])
    {
      i := i + 1;
    }
    DigitRunIs(text, i);
    if i == 0 {
      return Rejected;
    }
    var value := Value(text[..i]);
    if value > UINT64_MAX {
      return Rejected;
    }
    var unit := text[i..];
    if unit == "" || unit == "ms" {
      r := Scaled(value, 1);
    } else if unit == "s" {
      r := Scaled(value, 1000);
    } else if unit == "m" {
      r := Scaled(value, 60_000);
    } else if unit == "h" {
      r := Scaled(value, 3_600_000);
    } else {
      r := Rejected;
    }
  }

  /** The units and what one of each is worth in milliseconds. */
  ghost predicate Worth(unit: string, ms: nat) {
    || (unit == "" && ms == 1) || (unit == "ms" && ms == 1) || (unit == "s" && ms == 1000)
    || (unit == "m" && ms == 60 * 1000) || (unit == "h" && ms == 60 * 60 * 1000)
  }

  lemma ScaleExactly(unit: string, ms: nat)
    ensures Scale(unit) == Some(ms) <==> Worth(unit, ms)
  {
  }

  ghost predicate Denotes(text: string, digits: string, unit: string, ms: nat) {
    && text == digits + unit && digits != "" && AllDigits(digits)
    && exists each: nat :: Worth(unit, each) && ms == Value(digits) * each
  }

  /** A text is accepted as a number of milliseconds exactly when it is digits and a unit, their product is that
      number and it fits a signed 64-bit count. */
  lemma DurationExact(text: string, ms: nat)
    ensures DurationOf(text) == Millis(ms) <==>
            ms <= 0x7FFF_FFFF_FFFF_FFFF && exists digits, unit :: Denotes(text, digits, unit, ms)
  {
    if DurationOf(text) == Millis(ms) {
      DurationSound(text, ms);
    }
    if ms <= 0x7FFF_FFFF_FFFF_FFFF && exists digits, unit :: Denotes(text, digits, unit, ms) {
      var digits, unit :| Denotes(text, digits, unit, ms);
      var each: nat :| Worth(unit, each) && ms == Value(digits) * each;
      hide DurationOf, Value, Scale, Worth;
      DurationComplete(text, digits, unit, each, ms);
    }
  }

  lemma DurationSound(text: string, ms: nat)
    requires DurationOf(text) == Millis(ms)
    ensures ms <= 0x7FFF_FFFF_FFFF_FFFF && exists digits, unit :: Denotes(text, digits, unit, ms)
  {
    hide Value, Scale, Worth;
    var i := DigitRun(text);
    ScaleExactly(text[i..], Scale(text[i..]).value);
    assert text == text[..i] + text[i..];
    assert Denotes(text, text[..i], text[i..], ms);
  }

  lemma DurationComplete(text: string, digits: string, unit: string, each: nat, ms: nat)
    requires text == digits + unit && digits != "" && AllDigits(digits)
    requires Worth(unit, each) && ms == Value(digits) * each && ms <= 0x7FFF_FFFF_FFFF_FFFF
    ensures DurationOf(text) == Millis(ms)
  {
    UnitIsNoDigit(unit, each);
    ScaleExactly(unit, each);
    hide Value, Scale, Worth;
    assert unit != "" ==> text[|digits|] == unit[0];
    DigitRunIs(text, |digits|);
    assert text[..|digits|] == digits && text[|digits|..] == unit;
    Grows(Value(digits), each);
  }

  lemma UnitIsNoDigit(unit: string, each: nat)
    requires Worth(unit, each)
    ensures each >= 1 && (unit != "" ==> !IsDigit(unit[0]))
  {
  }

  lemma Grows(value: nat, each: nat)
    requires each >= 1
    ensures value <= value * each
  {
  }

  /** A count printed before an accepted unit: parsed to exactly count times scale when that fits a signed
      64-bit number of milliseconds, and never to any other count. */
  lemma DurationRoundTrip(n: nat, unit: string)
    requires Scale(unit).Some?
    ensures DurationOf(Dec(n) + unit).Millis? <==> n * Scale(unit).value <= INT64_MAX
    ensures DurationOf(Dec(n) + unit).Millis? ==> DurationOf(Dec(n) + unit).ms == n * Scale(unit).value
  {
    var text, i := Dec(n) + unit, |Dec(n)|;
    DigitRunIs(text, i);
    assert text[..i] == Dec(n) && text[i..] == unit;
    assert n <= n * Scale(unit).value;
  }
}
