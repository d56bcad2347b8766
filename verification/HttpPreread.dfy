/**
 * Host routing on cleartext HTTP/1.x (RFC 9112 sections 3 and 3.2): reading a header in chunks of
 * any size, parsing its Host field, and normalizing the value. Case folding and trimming are ASCII.
 */
module HttpPreread {
  import opened Bytes
  import opened Net

  const SP: byte := 32
  const COLON: byte := 58
  const DOT: byte := 46
  const LBRACKET: byte := 91
  const RBRACKET: byte := 93
  const HOST: bytes := [104, 111, 115, 116]
  const HTTP10: bytes := [72, 84, 84, 80, 47, 49, 46, 48]
  const HTTP11: bytes := [72, 84, 84, 80, 47, 49, 46, 49]
  const DEFAULT_MAX_HEADER_BYTES: nat := 32 * 1024
  const PREREAD_CHUNK_SIZE: nat := 4096

  datatype HttpError =
    | HeaderTooLarge | MalformedRequestLine | UnsupportedVersion
    | NoHost | MultipleHosts | EmptyHost | NonHttp | ReadFailed

  type Parsed = Result<bytes, HttpError>

  // ---- Normalization ---------------------------------------------------

  function Lower(c: byte): byte { if 65 <= c <= 90 then c + 32 else c }

  function ToLower(s: bytes): (r: bytes)
    ensures |r| == |s| && forall i :: 0 <= i < |s| ==> r[i] == Lower(s[i])
  {
    seq(|s|, i requires 0 <= i < |s| => Lower(s[i]))
  }

  predicate IsSpace(c: byte) { 9 <= c <= 13 || c == 32 }

  function TrimLeft(s: bytes): bytes {
    if s != [] && IsSpace(s[0]) then TrimLeft(s[1..]) else s
  }

  function TrimRight(s: bytes): bytes {
    if s != [] && IsSpace(s[|s| - 1]) then TrimRight(s[..|s| - 1]) else s
  }

  function TrimSpace(s: bytes): bytes { TrimRight(TrimLeft(s)) }

  function LastIndexByte(s: bytes, c: byte): (r: int)
    ensures -1 <= r < |s|
    ensures r >= 0 ==> s[r] == c
    ensures forall k :: r < k < |s| ==> s[k] != c
  {
    if s == [] then -1
    else if s[|s| - 1] == c then |s| - 1
    else LastIndexByte(s[..|s| - 1], c)
  }

  /** The host of net.SplitHostPort, when it succeeds. */
  function SplitHostPort(s: bytes): Option<bytes> {
    var i := LastIndexByte(s, COLON);
    if i < 0 then None
    else if s[0] == LBRACKET then
      var end := IndexByte(s, RBRACKET);
      if end < 0 || end + 1 != i then None
      else if LBRACKET in s[1..] || RBRACKET in s[end + 1..] then None
      else Some(s[1..end])
    else if COLON in s[..i] || LBRACKET in s || RBRACKET in s then None
    else Some(s[..i])
  }

  function TrimSuffixDot(s: bytes): bytes {
    if s != [] && s[|s| - 1] == DOT then s[..|s| - 1] else s
  }

  /** NormalizeHTTPHost */
  function NormalizeHost(s: bytes): bytes {
    var h := ToLower(TrimSpace(s));
    if h == [] then []
    else TrimSuffixDot(match SplitHostPort(h) case Some(host) => host case None => h)
  }

  lemma SpaceIs(c: byte)
    ensures IsSpace(c) <==> c in {9, 10, 11, 12, 13, 32}
  {
  }

  /** The octets of HTTP header syntax, as RFC 9112 and ASCII have them. */
  lemma Octets()
    ensures SP == 32 && COLON == 58 && DOT == 46 && LBRACKET == 91 && RBRACKET == 93
    ensures HOST == [104, 111, 115, 116]
    ensures HTTP10 == [72, 84, 84, 80, 47, 49, 46, 48] && HTTP11 == [72, 84, 84, 80, 47, 49, 46, 49]
    ensures CRLF == [13, 10] && CRLFCRLF == [13, 10, 13, 10]
  {
  }

  /** The same octet, or a letter and the same letter in the other case. */
  predicate SameLetter(a: byte, b: byte) {
    a == b || (65 <= a <= 90 && b == a + 32) || (65 <= b <= 90 && a == b + 32)
  }

  /** The same text but for the case of its letters. */
  ghost predicate Spells(a: bytes, b: bytes) {
    |a| == |b| && forall i :: 0 <= i < |a| ==> SameLetter(a[i], b[i])
  }

  ghost predicate NoCapitals(s: bytes) { forall i :: 0 <= i < |s| ==> !(65 <= s[i] <= 90) }

  lemma LowerForgetsCase(a: byte, b: byte)
    ensures SameLetter(a, b) <==> Lower(a) == Lower(b)
    ensures SameLetter(a, b) ==> (IsSpace(a) <==> IsSpace(b))
    ensures !(65 <= Lower(a) <= 90)
  {
  }

  lemma LowerIffSpells(a: bytes, b: bytes)
    ensures Spells(a, b) <==> ToLower(a) == ToLower(b)
    ensures NoCapitals(b) ==> ToLower(b) == b
    ensures NoCapitals(ToLower(a))
  {
    forall i | 0 <= i < |a| && i < |b| ensures SameLetter(a[i], b[i]) <==> ToLower(a)[i] == ToLower(b)[i] {
      LowerForgetsCase(a[i], b[i]);
    }
    forall i | 0 <= i < |b| && NoCapitals(b) ensures ToLower(b)[i] == b[i] {
      assert !(65 <= b[i] <= 90);
    }
    forall i | 0 <= i < |a| ensures !(65 <= ToLower(a)[i] <= 90) {
      LowerForgetsCase(a[i], a[i]);
    }
  }

  lemma {:induction false} TrimLeftForgetsCase(a: bytes, b: bytes)
    requires Spells(a, b)
    ensures Spells(TrimLeft(a), TrimLeft(b))
  {
    if a != [] {
      assert SameLetter(a[0], b[0]);
      LowerForgetsCase(a[0], b[0]);
      assert Spells(a[1..], b[1..]);
      TrimLeftForgetsCase(a[1..], b[1..]);
    }
  }

  lemma {:induction false} TrimRightForgetsCase(a: bytes, b: bytes)
    requires Spells(a, b)
    ensures Spells(TrimRight(a), TrimRight(b))
  {
    if a != [] {
      var n := |a| - 1;
      assert SameLetter(a[n], b[n]);
      LowerForgetsCase(a[n], b[n]);
      assert Spells(a[..n], b[..n]);
      TrimRightForgetsCase(a[..n], b[..n]);
    }
  }

  /** Two values that differ only in the case of letters have the same key. */
  lemma CaseForgotten(a: bytes, b: bytes)
    requires Spells(a, b)
    ensures ToLower(TrimSpace(a)) == ToLower(TrimSpace(b))
    ensures NormalizeHost(a) == NormalizeHost(b)
  {
    hide TrimLeft, TrimRight, ToLower, SplitHostPort;
    TrimLeftForgetsCase(a, b);
    TrimRightForgetsCase(TrimLeft(a), TrimLeft(b));
    LowerIffSpells(TrimSpace(a), TrimSpace(b));
  }

  /** A host name as an operator would write it: lower case, no port, brackets, spaces or final dot. */
  ghost predicate Canonical(h: bytes) {
    && h != [] && h[|h| - 1] != DOT && NoCapitals(h)
    && forall i :: 0 <= i < |h| ==> !IsSpace(h[i]) && h[i] !in {COLON, LBRACKET, RBRACKET}
  }

  ghost predicate AllSpace(s: bytes) { forall i :: 0 <= i < |s| ==> IsSpace(s[i]) }

  lemma {:induction false} TrimLeftSpaces(pad: bytes, s: bytes)
    requires AllSpace(pad) && (s == [] || !IsSpace(s[0]))
    ensures TrimLeft(pad + s) == s
  {
    if pad == [] {
      assert pad + s == s;
    } else {
      assert (pad + s)[1..] == pad[1..] + s;
      TrimLeftSpaces(pad[1..], s);
    }
  }

  lemma {:induction false} TrimRightSpaces(s: bytes, pad: bytes)
    requires AllSpace(pad) && (s == [] || !IsSpace(s[|s| - 1]))
    ensures TrimRight(s + pad) == s
  {
    if pad == [] {
      assert s + pad == s;
    } else {
      assert (s + pad)[..|s + pad| - 1] == s + pad[..|pad| - 1];
      TrimRightSpaces(s, pad[..|pad| - 1]);
    }
  }

  lemma TrimPadded(before: bytes, s: bytes, after: bytes)
    requires AllSpace(before) && AllSpace(after)
    requires s != [] && !IsSpace(s[0]) && !IsSpace(s[|s| - 1])
    ensures TrimSpace(before + s + after) == s
  {
    assert before + s + after == before + (s + after);
    TrimLeftSpaces(before, s + after);
    TrimRightSpaces(s, after);
  }

  function Spell(name: bytes, dot: bool, port: Option<bytes>): bytes {
    (if dot then name + [DOT] else name) + PortSuffix(port)
  }

  function PortSuffix(port: Option<bytes>): bytes {
    if port.Some? then [COLON] + port.value else []
  }

  ghost predicate Digits(s: bytes) { forall i :: 0 <= i < |s| ==> 48 <= s[i] <= 57 }

  /**
   * What makes routing by Host insensitive to spelling: surrounding space, letter case, one
   * trailing dot and a port never change the key that a value is looked up under.
   */
  lemma NormalizeForgetsSpelling(h: bytes, spelled: bytes, dot: bool, port: Option<bytes>, before: bytes, after: bytes)
    requires Canonical(h) && Spells(spelled, h)
    requires AllSpace(before) && AllSpace(after)
    requires port.Some? ==> Digits(port.value)
    ensures NormalizeHost(before + Spell(spelled, dot, port) + after) == h
  {
    LowerIffSpells(spelled, h);
    hide TrimSpace, ToLower, SplitHostPort, PortSuffix, Spells;
    var full, plain := Spell(spelled, dot, port), if dot then h + [DOT] else h;
    SpelledEnds(h, spelled, dot, port);
    TrimPadded(before, full, after);
    LowerSpelled(h, spelled, dot, port);
    assert COLON !in plain && LBRACKET !in plain && RBRACKET !in plain;
    hide Canonical, AllSpace, Lower;
    SplitPort(plain, port);
    assert dot ==> plain[..|plain| - 1] == h;
  }

  lemma SpelledEnds(h: bytes, spelled: bytes, dot: bool, port: Option<bytes>)
    requires Canonical(h) && ToLower(spelled) == h
    requires port.Some? ==> Digits(port.value)
    ensures var full := Spell(spelled, dot, port);
      full != [] && !IsSpace(full[0]) && !IsSpace(full[|full| - 1])
  {
    var full, n := Spell(spelled, dot, port), |spelled|;
    assert Lower(spelled[0]) == h[0] && full[0] == spelled[0];
    assert Lower(spelled[n - 1]) == h[n - 1] && full[n - 1] == spelled[n - 1];
    if port.Some? && port.value != [] {
      assert full[|full| - 1] == port.value[|port.value| - 1];
    }
  }

  lemma LowerSpelled(h: bytes, spelled: bytes, dot: bool, port: Option<bytes>)
    requires ToLower(spelled) == h
    requires port.Some? ==> Digits(port.value)
    ensures ToLower(Spell(spelled, dot, port)) == Spell(h, dot, port)
  {
    var a, b := Spell(spelled, dot, port), Spell(h, dot, port);
    var plain := if dot then spelled + [DOT] else spelled;
    assert |a| == |b| == |plain| + |PortSuffix(port)|;
    forall i | 0 <= i < |a| ensures Lower(a[i]) == b[i] {
      if i < |spelled| {
        assert a[i] == spelled[i] && b[i] == h[i];
      } else if i < |plain| {
        assert a[i] == DOT == b[i];
      } else {
        assert a[i] == PortSuffix(port)[i - |plain|] == b[i];
      }
    }
  }

  lemma SplitPort(host: bytes, port: Option<bytes>)
    requires COLON !in host && LBRACKET !in host && RBRACKET !in host
    requires port.Some? ==> Digits(port.value)
    ensures SplitHostPort(host + PortSuffix(port)) == if port.Some? then Some(host) else None
    ensures host + PortSuffix(None) == host
  {
    assert host + PortSuffix(None) == host;
    if port.Some? {
      LastColon(host, port.value);
      var s := host + ([COLON] + port.value);
      assert s[..|host|] == host && (host == [] || s[0] == host[0]);
      assert LBRACKET !in s && RBRACKET !in s;
    }
  }

  lemma {:induction false} LastColon(host: bytes, digits: bytes)
    requires Digits(digits)
    ensures LastIndexByte(host + ([COLON] + digits), COLON) == |host|
  {
    var s, n := host + ([COLON] + digits), |digits|;
    if n > 0 {
      assert s[|s| - 1] == digits[n - 1];
      assert s[..|s| - 1] == host + ([COLON] + digits[..n - 1]);
      LastColon(host, digits[..n - 1]);
    } else {
      assert s[|s| - 1] == COLON;
    }
  }

  /** A value as it is after trimming and lowering: nothing that either of them would change. */
  ghost predicate Settled(h: bytes) {
    h != [] && NoCapitals(h) && forall i :: 0 <= i < |h| ==> !IsSpace(h[i])
  }

  lemma SettledStays(h: bytes)
    requires Settled(h)
    ensures ToLower(TrimSpace(h)) == h
  {
    hide TrimSpace, ToLower;
    var none: bytes := [];
    assert !IsSpace(h[0]) && !IsSpace(h[|h| - 1]);
    TrimPadded(none, h, none);
    assert none + h + none == h;
    LowerIffSpells(h, h);
  }

  /** The brackets of an IPv6 literal come off with a port, and only with one. */
  lemma SplitBracketed(a: bytes, digits: bytes)
    requires LBRACKET !in a && RBRACKET !in a && Digits(digits)
    ensures var h := [LBRACKET] + a + [RBRACKET];
      SplitHostPort(h) == None && SplitHostPort(h + ([COLON] + digits)) == Some(a)
  {
    var h := [LBRACKET] + a + [RBRACKET];
    var s := h + ([COLON] + digits);
    LastColon(h, digits);
    FirstByte([LBRACKET] + a, RBRACKET, []);
    FirstByte([LBRACKET] + a, RBRACKET, [COLON] + digits);
    assert h == [LBRACKET] + a + [RBRACKET] + [] && s == [LBRACKET] + a + [RBRACKET] + ([COLON] + digits);
    assert s[1..|a| + 1] == a && s[1..] == a + ([RBRACKET] + ([COLON] + digits));
    assert s[|a| + 2..] == [COLON] + digits;
  }

  /** Where a value with a port appended splits, it is a plain host or one in brackets. */
  lemma SplitShapes(h: bytes, digits: bytes)
    requires Digits(digits) && SplitHostPort(h + ([COLON] + digits)).Some?
    ensures (COLON !in h && LBRACKET !in h && RBRACKET !in h)
      || (|h| >= 2 && h == [LBRACKET] + h[1..|h| - 1] + [RBRACKET]
          && LBRACKET !in h[1..|h| - 1] && RBRACKET !in h[1..|h| - 1])
  {
    var s, n := h + ([COLON] + digits), |h|;
    LastColon(h, digits);
    assert s[..n] == h;
    if h != [] && s[0] == LBRACKET {
      var end := IndexByte(s, RBRACKET);
      assert end == n - 1 && h[n - 1] == s[n - 1];
      assert forall k :: 1 <= k < n - 1 ==> h[k] == s[k] == s[1..][k - 1];
    } else {
      assert forall k :: 0 <= k < n ==> h[k] == s[k];
    }
  }

  lemma NeverLonger(h: bytes)
    requires Settled(h)
    ensures |NormalizeHost(h)| <= |h|
  {
    SettledStays(h);
  }

  /**
   * Exactly when a port does not change the routing key: when the host contains no colon and no
   * bracket. The key of an IPv6 literal in brackets keeps them without a port and loses them with
   * one; every other value with a colon or a bracket is left as it is, port and all.
   */
  lemma PortIgnoredIff(h: bytes, digits: bytes)
    requires Settled(h) && Digits(digits)
    ensures NormalizeHost(h + ([COLON] + digits)) == NormalizeHost(h)
      <==> COLON !in h && LBRACKET !in h && RBRACKET !in h
    ensures LBRACKET !in h && RBRACKET !in h ==>
      var six := [LBRACKET] + h + [RBRACKET];
      NormalizeHost(six) == six && NormalizeHost(six + ([COLON] + digits)) == TrimSuffixDot(h)
  {
    hide SplitHostPort, IndexByte, LastIndexByte, TrimSpace, ToLower, Settled, NoCapitals, Digits;
    var s := h + ([COLON] + digits);
    PortSettled(h, digits);
    SettledStays(h);
    SettledStays(s);
    NeverLonger(h);
    if COLON !in h && LBRACKET !in h && RBRACKET !in h {
      SplitPort(h, Some(digits));
      SplitPort(h, None);
    } else if SplitHostPort(s).Some? {
      SplitShapes(h, digits);
      SplitBracketed(h[1..|h| - 1], digits);
    }
    if LBRACKET !in h && RBRACKET !in h {
      var six := [LBRACKET] + h + [RBRACKET];
      BracketsSettled(h);
      PortSettled(six, digits);
      SettledStays(six);
      SettledStays(six + ([COLON] + digits));
      SplitBracketed(h, digits);
    }
  }

  lemma BracketsSettled(h: bytes)
    requires Settled(h)
    ensures Settled([LBRACKET] + h + [RBRACKET])
  {
  }

  lemma PortSettled(h: bytes, digits: bytes)
    requires Settled(h) && Digits(digits)
    ensures h != [] && h + ([COLON] + digits) != []
    ensures Settled(h + ([COLON] + digits))
    ensures (h + ([COLON] + digits))[|h + ([COLON] + digits)| - 1] != DOT
  {
  }

  // ---- The request line ------------------------------------------------

  predicate Version(v: bytes) { v == HTTP10 || v == HTTP11 }

  /** validateRequestLineBytes: the error, if any. */
  function ValidateRequestLine(line: bytes): Option<HttpError> {
    var first := IndexByte(line, SP);
    if first <= 0 then Some(MalformedRequestLine)
    else
      var rest := line[first + 1..];
      var second := IndexByte(rest, SP);
      if second < 0 then Some(MalformedRequestLine)
      else
        var version := rest[second + 1..];
        if second == 0 || IndexByte(version, SP) >= 0 then Some(MalformedRequestLine)
        else if !Version(version) then Some(UnsupportedVersion)
        else None
  }

  function RequestLine(method_: bytes, target: bytes, version: bytes): bytes {
    method_ + [SP] + target + [SP] + version
  }

  ghost predicate Token(t: bytes) { t != [] && SP !in t }

  /** A request line is accepted exactly when it is method SP target SP HTTP/1.0 or HTTP/1.1. */
  lemma RequestLineIff(line: bytes)
    ensures ValidateRequestLine(line) == None <==>
      exists m, t, v :: Token(m) && Token(t) && Version(v) && line == RequestLine(m, t, v)
  {
    hide IndexByte;
    if ValidateRequestLine(line) == None {
      var first := IndexByte(line, SP);
      var rest := line[first + 1..];
      var second := IndexByte(rest, SP);
      var m, t, v := line[..first], rest[..second], rest[second + 1..];
      assert rest == t + [SP] + v;
      assert line == m + [SP] + rest;
      assert line == RequestLine(m, t, v);
      assert Token(m) && Token(t) && Version(v);
    }
    if m, t, v :| Token(m) && Token(t) && Version(v) && line == RequestLine(m, t, v) {
      RequestLineValid(m, t, v);
    }
  }

  lemma RequestLineValid(m: bytes, t: bytes, v: bytes)
    requires Token(m) && Token(t) && Version(v)
    ensures ValidateRequestLine(RequestLine(m, t, v)) == None
  {
    hide IndexByte;
    var rest := t + [SP] + v;
    assert RequestLine(m, t, v) == m + [SP] + rest;
    CutAtSpace(m, rest);
    CutAtSpace(t, v);
    VersionHasNoSpace(v);
  }

  lemma CutAtSpace(a: bytes, b: bytes)
    requires SP !in a
    ensures var s := a + [SP] + b; IndexByte(s, SP) == |a| && s[..|a|] == a && s[|a| + 1..] == b
  {
    hide IndexByte;
    FirstByte(a, SP, b);
  }

  lemma VersionHasNoSpace(v: bytes)
    requires Version(v)
    ensures IndexByte(v, SP) < 0
  {
    hide IndexByte;
    assert SP !in v;
  }

  // ---- The header block ------------------------------------------------

  /** The CRLF-terminated pieces of b; what follows the last CRLF is not one. */
  function SplitLines(b: bytes): seq<bytes>
    decreases |b|
  {
    var nl := Index(b, CRLF);
    if nl < 0 then [] else [b[..nl]] + SplitLines(b[nl + 2..])
  }

  function UntilBlank(lines: seq<bytes>): seq<bytes> {
    if lines == [] || lines[0] == [] then [] else [lines[0]] + UntilBlank(lines[1..])
  }

  /** The value of a Host field line. */
  function HostField(line: bytes): Option<bytes> {
    var colon := IndexByte(line, COLON);
    if colon >= 0 && ToLower(TrimSpace(line[..colon])) == HOST then Some(line[colon + 1..]) else None
  }

  function HostValues(lines: seq<bytes>): seq<bytes> {
    if lines == [] then []
    else (match HostField(lines[0]) case Some(v) => [v] case None => []) + HostValues(lines[1..])
  }

  /** The one Host value there must be, normalized. */
  function OnlyHost(hosts: seq<bytes>): Parsed {
    if hosts == [] then Err(NoHost)
    else if |hosts| > 1 then Err(MultipleHosts)
    else if NormalizeHost(hosts[0]) == [] then Err(EmptyHost)
    else Ok(NormalizeHost(hosts[0]))
  }

  /** A header, said without scanning: split it into lines and filter those before the blank one. */
  function ParseHeader(b: bytes): Parsed {
    var lines := SplitLines(b);
    if lines == [] || lines[0] == [] then Err(MalformedRequestLine)
    else match ValidateRequestLine(lines[0])
      case Some(e) => Err(e)
      case None => OnlyHost(HostValues(UntilBlank(lines[1..])))
  }

  /** The Host values among the field lines at the front of b. */
  function FieldHosts(b: bytes): seq<bytes> { HostValues(UntilBlank(SplitLines(b))) }

  lemma FieldHostsStep(b: bytes)
    ensures FieldHosts(b) == (
      var nl := Index(b, CRLF);
      if nl <= 0 then []
      else (match HostField(b[..nl]) case Some(v) => [v] case None => []) + FieldHosts(b[nl + 2..]))
  {
    var nl := Index(b, CRLF);
    var lines := SplitLines(b);
    if nl >= 0 {
      assert lines[0] == b[..nl] && lines[1..] == SplitLines(b[nl + 2..]);
    }
    if nl > 0 {
      var fields := UntilBlank(lines);
      assert fields[0] == b[..nl] && fields[1..] == UntilBlank(lines[1..]);
    }
  }

  lemma ParseHeaderByLine(b: bytes)
    ensures ParseHeader(b) == (
      var nl := Index(b, CRLF);
      if nl <= 0 then Err(MalformedRequestLine)
      else match ValidateRequestLine(b[..nl])
        case Some(e) => Err(e)
        case None => OnlyHost(FieldHosts(b[nl + 2..])))
  {
    hide ValidateRequestLine, OnlyHost, HostValues, UntilBlank;
    var nl := Index(b, CRLF);
    if nl >= 0 {
      assert SplitLines(b)[0] == b[..nl] && SplitLines(b)[1..] == SplitLines(b[nl + 2..]);
    }
  }

  /** parseHTTPHostFromHeader: the loop over the shrinking rest of the header. */
  method ParseHttpHost(b: bytes) returns (r: Parsed)
    ensures r == ParseHeader(b)
  {
    hide ParseHeader, FieldHosts, ValidateRequestLine, NormalizeHost, IndexByte, Index, ToLower, TrimSpace;
    ParseHeaderByLine(b);
    var lineEnd := Index(b, CRLF);
    if lineEnd <= 0 {
      return Err(MalformedRequestLine);
    }
    var invalid := ValidateRequestLine(b[..lineEnd]);
    if invalid.Some? {
      return Err(invalid.value);
    }
    var found, hostVal := CountHosts(b[lineEnd + 2..]);
    if found == 0 {
      return Err(NoHost);
    }
    if found > 1 {
      return Err(MultipleHosts);
    }
    var host := NormalizeHost(hostVal);
    if host == [] {
      return Err(EmptyHost);
    }
    return Ok(host);
  }

  /** One field line of it: the value, if the name is Host. */
  method ReadField(line: bytes) returns (value: Option<bytes>)
    ensures value == HostField(line)
  {
    hide IndexByte, ToLower, TrimSpace;
    var colon := IndexByte(line, COLON);
    if colon < 0 {
      return None;
    }
    if ToLower(TrimSpace(line[..colon])) == HOST {
      return Some(line[colon + 1..]);
    }
    return None;
  }

  /** Its loop: how many Host fields there are in front of the blank line, and the last one's value. */
  method CountHosts(b: bytes) returns (found: nat, hostVal: bytes)
    ensures found == |FieldHosts(b)| && (found > 0 ==> hostVal == FieldHosts(b)[found - 1])
  {
    hide FieldHosts, HostField, Index;
    found, hostVal := 0, [];
    var rest := b;
    ghost var all := FieldHosts(rest);
    ghost var seen: seq<bytes> := [];
    while |rest| > 0
      invariant found == |seen| && (found > 0 ==> hostVal == seen[found - 1])
      invariant all == seen + FieldHosts(rest)
      decreases |rest|
    {
      FieldHostsStep(rest);
      var nl := Index(rest, CRLF);
      if nl < 0 {
        break;
      }
      var line := rest[..nl];
      rest := rest[nl + 2..];
      if |line| == 0 {
        assert all == seen;
        break;
      }
      var value := ReadField(line);
      if value.Some? {
        found, hostVal := found + 1, value.value;
        seen := seen + [hostVal];
      }
    }
    FieldHostsStep([]);
    assert all == seen;
  }

  // ---- Reading in chunks -----------------------------------------------

  /** rejectObviousNonHTTPPrefix: TLS record types, control bytes and DEL cannot start a request. */
  predicate NonHttpPrefix(b: bytes) {
    b != [] && (0x14 <= b[0] <= 0x17 || b[0] < 0x20 || b[0] == 0x7f)
  }

  function MaxHeader(configured: int): nat {
    if configured <= 0 then DEFAULT_MAX_HEADER_BYTES else configured
  }

  /** Whether the bytes hold a whole header of an allowed size. */
  predicate HeaderFits(s: bytes, max: nat) {
    var idx := Index(s, CRLFCRLF);
    idx >= 0 && idx + 4 <= max
  }

  /** The routing decision as a function of the bytes alone, all of them at once. */
  function OneShot(s: bytes, max: nat): Parsed {
    if NonHttpPrefix(s) then Err(NonHttp)
    else if HeaderFits(s, max) then ParseHeader(s[..Index(s, CRLFCRLF) + 4])
    else Err(HeaderTooLarge)
  }

  /** An early look at the request line says what parsing the whole header would say. */
  lemma EarlyRequestLine(s: bytes, n: nat, max: nat)
    requires n <= |s| && !NonHttpPrefix(s)
    requires Index(s[..n], CRLF) >= 0
    requires ValidateRequestLine(s[..Index(s[..n], CRLF)]).Some?
    ensures OneShot(s, max).Err?
    ensures HeaderFits(s, max) ==> OneShot(s, max).error == ValidateRequestLine(s[..Index(s[..n], CRLF)]).value
  {
    hide ValidateRequestLine, IndexByte, ParseHeader, OnlyHost;
    IndexPrefix(s, CRLF, n);
    var nl := Index(s, CRLF);
    if HeaderFits(s, max) {
      var end := Index(s, CRLFCRLF) + 4;
      assert MatchAt(s, CRLF, end - 4) by {
        assert s[end - 4..end][..2] == s[end - 4..end - 2];
      }
      assert nl <= end - 4;
      IndexPrefix(s, CRLF, end);
      ParseHeaderByLine(s[..end]);
      assert s[..end][..nl] == s[..nl];
    }
  }

  /** The first byte decides as soon as it is there. */
  lemma NonHttpSeen(s: bytes, n: nat, max: nat)
    requires 0 < n <= |s|
    ensures NonHttpPrefix(s[..n]) <==> NonHttpPrefix(s)
    ensures NonHttpPrefix(s) ==> OneShot(s, max) == Err(NonHttp)
  {
  }

  /** While no terminator has been seen, what is still to come starts where the search may stop. */
  lemma NoTerminatorYet(s: bytes, n: nat, max: nat)
    requires n <= |s| && Index(s[..n], CRLFCRLF) < 0
    requires n > max || n == |s|
    ensures !HeaderFits(s, max) && OneShot(s, max).Err?
  {
    IndexPrefix(s, CRLFCRLF, n);
    assert s[..|s|] == s;
  }

  /** Once the terminator is in the buffer the decision is made, whatever follows it. */
  lemma TerminatorSeen(s: bytes, n: nat, max: nat)
    requires n <= |s| && !NonHttpPrefix(s) && Index(s[..n], CRLFCRLF) >= 0
    ensures var end := Index(s[..n], CRLFCRLF) + 4;
      && end <= n && s[..n][..end] == s[..end]
      && (HeaderFits(s, max) <==> end <= max)
      && OneShot(s, max) == if end > max then Err(HeaderTooLarge) else ParseHeader(s[..end])
  {
    IndexPrefix(s, CRLFCRLF, n);
    assert s[..n][..Index(s, CRLFCRLF) + 4] == s[..Index(s, CRLFCRLF) + 4];
  }

  /**
   * ReadHTTPHost. However the stream is cut into reads, the outcome depends only on the bytes that
   * arrive in time: it succeeds exactly when parsing them in one piece does, with the same host,
   * and reports the same error whenever a whole header of an allowed size arrived. Every byte
   * taken from the connection is handed back.
   */
  method ReadHTTPHost(conn: Conn, arrive: nat, maxHeaderBytes: int) returns (r: Parsed, firstBytes: bytes)
    requires !conn.closed && arrive <= |conn.incoming|
    modifies conn`incoming, conn`inTime
    ensures old(conn.incoming) == firstBytes + conn.incoming
    ensures |firstBytes| <= arrive && |firstBytes| <= MaxHeader(maxHeaderBytes) + PREREAD_CHUNK_SIZE
    ensures conn.inTime == None
    ensures Settles(r, old(conn.incoming)[..arrive], MaxHeader(maxHeaderBytes))
  {
    var max := MaxHeader(maxHeaderBytes);
    conn.SetReadDeadline(arrive);
    ghost var s := conn.incoming[..arrive];
    r, firstBytes := ReadHeader(conn, max, s);
    assert old(conn.incoming)[..|firstBytes|] == s[..|firstBytes|];
    conn.ClearReadDeadline();
  }

  /** A verdict that reading the rest of the stream could not contradict. */
  ghost predicate Settles(r: Parsed, s: bytes, max: nat) {
    && (r.Ok? <==> OneShot(s, max).Ok?)
    && (r.Ok? || HeaderFits(s, max) ==> r == OneShot(s, max))
  }

  method ReadHeader(conn: Conn, max: nat, ghost s: bytes) returns (r: Parsed, buf: bytes)
    requires !conn.closed && conn.inTime == Some(|s|)
    requires s <= conn.incoming
    modifies conn`incoming, conn`inTime
    ensures |buf| <= |s| && buf == s[..|buf|] && conn.incoming == old(conn.incoming)[|buf|..]
    ensures |buf| <= max + PREREAD_CHUNK_SIZE
    ensures Settles(r, s, max)
  {
    hide NonHttpPrefix, Index, OneShot, HeaderFits;
    buf := [];
    var tmp := new byte[PREREAD_CHUNK_SIZE];
    var requestLineChecked := false;
    while true
      invariant |buf| <= |s| && buf == s[..|buf|] && conn.incoming == old(conn.incoming)[|buf|..]
      invariant conn.Reach() == |s| - |buf|
      invariant |buf| <= max && Index(buf, CRLFCRLF) < 0
      decreases |s| - |buf|
    {
      var n, e := conn.Read(tmp, 0, PREREAD_CHUNK_SIZE);
      if n > 0 {
        NextChunk(old(conn.incoming), s, |buf|, n);
        buf := buf + tmp[0..n];
        var verdict;
        verdict, requestLineChecked := Inspect(buf, requestLineChecked, max, s);
        if verdict.Some? {
          return verdict.value, buf;
        }
      }
      if e {
        NoTerminatorYet(s, |buf|, max);
        return Err(ReadFailed), buf;
      }
    }
  }

  /** What the loop of ReadHTTPHost does with the bytes read so far. */
  method Inspect(buf: bytes, checked: bool, max: nat, ghost s: bytes)
      returns (verdict: Option<Parsed>, requestLineChecked: bool)
    requires buf != [] && buf <= s
    ensures verdict.Some? ==> Settles(verdict.value, s, max)
    ensures verdict.None? ==> |buf| <= max && Index(buf, CRLFCRLF) < 0
  {
    hide OneShot, HeaderFits, NonHttpPrefix, ParseHeader, ValidateRequestLine, Index, MatchAt;
    requestLineChecked := checked;
    assert buf == s[..|buf|];
    NonHttpSeen(s, |buf|, max);
    if NonHttpPrefix(buf) {
      return Some(Err(NonHttp)), checked;
    }
    if !requestLineChecked {
      var lineEnd := Index(buf, CRLF);
      if lineEnd >= 0 {
        var invalid := ValidateRequestLine(buf[..lineEnd]);
        if invalid.Some? {
          assert buf[..lineEnd] == s[..lineEnd];
          EarlyRequestLine(s, |buf|, max);
          return Some(Err(invalid.value)), checked;
        }
        requestLineChecked := true;
      }
    }
    var idx := Index(buf, CRLFCRLF);
    if idx >= 0 {
      TerminatorSeen(s, |buf|, max);
      var headerEnd := idx + 4;
      if headerEnd > max {
        return Some(Err(HeaderTooLarge)), requestLineChecked;
      }
      var r := ParseHttpHost(buf[..headerEnd]);
      return Some(r), requestLineChecked;
    }
    if |buf| > max {
      NoTerminatorYet(s, |buf|, max);
      return Some(Err(HeaderTooLarge)), requestLineChecked;
    }
    return None, requestLineChecked;
  }

  lemma NextChunk(stream: bytes, s: bytes, i: nat, n: nat)
    requires s <= stream && i + n <= |s|
    ensures stream[i..][n..] == stream[i + n..]
    ensures s[..i] + stream[i..][..n] == s[..i + n]
  {
  }
}
