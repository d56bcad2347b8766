/** Port mapping entries and host:port addresses: the listen addresses that the configuration opens. */
module PortMappings {
  import opened Bytes
  import opened HttpPreread

  const DASH: byte := 45
  const PLUS: byte := 43
  const EQUALS: byte := 61
  const MAX_PORT := 65535

  datatype Addr = Addr(host: bytes, port: int)

  datatype MappingError = BadFormat | BadRange | BadStart | BadEnd | BadPort

  // ---- Numbers ---------------------------------------------------------

  predicate IsDigit(c: byte) { 48 <= c <= 57 }

  predicate AllDigits(s: bytes) { forall i :: 0 <= i < |s| ==> IsDigit(s[i]) }

  function Value(s: bytes): nat
    requires AllDigits(s)
  {
    if s == [] then 0 else 10 * Value(s[..|s| - 1]) + (s[|s| - 1] as int - 48)
  }

  /** strconv.Atoi, with one optional sign; the callers' bounds exclude what overflows an int. */
  function Atoi(s: bytes): Option<int> {
    var digits := if s != [] && s[0] in {PLUS, DASH} then s[1..] else s;
    if digits == [] || !AllDigits(digits) then None
    else
      var n: int := Value(digits);
      Some(if s[0] == DASH then -n else n)
  }

  predicate PortOk(p: Option<int>) { p.Some? && 1 <= p.value <= MAX_PORT }

  /** strconv.Itoa */
  function Decimal(n: nat): (s: bytes)
    ensures s != [] && AllDigits(s)
  {
    if n < 10 then [48 + n] else Decimal(n / 10) + [48 + n % 10]
  }

  lemma {:induction false} AtoiDecimal(n: nat)
    ensures Value(Decimal(n)) == n && Atoi(Decimal(n)) == Some(n)
  {
    if n >= 10 {
      AtoiDecimal(n / 10);
      var s := Decimal(n);
      assert s[..|s| - 1] == Decimal(n / 10);
    } else {
      assert [48 + n][..0] == [];
    }
    assert IsDigit(Decimal(n)[0]);
  }

  // ---- host:port -------------------------------------------------------

  /** parseHostPort: net.SplitHostPort of the trimmed text, and a port in range. */
  function ParseHostPort(addr: bytes): Option<Addr> {
    var s := TrimSpace(addr);
    match SplitHostPort(s)
    case None => None
    case Some(host) =>
      var port := Atoi(s[LastIndexByte(s, COLON) + 1..]);
      if PortOk(port) then Some(Addr(host, port.value)) else None
  }

  /** isWildcardHost */
  predicate IsWildcard(host: bytes) {
    var h := TrimSpace(host);
    h in {[], [48, 46, 48, 46, 48, 46, 48], [58, 58], [91, 58, 58, 93], [42]}
  }

  // ---- Mappings --------------------------------------------------------

  /** Every port from `start` to `end`, on every interface. */
  function Range(start: int, end: int): (r: seq<Addr>)
    requires start <= end + 1
    ensures |r| == end - start + 1 && forall i :: 0 <= i < |r| ==> r[i].host == [] && r[i].port == start + i
  {
    seq(end + 1 - start, i requires 0 <= i < end + 1 - start => Addr([], start + i))
  }

  /** What stands in front of the first "=", trimmed. */
  function Local(mapping: bytes): bytes {
    var eq := IndexByte(mapping, EQUALS);
    TrimSpace(if eq < 0 then mapping else mapping[..eq])
  }

  /** portMappingListenAddrs */
  function ListenAddrs(mapping: bytes): Result<seq<Addr>, MappingError> {
    var local := Local(mapping);
    if local == [] then Err(BadFormat)
    else if DASH in local then RangeAddrs(local)
    else if COLON in local then
      match ParseHostPort(local) {
        case None => Err(BadFormat)
        case Some(a) => Ok([a])
      }
    else
      var port := Atoi(local);
      if PortOk(port) then Ok([Addr([], port.value)]) else Err(BadPort)
  }

  function RangeAddrs(local: bytes): Result<seq<Addr>, MappingError>
    requires DASH in local
  {
    var dash := IndexByte(local, DASH);
    if dash < 0 || DASH in local[dash + 1..] then Err(BadRange)
    else
      var start, end := Atoi(TrimSpace(local[..dash])), Atoi(TrimSpace(local[dash + 1..]));
      if !PortOk(start) then Err(BadStart)
      else if !PortOk(end) || end.value < start.value then Err(BadEnd)
      else Ok(Range(start.value, end.value))
  }

  method PortMappingListenAddrs(mapping: bytes) returns (r: Result<seq<Addr>, MappingError>)
    ensures r == ListenAddrs(mapping)
    ensures r.Ok? ==> r.value != [] && forall i :: 0 <= i < |r.value| ==> 1 <= r.value[i].port <= 65535
  {
    hide TrimSpace, Atoi, IndexByte, SplitHostPort;
    var local := Local(mapping);
    if local == [] {
      return Err(BadFormat);
    }
    if DASH in local {
      var dash := IndexByte(local, DASH);
      if dash < 0 || DASH in local[dash + 1..] {
        return Err(BadRange);
      }
      var start, end := Atoi(TrimSpace(local[..dash])), Atoi(TrimSpace(local[dash + 1..]));
      if !PortOk(start) {
        return Err(BadStart);
      }
      if !PortOk(end) || end.value < start.value {
        return Err(BadEnd);
      }
      var addrs := [];
      for p := start.value to end.value + 1
        invariant addrs == Range(start.value, p - 1)
      {
        addrs := addrs + [Addr([], p)];
      }
      return Ok(addrs);
    }
    if COLON in local {
      var a := ParseHostPort(local);
      return if a.None? then Err(BadFormat) else Ok([a.value]);
    }
    var port := Atoi(local);
    return if PortOk(port) then Ok([Addr([], port.value)]) else Err(BadPort);
  }

  // ---- What a mapping means --------------------------------------------

  /** A host may also be written in brackets; then it may contain colons. */
  datatype Mapping =
    | OnePort(port: nat)
    | PortRange(start: nat, end: nat)
    | HostPort(host: bytes, port: nat)
    | BracketedPort(host: bytes, port: nat)

  predicate InRange(port: nat) { 1 <= port <= 65535 }

  /** No space and none of "[", "]". */
  predicate Unbracketed(h: bytes) { forall i :: 0 <= i < |h| ==> !IsSpace(h[i]) && h[i] != 91 && h[i] != 93 }

  /** Neither "-" nor "=", which have a meaning of their own in a mapping. */
  predicate Plain(h: bytes) { forall i :: 0 <= i < |h| ==> h[i] != 45 && h[i] != 61 }

  /** Whether the host is one that can stand in a mapping; the ports may be any. */
  predicate Shaped(m: Mapping) {
    match m
    case HostPort(h, p) => Unbracketed(h) && 58 !in h && Plain(h)
    case BracketedPort(h, p) => Unbracketed(h) && Plain(h)
    case _ => true
  }

  predicate ValidMapping(m: Mapping) {
    Shaped(m) && match m
    case OnePort(p) => InRange(p)
    case PortRange(a, b) => InRange(a) && InRange(b) && a <= b
    case HostPort(h, p) => InRange(p)
    case BracketedPort(h, p) => InRange(p)
  }

  /** The error a mapping without a meaning is refused with. */
  function Refusal(m: Mapping): MappingError {
    match m
    case OnePort(_) => BadPort
    case PortRange(a, _) => if InRange(a) then BadEnd else BadStart
    case _ => BadFormat
  }

  function Opens(m: Mapping): seq<Addr>
    requires ValidMapping(m)
  {
    match m
    case OnePort(p) => [Addr([], p)]
    case PortRange(a, b) => Range(a, b)
    case HostPort(h, p) => [Addr(h, p)]
    case BracketedPort(h, p) => [Addr(h, p)]
  }

  /** host:port */
  function HostText(h: bytes, p: nat): bytes { h + ([58] + Decimal(p)) }

  /** [host]:port */
  function BracketText(h: bytes, p: nat): bytes { [91] + h + [93] + ([58] + Decimal(p)) }

  function Text(m: Mapping): bytes {
    match m
    case OnePort(p) => Decimal(p)
    case PortRange(a, b) => Decimal(a) + ([45] + Decimal(b))
    case HostPort(h, p) => HostText(h, p)
    case BracketedPort(h, p) => BracketText(h, p)
  }

  /** The entry an operator writes: spaces around the local side, then optionally "=" and a remote side. */
  function Written(m: Mapping, before: bytes, after: bytes, remote: Option<bytes>): bytes {
    before + Text(m) + after + (if remote.Some? then [61] + remote.value else [])
  }

  lemma TextIsPlain(m: Mapping)
    requires Shaped(m)
    ensures Text(m) != []
    ensures forall i :: 0 <= i < |Text(m)| ==> !IsSpace(Text(m)[i]) && Text(m)[i] != EQUALS
    ensures DASH in Text(m) <==> m.PortRange?
    ensures m.OnePort? ==> COLON !in Text(m)
    ensures m.HostPort? || m.BracketedPort? ==> COLON in Text(m)
  {
    match m
    case PortRange(a, b) => assert Text(m)[|Decimal(a)|] == DASH;
    case HostPort(h, p) => assert Text(m)[|h|] == COLON;
    case BracketedPort(h, p) => assert Text(m)[|h| + 2] == COLON;
    case _ =>
  }

  lemma LocalIsText(m: Mapping, before: bytes, after: bytes, remote: Option<bytes>)
    requires Shaped(m) && AllSpace(before) && AllSpace(after)
    ensures Local(Written(m, before, after, remote)) == Text(m)
  {
    hide Text;
    var front, w := before + Text(m) + after, Written(m, before, after, remote);
    TextIsPlain(m);
    forall i | 0 <= i < |front| ensures front[i] != EQUALS {
      if |before| <= i < |before| + |Text(m)| {
        assert front[i] == Text(m)[i - |before|];
      }
    }
    if remote.Some? {
      assert w == front + [EQUALS] + remote.value;
      FirstByte(front, EQUALS, remote.value);
      assert w[..|front|] == front;
    } else {
      assert w == front;
    }
    TrimPadded(before, Text(m), after);
  }

  lemma TrimNone(s: bytes)
    requires s != [] && forall i :: 0 <= i < |s| ==> !IsSpace(s[i])
    ensures TrimSpace(s) == s
  {
    TrimPadded([], s, []);
    assert [] + s + [] == s;
  }

  lemma DigitsAreDigits(n: nat)
    ensures Digits(Decimal(n))
    ensures forall i :: 0 <= i < |Decimal(n)| ==> !IsSpace(Decimal(n)[i])
    ensures TrimSpace(Decimal(n)) == Decimal(n)
  {
    assert forall i :: 0 <= i < |Decimal(n)| ==> IsDigit(Decimal(n)[i]);
    TrimNone(Decimal(n));
  }

  /**
   * A mapping, written with any spacing and any remote side, is accepted exactly if its ports are
   * in range and in order, and then opens exactly the addresses it means.
   */
  lemma MappingRoundTrip(m: Mapping, before: bytes, after: bytes, remote: Option<bytes>)
    requires Shaped(m) && AllSpace(before) && AllSpace(after)
    ensures ListenAddrs(Written(m, before, after, remote)) == if ValidMapping(m) then Ok(Opens(m)) else Err(Refusal(m))
  {
    hide TrimSpace, Atoi, Decimal, Local, Value, Written, HostText, BracketText, ParseHostPort, AllSpace;
    LocalIsText(m, before, after, remote);
    TextIsPlain(m);
    match m
    case OnePort(p) => AtoiDecimal(p);
    case PortRange(a, b) => RangeText(a, b);
    case HostPort(h, p) => TextAsIs(m); AddressRoundTrip(h, p, [], []);
    case BracketedPort(h, p) => TextAsIs(m); BracketedRoundTrip(h, p, [], []);
  }

  lemma TextAsIs(m: Mapping)
    ensures [] + Text(m) + [] == Text(m) && AllSpace([])
  {
  }

  lemma RangeText(a: nat, b: nat)
    requires DASH in Text(PortRange(a, b))
    ensures RangeAddrs(Text(PortRange(a, b)))
      == if !InRange(a) then Err(BadStart) else if InRange(b) && a <= b then Ok(Range(a, b)) else Err(BadEnd)
  {
    hide TrimSpace, Atoi, Decimal, Value;
    var s, d := Text(PortRange(a, b)), Decimal(a);
    DigitsAreDigits(a);
    DigitsAreDigits(b);
    AtoiDecimal(a);
    AtoiDecimal(b);
    assert DASH !in d;
    FirstByte(d, DASH, Decimal(b));
    assert s == d + [DASH] + Decimal(b);
    assert s[..|d|] == d && s[|d| + 1..] == Decimal(b);
    assert DASH !in Decimal(b);
  }

  /** A host:port address, with any spacing, is read back exactly if the port is in range. */
  lemma AddressRoundTrip(h: bytes, p: nat, before: bytes, after: bytes)
    requires Unbracketed(h) && 58 !in h && AllSpace(before) && AllSpace(after)
    ensures ParseHostPort(before + HostText(h, p) + after) == if InRange(p) then Some(Addr(h, p)) else None
  {
    hide TrimSpace, Atoi, Decimal, Value, LastIndexByte, SplitHostPort, AllSpace;
    var s := HostText(h, p);
    DigitsAreDigits(p);
    assert s[0] == if h == [] then 58 else h[0];
    assert s[|s| - 1] == Decimal(p)[|Decimal(p)| - 1];
    TrimPadded(before, s, after);
    AtoiDecimal(p);
    assert COLON !in h && LBRACKET !in h && RBRACKET !in h;
    SplitPort(h, Some(Decimal(p)));
    LastColon(h, Decimal(p));
    assert s[|h| + 1..] == Decimal(p);
  }

  lemma BracketedRoundTrip(h: bytes, p: nat, before: bytes, after: bytes)
    requires Unbracketed(h) && AllSpace(before) && AllSpace(after)
    ensures ParseHostPort(before + BracketText(h, p) + after) == if InRange(p) then Some(Addr(h, p)) else None
  {
    hide TrimSpace, Atoi, Decimal, Value, LastIndexByte, SplitHostPort, AllSpace;
    var s, front := BracketText(h, p), [LBRACKET] + h + [RBRACKET];
    DigitsAreDigits(p);
    assert s[|s| - 1] == Decimal(p)[|Decimal(p)| - 1];
    TrimPadded(before, s, after);
    AtoiDecimal(p);
    SplitBracketed(h, Decimal(p));
    LastColon(front, Decimal(p));
    assert s[|front| + 1..] == Decimal(p);
  }

  /** An address without a colon is none. */
  lemma AddressNeedsColon(addr: bytes)
    requires 58 !in addr
    ensures ParseHostPort(addr) == None
  {
    TrimAmong(addr);
  }

  lemma TrimAmong(s: bytes)
    ensures forall c :: c in TrimSpace(s) ==> c in s
  {
    TrimSidesAmong(s);
    TrimSidesAmong(TrimLeft(s));
  }

  lemma {:induction false} TrimSidesAmong(s: bytes)
    ensures forall c :: c in TrimLeft(s) ==> c in s
    ensures forall c :: c in TrimRight(s) ==> c in s
    decreases |s|
  {
    if s != [] {
      var tail, front := s[1..], s[..|s| - 1];
      TrimSidesAmong(tail);
      TrimSidesAmong(front);
      assert s == [s[0]] + tail && s == front + [s[|s| - 1]];
      assert forall c :: c in tail || c in front ==> c in s;
    }
  }

  /** The five ways to say "every interface": nothing, "0.0.0.0", "::", "[::]" and "*", however padded. */
  lemma WildcardIff(host: bytes, before: bytes, after: bytes)
    requires AllSpace(before) && AllSpace(after)
    requires host != [] ==> !IsSpace(host[0]) && !IsSpace(host[|host| - 1])
    ensures IsWildcard(before + host + after) <==>
      || host == []
      || host == [48, 46, 48, 46, 48, 46, 48]
      || host == [58, 58]
      || host == [91, 58, 58, 93]
      || host == [42]
  {
    hide TrimSpace;
    if host == [] {
      SpacesTrim(before + host + after);
    } else {
      TrimPadded(before, host, after);
    }
  }

  lemma {:induction false} SpacesTrim(s: bytes)
    requires AllSpace(s)
    ensures TrimSpace(s) == []
  {
    TrimLeftSpaces(s, []);
    assert s + [] == s;
  }

  // ---- Numbers as written ----------------------------------------------

  predicate Signed(s: bytes) { s != [] && (s[0] == 43 || s[0] == 45) }

  /** A text is a number exactly if, after at most one sign, it is digits and not empty. */
  lemma NumberIff(s: bytes)
    ensures Signed(s) ==> (Atoi(s).Some? <==> |s| > 1 && forall i :: 1 <= i < |s| ==> 48 <= s[i] <= 57)
    ensures !Signed(s) ==> (Atoi(s).Some? <==> |s| > 0 && forall i :: 0 <= i < |s| ==> 48 <= s[i] <= 57)
  {
    if Signed(s) {
      assert forall i :: 1 <= i < |s| ==> s[1..][i - 1] == s[i];
    }
  }

  /** Numbers are decimal, and a minus sign makes them negative. */
  lemma NumbersRead(n: nat)
    ensures Atoi([43] + Decimal(n)) == Some(n) && Atoi([45] + Decimal(n)) == Some(-(n as int))
    ensures Decimal(65535) == [54, 53, 53, 51, 53]
  {
    AtoiDecimal(n);
    assert ([43] + Decimal(n))[1..] == Decimal(n) && ([45] + Decimal(n))[1..] == Decimal(n);
    assert Decimal(65) == Decimal(6) + [53] && Decimal(655) == Decimal(65) + [53];
    assert Decimal(6553) == Decimal(655) + [51] && Decimal(65535) == Decimal(6553) + [53];
  }

  lemma NotANumber(s: bytes, c: byte)
    requires c in s && !IsDigit(c) && c != PLUS && c != DASH
    ensures Atoi(s) == None
  {
    var k :| 0 <= k < |s| && s[k] == c;
    assert s[0] in {PLUS, DASH} ==> s[1..][k - 1] == c;
  }

  lemma {:induction false} TrimKeeps(s: bytes, c: byte)
    requires c in s && !IsSpace(c)
    ensures c in TrimLeft(s) && c in TrimRight(s)
    decreases |s|
  {
    var k :| 0 <= k < |s| && s[k] == c;
    if IsSpace(s[0]) {
      assert s[1..][k - 1] == c;
      TrimKeeps(s[1..], c);
    }
    if IsSpace(s[|s| - 1]) {
      assert s[..|s| - 1][k] == c;
      TrimKeeps(s[..|s| - 1], c);
    }
  }

  lemma TrimSpaceKeeps(s: bytes, c: byte)
    requires c in s && !IsSpace(c)
    ensures c in TrimSpace(s)
  {
    TrimKeeps(s, c);
    TrimKeeps(TrimLeft(s), c);
  }

  /**
   * A host with a dash is never accepted: the dash makes the entry a range, and what stands behind
   * it is no number, since the colon of the port is still there.
   */
  lemma DashedHostRefused(h: bytes, p: nat)
    requires 45 in h && forall i :: 0 <= i < |h| ==> !IsSpace(h[i]) && h[i] != 61
    ensures ListenAddrs(HostText(h, p)).Err?
  {
    hide TrimSpace, Atoi, Value, Decimal;
    var s := HostText(h, p);
    DigitsAreDigits(p);
    assert EQUALS !in s && forall i :: 0 <= i < |s| ==> !IsSpace(s[i]);
    TrimNone(s);
    assert Local(s) == s;
    var k :| 0 <= k < |h| && h[k] == DASH;
    assert s[k] == DASH;
    var dash := IndexByte(s, DASH);
    assert dash <= k;
    var end := s[dash + 1..];
    assert end[|h| - dash - 1] == COLON;
    TrimSpaceKeeps(end, COLON);
    NotANumber(TrimSpace(end), COLON);
  }

  /** A mapping with nothing in front of the "=" is refused, as is a range with more than two ends. */
  lemma EmptyLocalRefused(pad: bytes, remote: Option<bytes>)
    requires AllSpace(pad)
    ensures ListenAddrs(pad + (if remote.Some? then [61] + remote.value else [])) == Err(BadFormat)
  {
    hide TrimSpace;
    SpacesTrim(pad);
    if remote.Some? {
      assert pad + ([61] + remote.value) == pad + [EQUALS] + remote.value;
      FirstByte(pad, EQUALS, remote.value);
      assert (pad + ([61] + remote.value))[..|pad|] == pad;
    } else {
      assert pad + [] == pad;
      assert EQUALS !in pad;
    }
  }

  lemma ThreeEndsRefused(a: nat, b: nat, rest: bytes)
    requires forall i :: 0 <= i < |rest| ==> !IsSpace(rest[i]) && rest[i] != 61
    ensures ListenAddrs(Decimal(a) + [45] + (Decimal(b) + [45] + rest)) == Err(BadRange)
  {
    hide TrimSpace, Atoi, Value, Decimal;
    var front, back := Decimal(a), Decimal(b) + [45] + rest;
    var s := front + [45] + back;
    DigitsAreDigits(a);
    DigitsAreDigits(b);
    assert EQUALS !in s && forall i :: 0 <= i < |s| ==> !IsSpace(s[i]);
    TrimNone(s);
    FirstByte(front, DASH, back);
    assert s[|front|] == DASH;
    assert s[|front| + 1..] == back;
    assert back[|Decimal(b)|] == DASH;
  }
}
