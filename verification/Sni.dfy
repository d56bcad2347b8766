/**
 * SNI routing without terminating TLS: reassembling the ClientHello from records (RFC 8446 section
 * 5.1), finding server_name in it (RFC 8446 section 4.1.2, RFC 6066 section 3), and normalizing it.
 */
module Sni {
  import opened Bytes
  import opened Net
  import opened HttpPreread

  const MAX_CLIENT_HELLO: nat := 64 * 1024
  const RECORD_HANDSHAKE: byte := 0x16
  const CLIENT_HELLO: byte := 0x01
  const SERVER_NAME: nat := 0
  const HOST_NAME: byte := 0

  datatype SniError =
    | NotHandshake | EmptyRecord | TooLarge | ReadFailed | NotClientHello
    | Malformed | NoExtensions | NoServerName | NoHostName | EmptyHostName

  type Name = Result<bytes, SniError>

  /** NormalizeSNIHost: one trailing dot goes, nothing else is stripped. */
  function NormalizeSni(s: bytes): bytes { TrimSuffixDot(ToLower(TrimSpace(s))) }

  /** Surrounding space, letter case and one trailing dot never change the key of a server name. */
  lemma NormalizeSniForgetsSpelling(h: bytes, spelled: bytes, dot: bool, before: bytes, after: bytes)
    requires Settled(h) && h[|h| - 1] != DOT && Spells(spelled, h)
    requires AllSpace(before) && AllSpace(after)
    ensures NormalizeSni(before + Spell(spelled, dot, None) + after) == h
  {
    LowerIffSpells(spelled, h);
    hide TrimSpace, ToLower;
    var full, n := Spell(spelled, dot, None), |spelled|;
    assert Lower(spelled[0]) == h[0] && full[0] == spelled[0];
    assert Lower(spelled[n - 1]) == h[n - 1];
    TrimPadded(before, full, after);
    LowerSpelled(h, spelled, dot, None);
    assert Spell(h, false, None) == h && Spell(h, true, None) == h + [DOT];
    assert (h + [DOT])[..|h|] == h;
  }

  /** Two server names that differ only in the case of letters have the same key. */
  lemma SniCaseForgotten(a: bytes, b: bytes)
    requires Spells(a, b)
    ensures NormalizeSni(a) == NormalizeSni(b)
  {
    hide TrimSpace, ToLower;
    CaseForgotten(a, b);
  }

  // ---- The ClientHello body --------------------------------------------

  /** The entries of a server_name_list. */
  function ScanNames(s: bytes): Name {
    if |s| < 3 then Err(NoHostName)
    else
      var end := 3 + U16(s[1], s[2]);
      if end > |s| then Err(Malformed)
      else if s[0] != HOST_NAME then ScanNames(s[end..])
      else if end == 3 then Err(EmptyHostName)
      else Ok(s[3..end])
  }

  function ParseServerName(b: bytes): Name {
    if |b| < 2 then Err(Malformed)
    else
      var end := 2 + U16(b[0], b[1]);
      ScanNames(b[2..if end > |b| then |b| else end])
  }

  function ScanExtensions(s: bytes): Name {
    if |s| < 4 then Err(NoServerName)
    else
      var end := 4 + U16(s[2], s[3]);
      if end > |s| then Err(Malformed)
      else if U16(s[0], s[1]) == SERVER_NAME then ParseServerName(s[4..end])
      else ScanExtensions(s[end..])
  }

  /** Where the extensions of a ClientHello body start, behind their length. */
  function ExtensionsAt(b: bytes): Result<nat, SniError> {
    if |b| < 34 || 35 > |b| then Err(Malformed)
    else
      var ciphers: int := 35 + (b[34] as int);
      if ciphers + 2 > |b| then Err(Malformed)
      else
        var compression := ciphers + 2 + U16(b[ciphers], b[ciphers + 1]);
        if compression + 1 > |b| then Err(Malformed)
        else
          var extensions := compression + 1 + (b[compression] as int);
          if extensions + 2 > |b| then Err(NoExtensions) else Ok(extensions + 2)
  }

  function ParseHello(b: bytes): Name {
    match ExtensionsAt(b)
    case Err(e) => Err(e)
    case Ok(pos) =>
      var end := pos + U16(b[pos - 2], b[pos - 1]);
      ScanExtensions(b[pos..if end > |b| then |b| else end])
  }

  lemma SliceOfSlice(b: bytes, lo: nat, hi: nat, i: nat, j: nat)
    requires lo <= hi <= |b| && i <= j <= hi - lo
    ensures b[lo..hi][i..j] == b[lo + i..lo + j]
    ensures b[lo..hi][j..] == b[lo + j..hi]
  {
    var s := b[lo..hi];
    forall k | 0 <= k < j - i ensures s[i..j][k] == b[lo + i..lo + j][k] {
      assert s[i + k] == b[lo + i + k];
    }
  }

  method ParseServerNameExtension(b: bytes) returns (r: Name)
    ensures r == ParseServerName(b)
  {
    hide U16;
    if |b| < 2 {
      return Err(Malformed);
    }
    var listLen := U16(b[0], b[1]);
    var pos := 2;
    var end := pos + listLen;
    if end > |b| {
      end := |b|;
    }
    while pos + 3 <= end
      invariant 2 <= pos <= end <= |b|
      invariant ParseServerName(b) == ScanNames(b[pos..end])
    {
      var nameType := b[pos];
      var nameLen := U16(b[pos + 1], b[pos + 2]);
      ghost var s := b[pos..end];
      assert s[0] == nameType && s[1] == b[pos + 1] && s[2] == b[pos + 2];
      if pos + 3 + nameLen <= end {
        SliceOfSlice(b, pos, end, 3, 3 + nameLen);
      }
      pos := pos + 3;
      if pos + nameLen > end {
        return Err(Malformed);
      }
      if nameType == HOST_NAME {
        if nameLen == 0 {
          return Err(EmptyHostName);
        }
        return Ok(b[pos..pos + nameLen]);
      }
      pos := pos + nameLen;
    }
    return Err(NoHostName);
  }

  /** parseSNIFromClientHello: every index is in range and the scan ends, on any bytes. */
  method ParseSniFromClientHello(b: bytes) returns (r: Name)
    ensures r == ParseHello(b)
  {
    hide ScanExtensions;
    if |b| < 34 {
      return Err(Malformed);
    }
    var pos := 34;
    if pos + 1 > |b| {
      return Err(Malformed);
    }
    pos := pos + 1 + (b[pos] as int);
    if pos + 2 > |b| {
      return Err(Malformed);
    }
    pos := pos + 2 + U16(b[pos], b[pos + 1]);
    if pos + 1 > |b| {
      return Err(Malformed);
    }
    pos := pos + 1 + (b[pos] as int);
    if pos + 2 > |b| {
      return Err(NoExtensions);
    }
    var extTotal := U16(b[pos], b[pos + 1]);
    pos := pos + 2;
    var end := pos + extTotal;
    if end > |b| {
      end := |b|;
    }
    r := FindServerName(b, pos, end);
  }

  method FindServerName(b: bytes, start: nat, end: nat) returns (r: Name)
    requires start <= end <= |b|
    ensures r == ScanExtensions(b[start..end])
  {
    hide ParseServerName;
    var pos := start;
    while pos + 4 <= end
      invariant start <= pos <= end
      invariant ScanExtensions(b[start..end]) == ScanExtensions(b[pos..end])
    {
      var extType := U16(b[pos], b[pos + 1]);
      var extLen := U16(b[pos + 2], b[pos + 3]);
      ghost var s := b[pos..end];
      assert s[0] == b[pos] && s[1] == b[pos + 1] && s[2] == b[pos + 2] && s[3] == b[pos + 3];
      if pos + 4 + extLen <= end {
        SliceOfSlice(b, pos, end, 4, 4 + extLen);
      }
      pos := pos + 4;
      if pos + extLen > end {
        return Err(Malformed);
      }
      if extType == SERVER_NAME {
        r := ParseServerNameExtension(b[pos..pos + extLen]);
        return;
      }
      pos := pos + extLen;
    }
    return Err(NoServerName);
  }

  // ---- Records ---------------------------------------------------------

  /** The body of the record that starts the stream, when `raw` bytes were read before it. */
  function Record(s: bytes, raw: nat): Result<bytes, SniError> {
    if |s| < 5 then Err(SniError.ReadFailed)
    else if s[0] != RECORD_HANDSHAKE then Err(NotHandshake)
    else
      var recLen := U16(s[3], s[4]);
      if recLen == 0 then Err(EmptyRecord)
      else if raw + 5 + recLen > MAX_CLIENT_HELLO then Err(TooLarge)
      else if |s| < 5 + recLen then Err(SniError.ReadFailed)
      else Ok(s[5..5 + recLen])
  }

  /** What has been put together so far: `hs` out of the first `raw` bytes of the stream. */
  datatype Assembly = Assembly(hs: bytes, raw: nat)

  /** Reads records until `need` bytes of handshake are there. */
  function Assemble(s: bytes, a: Assembly, need: nat): Result<Assembly, SniError>
    requires a.raw <= |s|
    decreases |s| - a.raw
  {
    if |a.hs| >= need then Ok(a)
    else match Record(s[a.raw..], a.raw)
      case Err(e) => Err(e)
      case Ok(body) => Assemble(s, Assembly(a.hs + body, a.raw + 5 + |body|), need)
  }

  function HelloLength(hs: bytes): nat
    requires |hs| >= 4
  {
    (hs[1] as int) * 0x1_0000 + (hs[2] as int) * 0x100 + hs[3]
  }

  /** The routing decision of the SNI gateway and how many bytes it consumes, from the stream alone. */
  function OneShotSni(s: bytes): Result<(bytes, nat), SniError> {
    match Assemble(s, Assembly([], 0), 4)
    case Err(e) => Err(e)
    case Ok(head) =>
      AssembledEnough(s, Assembly([], 0), 4);
      if head.hs[0] != CLIENT_HELLO then Err(NotClientHello)
      else
        var need := 4 + HelloLength(head.hs);
        if need > 4 + MAX_CLIENT_HELLO then Err(TooLarge)
        else match Assemble(s, head, need)
          case Err(e) => Err(e)
          case Ok(all) =>
            AssembledEnough(s, head, need);
            match ParseHello(all.hs[4..need])
            case Err(e) => Err(e)
            case Ok(name) => Ok((NormalizeSni(name), all.raw))
  }

  lemma {:induction false} AssembledEnough(s: bytes, a: Assembly, need: nat)
    requires a.raw <= |s|
    ensures var r := Assemble(s, a, need);
      r.Ok? ==> (
        && |r.value.hs| >= need && a.raw <= r.value.raw <= |s|
        && (a.raw <= MAX_CLIENT_HELLO ==> r.value.raw <= MAX_CLIENT_HELLO))
    decreases |s| - a.raw
  {
    if |a.hs| < need {
      var rec := Record(s[a.raw..], a.raw);
      if rec.Ok? {
        AssembledEnough(s, Assembly(a.hs + rec.value, a.raw + 5 + |rec.value|), need);
      }
    }
  }

  /** readRecord: appends one record to what was read and its body to the handshake. */
  method ReadRecord(conn: Conn, raw: bytes, handshake: bytes, ghost s: bytes)
      returns (err: Option<SniError>, raw': bytes, handshake': bytes)
    requires |raw| <= |s| && raw == s[..|raw|] && conn.Reach() == |s| - |raw| && s[|raw|..] <= conn.incoming
    modifies conn`incoming, conn`inTime
    ensures conn.inTime.Some? <==> old(conn.inTime).Some?
    ensures match Record(s[|raw|..], |raw|)
      case Err(e) => err == Some(e) && raw' == raw
      case Ok(body) =>
        && err == None && handshake' == handshake + body
        && |raw'| == |raw| + 5 + |body| && |raw'| <= |s| && raw' == s[..|raw'|]
        && conn.Reach() == |s| - |raw'| && conn.incoming == old(conn.incoming)[5 + |body|..]
        && s[|raw'|..] <= conn.incoming
  {
    hide U16, Record;
    raw', handshake' := raw, handshake;
    ghost var rest := s[|raw|..];
    RecordCases(rest, |raw|);
    var header := new byte[5];
    var n, e := ReadFull(conn, header, 5);
    if e {
      return Some(SniError.ReadFailed), raw, handshake;
    }
    Front(header[..5], rest, old(conn.incoming));
    if header[0] != RECORD_HANDSHAKE {
      return Some(NotHandshake), raw, handshake;
    }
    var recLen := U16(header[3], header[4]);
    if recLen == 0 {
      return Some(EmptyRecord), raw, handshake;
    }
    if |raw| + 5 + recLen > MAX_CLIENT_HELLO {
      return Some(TooLarge), raw, handshake;
    }
    var body := new byte[recLen];
    n, e := ReadFull(conn, body, recLen);
    if e {
      return Some(SniError.ReadFailed), raw, handshake;
    }
    RecordBytes(old(conn.incoming), s, |raw|, recLen);
    raw' := raw + header[..5] + body[..recLen];
    handshake' := handshake + body[..recLen];
    return None, raw', handshake';
  }

  /** What the first five bytes, and then the length in them, decide. */
  lemma RecordCases(s: bytes, raw: nat)
    ensures |s| < 5 ==> Record(s, raw) == Err(SniError.ReadFailed)
    ensures |s| >= 5 && s[0] != RECORD_HANDSHAKE ==> Record(s, raw) == Err(NotHandshake)
    ensures |s| >= 5 && s[0] == RECORD_HANDSHAKE ==>
      var recLen := U16(s[3], s[4]);
      Record(s, raw) ==
        if recLen == 0 then Err(EmptyRecord)
        else if raw + 5 + recLen > MAX_CLIENT_HELLO then Err(TooLarge)
        else if |s| < 5 + recLen then Err(SniError.ReadFailed)
        else Ok(s[5..5 + recLen])
  {
  }

  lemma Front(header: bytes, rest: bytes, stream: bytes)
    requires |header| == 5 <= |rest| && rest <= stream && header == stream[..5]
    ensures header[0] == rest[0] && header[3] == rest[3] && header[4] == rest[4]
  {
  }

  lemma RecordBytes(stream: bytes, s: bytes, i: nat, recLen: nat)
    requires i + 5 + recLen <= |s| && s[i..] <= stream
    ensures stream[..5] == s[i..][..5]
    ensures stream[5..][..recLen] == s[i..][5..5 + recLen]
    ensures stream[5..][recLen..] == stream[5 + recLen..]
    ensures s[i + 5 + recLen..] <= stream[5 + recLen..]
    ensures s[..i] + stream[..5] + stream[5..][..recLen] == s[..i + 5 + recLen]
  {
    var rest := s[i..];
    assert stream[..|rest|] == rest;
    assert forall k :: 0 <= k < |rest| ==> stream[k] == rest[k] == s[i + k];
    assert stream[5 + recLen..][..|rest| - 5 - recLen] == rest[5 + recLen..] == s[i + 5 + recLen..];
  }

  /** The loop that reads records until `need` bytes of the handshake message are there. */
  method ReadUntil(conn: Conn, need: nat, raw: bytes, handshake: bytes, ghost s: bytes)
      returns (err: Option<SniError>, raw': bytes, handshake': bytes)
    requires |raw| <= |s| && raw == s[..|raw|] && conn.Reach() == |s| - |raw| && s[|raw|..] <= conn.incoming
    modifies conn`incoming, conn`inTime
    ensures |raw'| <= |s| && raw' == s[..|raw'|]
    ensures match Assemble(s, Assembly(handshake, |raw|), need)
      case Err(e) => err == Some(e)
      case Ok(all) =>
        && err == None && all == Assembly(handshake', |raw'|) && |raw'| >= |raw|
        && conn.Reach() == |s| - |raw'| && conn.incoming == old(conn.incoming)[|raw'| - |raw|..]
        && s[|raw'|..] <= conn.incoming
  {
    hide Record;
    err, raw', handshake' := None, raw, handshake;
    while |handshake'| < need
      invariant err == None && |raw| <= |raw'| <= |s| && raw' == s[..|raw'|]
      invariant conn.Reach() == |s| - |raw'| && s[|raw'|..] <= conn.incoming
      invariant conn.incoming == old(conn.incoming)[|raw'| - |raw|..]
      invariant Assemble(s, Assembly(handshake', |raw'|), need) == Assemble(s, Assembly(handshake, |raw|), need)
      decreases |s| - |raw'|
    {
      ghost var before := |raw'|;
      err, raw', handshake' := ReadRecord(conn, raw', handshake', s);
      if err.Some? {
        return;
      }
      assert old(conn.incoming)[before - |raw|..][|raw'| - before..] == old(conn.incoming)[|raw'| - |raw|..];
    }
  }

  /**
   * ReadTLSClientHelloSNI. The outcome is a function of the bytes that arrive in time, however they
   * are cut into reads; on success exactly the bytes handed back were consumed, at most 64 KiB.
   */
  method ReadTLSClientHelloSNI(conn: Conn, arrive: nat) returns (r: Name, firstBytes: bytes)
    requires !conn.closed && arrive <= |conn.incoming|
    modifies conn`incoming, conn`inTime
    ensures conn.inTime == None
    ensures |firstBytes| <= arrive && firstBytes == old(conn.incoming)[..|firstBytes|]
    ensures match OneShotSni(old(conn.incoming)[..arrive])
      case Err(e) => r == Err(e)
      case Ok((name, raw)) =>
        && r == Ok(name) && |firstBytes| == raw <= 65536
        && conn.incoming == old(conn.incoming)[raw..]
  {
    ghost var s := conn.incoming[..arrive];
    conn.SetReadDeadline(arrive);
    r, firstBytes := ReadHello(conn, s);
    assert old(conn.incoming)[..|firstBytes|] == s[..|firstBytes|];
    conn.ClearReadDeadline();
  }

  method ReadHello(conn: Conn, ghost s: bytes) returns (r: Name, raw: bytes)
    requires conn.Reach() == |s| && s <= conn.incoming
    modifies conn`incoming, conn`inTime
    ensures |raw| <= |s| && raw == s[..|raw|]
    ensures match OneShotSni(s)
      case Err(e) => r == Err(e)
      case Ok((name, n)) =>
        r == Ok(name) && |raw| == n <= MAX_CLIENT_HELLO && conn.incoming == old(conn.incoming)[n..]
  {
    hide Record, Assemble, ParseHello;
    var handshake: bytes;
    var err;
    assert s[0..] == s;
    err, raw, handshake := ReadUntil(conn, 4, [], [], s);
    if err.Some? {
      return Err(err.value), raw;
    }
    AssembledEnough(s, Assembly([], 0), 4);
    if handshake[0] != CLIENT_HELLO {
      return Err(NotClientHello), raw;
    }
    var hsLen := HelloLength(handshake);
    if hsLen > MAX_CLIENT_HELLO {
      return Err(TooLarge), raw;
    }
    ghost var head := Assembly(handshake, |raw|);
    ghost var half := conn.incoming;
    err, raw, handshake := ReadUntil(conn, 4 + hsLen, raw, handshake, s);
    if err.Some? {
      return Err(err.value), raw;
    }
    AssembledEnough(s, head, 4 + hsLen);
    assert old(conn.incoming)[head.raw..][|raw| - head.raw..] == old(conn.incoming)[|raw|..];
    var host := ParseSniFromClientHello(handshake[4..4 + hsLen]);
    if host.Err? {
      return Err(host.error), raw;
    }
    return Ok(NormalizeSni(host.value)), raw;
  }
}
