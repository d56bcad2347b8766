/**
 * Writing ClientHellos and records, and that the reader in Sni finds what was written: whatever
 * else a hello contains (RFC 8446 section 4.1.2, RFC 6066 section 3) and however it is cut into
 * records (RFC 8446 section 5.1).
 */
module SniEncoding {
  import opened Bytes
  import opened HttpPreread
  import opened Sni

  // ---- server_name lists -----------------------------------------------

  datatype Entry = Entry(kind: byte, name: bytes)

  function EncodeEntries(entries: seq<Entry>): bytes {
    if entries == [] then []
    else [entries[0].kind] + PutU16(|entries[0].name|) + entries[0].name + EncodeEntries(entries[1..])
  }

  function ServerNameList(entries: seq<Entry>): bytes {
    PutU16(|EncodeEntries(entries)|) + EncodeEntries(entries)
  }

  /** The first host_name of a list, as the standard reads it; an empty one is refused. */
  function FirstHostName(entries: seq<Entry>): Name {
    if entries == [] then Err(NoHostName)
    else if entries[0].kind != 0 then FirstHostName(entries[1..])
    else if entries[0].name == [] then Err(EmptyHostName)
    else Ok(entries[0].name)
  }

  lemma Header16(front: bytes, n: nat, back: bytes)
    requires n < 0x1_0000
    ensures var s := front + PutU16(n) + back; U16(s[|front|], s[|front| + 1]) == n
  {
    U16RoundTrip(n);
  }

  lemma {:induction false} ScanEncoded(entries: seq<Entry>)
    requires |EncodeEntries(entries)| < 0x1_0000
    ensures ScanNames(EncodeEntries(entries)) == FirstHostName(entries)
  {
    if entries != [] {
      var e := entries[0];
      var s, rest := EncodeEntries(entries), EncodeEntries(entries[1..]);
      Header16([e.kind], |e.name|, e.name + rest);
      assert s == [e.kind] + PutU16(|e.name|) + (e.name + rest);
      assert s[3..3 + |e.name|] == e.name && s[3 + |e.name|..] == rest;
      ScanEncoded(entries[1..]);
    }
  }

  lemma ServerNameRoundTrip(entries: seq<Entry>)
    requires |EncodeEntries(entries)| < 0x1_0000
    ensures ParseServerName(ServerNameList(entries)) == FirstHostName(entries)
  {
    hide ScanNames, FirstHostName, EncodeEntries, PutU16, U16;
    var enc, s := EncodeEntries(entries), ServerNameList(entries);
    Header16([], |enc|, enc);
    assert [] + PutU16(|enc|) + enc == s;
    assert |s| == 2 + |enc| && U16(s[0], s[1]) == |enc|;
    assert s[2..2 + |enc|] == enc;
    ScanEncoded(entries);
  }

  // ---- Extensions ------------------------------------------------------

  datatype Extension = Extension(kind: nat, data: bytes)

  function EncodeExtensions(exts: seq<Extension>): bytes {
    if exts == [] then []
    else PutU16(exts[0].kind) + PutU16(|exts[0].data|) + exts[0].data + EncodeExtensions(exts[1..])
  }

  /** What the first server_name extension says. */
  function FirstServerName(exts: seq<Extension>): Name {
    if exts == [] then Err(NoServerName)
    else if exts[0].kind == 0 then ParseServerName(exts[0].data)
    else FirstServerName(exts[1..])
  }

  lemma {:induction false} ScanEncodedExtensions(exts: seq<Extension>)
    requires |EncodeExtensions(exts)| < 0x1_0000
    requires forall i :: 0 <= i < |exts| ==> exts[i].kind < 0x1_0000
    ensures ScanExtensions(EncodeExtensions(exts)) == FirstServerName(exts)
  {
    hide ParseServerName;
    if exts != [] {
      var e := exts[0];
      var s, rest := EncodeExtensions(exts), EncodeExtensions(exts[1..]);
      Header16([], e.kind, PutU16(|e.data|) + e.data + rest);
      Header16(PutU16(e.kind), |e.data|, e.data + rest);
      assert s == [] + PutU16(e.kind) + (PutU16(|e.data|) + e.data + rest);
      assert s == PutU16(e.kind) + PutU16(|e.data|) + (e.data + rest);
      assert s[4..4 + |e.data|] == e.data && s[4 + |e.data|..] == rest;
      ScanEncodedExtensions(exts[1..]);
    }
  }

  // ---- ClientHello -----------------------------------------------------

  datatype Hello = Hello(
    version: bytes, random: bytes, sessionId: bytes, ciphers: bytes, compression: bytes, extensions: seq<Extension>)

  ghost predicate Encodable(h: Hello) {
    && |h.version| == 2 && |h.random| == 32
    && |h.sessionId| < 256 && |h.ciphers| < 0x1_0000 && |h.compression| < 256
    && |EncodeExtensions(h.extensions)| < 0x1_0000
    && forall i :: 0 <= i < |h.extensions| ==> h.extensions[i].kind < 0x1_0000
  }

  /** Everything in front of the extension block. */
  function EncodeFront(h: Hello): bytes
    requires |h.sessionId| < 256 && |h.compression| < 256
  {
    h.version + h.random
    + ([|h.sessionId|] + h.sessionId)
    + (PutU16(|h.ciphers|) + h.ciphers)
    + ([|h.compression|] + h.compression)
  }

  function EncodeHello(h: Hello): bytes
    requires |h.sessionId| < 256 && |h.compression| < 256
  {
    EncodeFront(h) + PutU16(|EncodeExtensions(h.extensions)|) + EncodeExtensions(h.extensions)
  }

  lemma LengthsInPlace(v: bytes, s: bytes, c: bytes, k: bytes, x: bytes, y: bytes)
    requires s != [] && |c| >= 2 && k != []
    ensures var b := v + s + c + k + x + y;
      && b[|v|] == s[0] && b[|v| + |s|] == c[0] && b[|v| + |s| + 1] == c[1]
      && b[|v| + |s| + |c|] == k[0]
  {
  }

  lemma ExtensionsFound(h: Hello)
    requires Encodable(h)
    ensures ExtensionsAt(EncodeHello(h)) == Ok(|EncodeFront(h)| + 2)
  {
    hide EncodeExtensions, ExtensionsAt, PutU16, U16;
    var ext := EncodeExtensions(h.extensions);
    var v, s, c := h.version + h.random, [|h.sessionId|] + h.sessionId, PutU16(|h.ciphers|) + h.ciphers;
    var k, x := [|h.compression|] + h.compression, PutU16(|ext|);
    var b := EncodeHello(h);
    assert b == v + s + c + k + x + ext;
    LengthsInPlace(v, s, c, k, x, ext);
    LengthOfCiphers(h.ciphers);
    assert |v| == 34 && |s| == 1 + |h.sessionId| && |c| == 2 + |h.ciphers| && |k| == 1 + |h.compression|;
    assert b[34] == |h.sessionId|;
    assert |EncodeFront(h)| == |v| + |s| + |c| + |k|;
    ThreeLengths(b, |h.sessionId|, |h.ciphers|, |h.compression|);
  }

  lemma LengthOfCiphers(ciphers: bytes)
    requires |ciphers| < 0x1_0000
    ensures var c := PutU16(|ciphers|) + ciphers; U16(c[0], c[1]) == |ciphers|
  {
    Header16([], |ciphers|, ciphers);
    assert [] + PutU16(|ciphers|) + ciphers == PutU16(|ciphers|) + ciphers;
  }

  lemma ThreeLengths(b: bytes, sid: nat, ciphers: nat, compression: nat)
    requires 34 + 1 + sid + 2 + ciphers + 1 + compression + 2 <= |b|
    requires b[34] == sid && U16(b[35 + sid], b[36 + sid]) == ciphers && b[37 + sid + ciphers] == compression
    ensures ExtensionsAt(b) == Ok(34 + 1 + sid + 2 + ciphers + 1 + compression + 2)
  {
  }

  /**
   * Round trip: for any session id, cipher suites, compression methods and extensions, parsing the
   * encoding yields what the first server_name extension says.
   */
  lemma HelloRoundTrip(h: Hello)
    requires Encodable(h)
    ensures ParseHello(EncodeHello(h)) == FirstServerName(h.extensions)
  {
    hide ExtensionsAt, ScanExtensions, FirstServerName;
    var front, ext := EncodeFront(h), EncodeExtensions(h.extensions);
    ExtensionsFound(h);
    Header16(front, |ext|, ext);
    assert EncodeHello(h)[|front| + 2..|front| + 2 + |ext|] == ext;
    ScanEncodedExtensions(h.extensions);
  }

  /** So a hello that names a host, behind any other extensions, is routed to that host. */
  lemma {:induction false} HelloNamesHost(h: Hello, k: nat, entries: seq<Entry>)
    requires Encodable(h) && k < |h.extensions|
    requires forall i :: 0 <= i < k ==> h.extensions[i].kind != 0
    requires h.extensions[k] == Extension(0, ServerNameList(entries))
    requires |EncodeEntries(entries)| < 0x1_0000
    ensures ParseHello(EncodeHello(h)) == FirstHostName(entries)
  {
    hide ParseServerName, ParseHello;
    HelloRoundTrip(h);
    SkipOthers(h.extensions, k);
    ServerNameRoundTrip(entries);
  }

  lemma {:induction false} SkipOthers(exts: seq<Extension>, k: nat)
    requires k < |exts| && forall i :: 0 <= i < k ==> exts[i].kind != 0
    requires exts[k].kind == 0
    ensures FirstServerName(exts) == ParseServerName(exts[k].data)
  {
    hide ParseServerName;
    if k > 0 {
      SkipOthers(exts[1..], k - 1);
    }
  }

  // ---- Records ---------------------------------------------------------

  datatype Fragment = Fragment(version: bytes, body: bytes)

  ghost predicate Complete(frags: seq<Fragment>) {
    forall i :: 0 <= i < |frags| ==> |frags[i].version| == 2 && 1 <= |frags[i].body| < 0x1_0000
  }

  function EncodeRecord(f: Fragment): bytes {
    [22] + f.version + PutU16(|f.body|) + f.body
  }

  function Wire(frags: seq<Fragment>): bytes {
    if frags == [] then [] else EncodeRecord(frags[0]) + Wire(frags[1..])
  }

  function Bodies(frags: seq<Fragment>): bytes {
    if frags == [] then [] else frags[0].body + Bodies(frags[1..])
  }

  /** A handshake message that announces itself as a ClientHello with this body. */
  function Message(body: bytes): bytes
    requires |body| < 0x100_0000
  {
    [1, |body| / 0x1_0000] + PutU16(|body| % 0x1_0000) + body
  }

  lemma RecordRead(f: Fragment, rest: bytes, raw: nat)
    requires |f.version| == 2 && 1 <= |f.body| < 0x1_0000 && raw + 5 + |f.body| <= 65536
    ensures Record(EncodeRecord(f) + rest, raw) == Ok(f.body)
  {
    var s := EncodeRecord(f) + rest;
    Header16([22] + f.version, |f.body|, f.body + rest);
    assert s == [22] + f.version + PutU16(|f.body|) + (f.body + rest);
    assert s[5..5 + |f.body|] == f.body;
  }

  /** Reading whole records until the whole message is there takes exactly those records. */
  lemma {:induction false} AssembleWire(s: bytes, a: Assembly, frags: seq<Fragment>, tail: bytes, need: nat)
    requires a.raw <= |s| && Complete(frags) && s[a.raw..] == Wire(frags) + tail
    requires need == |a.hs| + |Bodies(frags)|
    requires a.raw + |Wire(frags)| <= 65536
    ensures Assemble(s, a, need) == Ok(Assembly(a.hs + Bodies(frags), a.raw + |Wire(frags)|))
    decreases |frags|
  {
    hide Record;
    if frags == [] {
      assert a.hs + Bodies(frags) == a.hs;
    } else {
      var f, rest := frags[0], Wire(frags[1..]) + tail;
      assert s[a.raw..] == EncodeRecord(f) + rest;
      RecordRead(f, rest, a.raw);
      var next := Assembly(a.hs + f.body, a.raw + 5 + |f.body|);
      assert s[next.raw..] == s[a.raw..][5 + |f.body|..] == rest;
      AssembleWire(s, next, frags[1..], tail, need);
      assert next.hs + Bodies(frags[1..]) == a.hs + Bodies(frags);
    }
  }

  lemma RecordFits(s: bytes, raw: nat)
    requires Record(s, raw).Ok?
    ensures 5 + |Record(s, raw).value| <= |s|
  {
  }

  /** Reading in two stages is reading in one; the first stage sees the front of the message. */
  lemma {:induction false} AssembleStages(s: bytes, a: Assembly, n1: nat, n2: nat)
    requires a.raw <= |s| && n1 <= n2 && Assemble(s, a, n2).Ok?
    ensures var head := Assemble(s, a, n1);
      && head.Ok? && head.value.raw <= |s|
      && Assemble(s, head.value, n2) == Assemble(s, a, n2)
      && |head.value.hs| >= n1
      && head.value.hs <= Assemble(s, a, n2).value.hs && a.hs <= Assemble(s, a, n2).value.hs
    decreases |s| - a.raw
  {
    hide Record;
    if |a.hs| < n2 {
      var body := Record(s[a.raw..], a.raw).value;
      RecordFits(s[a.raw..], a.raw);
      var next := Assembly(a.hs + body, a.raw + 5 + |body|);
      AssembleStages(s, next, n1, n2);
    }
  }

  lemma LengthOfMessage(body: bytes)
    requires |body| < 0x100_0000
    ensures HelloLength(Message(body)) == |body| && |Message(body)| == 4 + |body|
    ensures Message(body)[4..] == body
  {
    var hi, lo := |body| / 0x1_0000, |body| % 0x1_0000;
    U16RoundTrip(lo);
    assert |body| == hi * 0x1_0000 + lo;
  }

  /**
   * Record-fragmentation independence: any way of cutting one ClientHello into complete records
   * that fit in 64 KiB, followed by anything, is read as that ClientHello and consumes exactly
   * those records.
   */
  lemma FragmentationIndependent(frags: seq<Fragment>, body: bytes, tail: bytes)
    requires |body| < 0x100_0000 && Complete(frags) && Bodies(frags) == Message(body)
    requires |Wire(frags)| <= 65536
    ensures OneShotSni(Wire(frags) + tail) ==
      match ParseHello(body)
      case Err(e) => Err(e)
      case Ok(name) => Ok((NormalizeSni(name), |Wire(frags)|))
  {
    hide Assemble, ParseHello, Record;
    var s, start, msg := Wire(frags) + tail, Assembly([], 0), Message(body);
    assert s[0..] == s && [] + Bodies(frags) == msg;
    LengthOfMessage(body);
    BodiesInWire(frags);
    AssembleWire(s, start, frags, tail, |msg|);
    AssembleStages(s, start, 4, |msg|);
    var head := Assemble(s, start, 4).value;
    assert head.hs == msg[..|head.hs|];
    assert HelloLength(head.hs) == HelloLength(msg);
    assert msg[4..|msg|] == body;
  }

  lemma {:induction false} BodiesInWire(frags: seq<Fragment>)
    ensures |Bodies(frags)| <= |Wire(frags)|
  {
    if frags != [] {
      BodiesInWire(frags[1..]);
    }
  }

  /** Two servers, two splits, one decision. */
  lemma SplitsAgree(a: seq<Fragment>, b: seq<Fragment>, body: bytes, tailA: bytes, tailB: bytes)
    requires |body| < 0x100_0000 && Complete(a) && Complete(b)
    requires Bodies(a) == Message(body) == Bodies(b)
    requires |Wire(a)| <= 65536 && |Wire(b)| <= 65536
    ensures var x, y := OneShotSni(Wire(a) + tailA), OneShotSni(Wire(b) + tailB);
      if x.Ok? then y.Ok? && x.value.0 == y.value.0 else x == y
  {
    hide OneShotSni, ParseHello;
    FragmentationIndependent(a, body, tailA);
    FragmentationIndependent(b, body, tailB);
  }
}
