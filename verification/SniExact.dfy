/**
 * Exactly which bytes make a name come out: the converse of what SniEncoding says of written
 * hellos. Nothing but complete handshake records, a ClientHello and a host_name entry in its first
 * server_name extension can select a route.
 */
module SniExact {
  import opened Bytes
  import opened HttpPreread
  import opened Sni
  import opened SniEncoding

  lemma Put16(hi: byte, lo: byte)
    ensures PutU16(U16(hi, lo)) == [hi, lo] && U16(hi, lo) < 65536
  {
    BigEndian16(hi, lo);
  }

  // ---- Names -----------------------------------------------------------

  /** The list starts with entries of other kinds, and then this non-empty host_name. */
  ghost predicate NameIn(s: bytes, others: seq<Entry>, name: bytes, rest: bytes) {
    && (forall i :: 0 <= i < |others| ==> others[i].kind != 0 && |others[i].name| < 65536)
    && 0 < |name| < 65536
    && s == EncodeEntries(others) + ([0] + PutU16(|name|) + name + rest)
  }

  lemma {:induction false} NameInScans(s: bytes, others: seq<Entry>, name: bytes, rest: bytes)
    requires NameIn(s, others, name, rest)
    ensures ScanNames(s) == Ok(name)
    decreases |others|
  {
    hide PutU16, U16;
    if others == [] {
      var t := [0] + PutU16(|name|) + name + rest;
      Header16([0], |name|, name + rest);
      assert s == t == [0] + PutU16(|name|) + (name + rest);
      assert s[3..3 + |name|] == name;
    } else {
      var e, more := others[0], EncodeEntries(others[1..]) + ([0] + PutU16(|name|) + name + rest);
      Header16([e.kind], |e.name|, e.name + more);
      assert s == [e.kind] + PutU16(|e.name|) + (e.name + more);
      assert s[3 + |e.name|..] == more;
      NameInScans(more, others[1..], name, rest);
    }
  }

  lemma MoreEntries(e: Entry, others: seq<Entry>, tail: bytes)
    ensures EncodeEntries([e] + others) + tail
      == [e.kind] + PutU16(|e.name|) + e.name + (EncodeEntries(others) + tail)
  {
    hide PutU16;
    assert ([e] + others)[1..] == others;
    var front := [e.kind] + PutU16(|e.name|) + e.name;
    assert front + EncodeEntries(others) + tail == front + (EncodeEntries(others) + tail);
  }

  lemma OneEntry(s: bytes)
    requires |s| >= 3 && 3 + U16(s[1], s[2]) <= |s|
    ensures var end := 3 + U16(s[1], s[2]);
      end < 3 + 65536 && s == [s[0]] + PutU16(end - 3) + s[3..end] + s[end..]
  {
    Put16(s[1], s[2]);
    hide PutU16, U16;
    var end := 3 + U16(s[1], s[2]);
    assert s == [s[0]] + [s[1], s[2]] + s[3..end] + s[end..];
  }

  lemma NoEntries(tail: bytes)
    ensures EncodeEntries([]) + tail == tail
  {
  }

  lemma {:induction false} ScansNameIn(s: bytes, name: bytes) returns (others: seq<Entry>, rest: bytes)
    requires ScanNames(s) == Ok(name)
    ensures NameIn(s, others, name, rest)
    decreases |s|
  {
    OneEntry(s);
    hide PutU16, U16, EncodeEntries;
    var end := 3 + U16(s[1], s[2]);
    if s[0] == 0 {
      others, rest := [], s[end..];
      NoEntries([0] + PutU16(|name|) + name + rest);
    } else {
      others, rest := ScansNameIn(s[end..], name);
      NameBehind(Entry(s[0], s[3..end]), s[end..], others, name, rest);
      others := [Entry(s[0], s[3..end])] + others;
    }
  }

  lemma NameBehind(e: Entry, s: bytes, others: seq<Entry>, name: bytes, rest: bytes)
    requires NameIn(s, others, name, rest) && e.kind != 0 && |e.name| < 65536
    ensures NameIn([e.kind] + PutU16(|e.name|) + e.name + s, [e] + others, name, rest)
  {
    hide PutU16, EncodeEntries;
    MoreEntries(e, others, [0] + PutU16(|name|) + name + rest);
  }

  /** On any bytes: the scan gives a name exactly if it is the first host_name of well-formed entries. */
  lemma ScanNamesIff(s: bytes, name: bytes)
    ensures ScanNames(s) == Ok(name) <==> exists others, rest :: NameIn(s, others, name, rest)
  {
    hide NameIn, ScanNames;
    if ScanNames(s) == Ok(name) {
      var others, rest := ScansNameIn(s, name);
    }
    if others, rest :| NameIn(s, others, name, rest) {
      NameInScans(s, others, name, rest);
    }
  }

  // ---- Extensions ------------------------------------------------------

  /** The block starts with extensions of other kinds, and then a server_name extension with this data. */
  ghost predicate ExtensionIn(s: bytes, others: seq<Extension>, data: bytes, rest: bytes) {
    && (forall i :: 0 <= i < |others| ==> 0 < others[i].kind < 65536 && |others[i].data| < 65536)
    && |data| < 65536
    && s == EncodeExtensions(others) + (PutU16(0) + PutU16(|data|) + data + rest)
  }

  lemma {:induction false} ExtensionInScans(s: bytes, others: seq<Extension>, data: bytes, rest: bytes)
    requires ExtensionIn(s, others, data, rest)
    ensures ScanExtensions(s) == ParseServerName(data)
    decreases |others|
  {
    hide PutU16, U16, ParseServerName, EncodeExtensions;
    var last := PutU16(0) + PutU16(|data|) + data + rest;
    if others == [] {
      NoExtensionsYet(last);
      ReadsExtension(0, data, rest);
    } else {
      var e, more := others[0], EncodeExtensions(others[1..]) + last;
      assert others == [e] + others[1..];
      MoreExtensions(e, others[1..], last);
      ReadsExtension(e.kind, e.data, more);
      ExtensionInScans(more, others[1..], data, rest);
    }
  }

  /** The fields of an extension, read off the front of what it is written to. */
  lemma ReadsExtension(kind: nat, data: bytes, more: bytes)
    requires kind < 65536 && |data| < 65536
    ensures var s := PutU16(kind) + PutU16(|data|) + data + more;
      && |s| == 4 + |data| + |more| && U16(s[0], s[1]) == kind && U16(s[2], s[3]) == |data|
      && s[4..4 + |data|] == data && s[4 + |data|..] == more
  {
    hide PutU16, U16;
    var s := PutU16(kind) + PutU16(|data|) + data + more;
    Header16([], kind, PutU16(|data|) + data + more);
    Header16(PutU16(kind), |data|, data + more);
    assert s == [] + PutU16(kind) + (PutU16(|data|) + data + more);
    assert s == PutU16(kind) + PutU16(|data|) + (data + more);
  }

  lemma MoreExtensions(e: Extension, others: seq<Extension>, tail: bytes)
    ensures EncodeExtensions([e] + others) + tail
      == PutU16(e.kind) + PutU16(|e.data|) + e.data + (EncodeExtensions(others) + tail)
  {
    hide PutU16;
    assert ([e] + others)[1..] == others;
    var front := PutU16(e.kind) + PutU16(|e.data|) + e.data;
    assert front + EncodeExtensions(others) + tail == front + (EncodeExtensions(others) + tail);
  }

  lemma OneExtension(s: bytes)
    requires |s| >= 4 && 4 + U16(s[2], s[3]) <= |s|
    ensures var end := 4 + U16(s[2], s[3]);
      && end < 4 + 65536 && U16(s[0], s[1]) < 65536
      && s == PutU16(U16(s[0], s[1])) + PutU16(end - 4) + s[4..end] + s[end..]
  {
    Put16(s[0], s[1]);
    Put16(s[2], s[3]);
    hide PutU16, U16;
    var end := 4 + U16(s[2], s[3]);
    assert s == [s[0], s[1]] + [s[2], s[3]] + s[4..end] + s[end..];
  }

  lemma NoExtensionsYet(tail: bytes)
    ensures EncodeExtensions([]) + tail == tail
  {
  }

  lemma {:induction false} ScansExtensionIn(s: bytes, name: bytes)
      returns (others: seq<Extension>, data: bytes, rest: bytes)
    requires ScanExtensions(s) == Ok(name)
    ensures ExtensionIn(s, others, data, rest) && ParseServerName(data) == Ok(name)
    decreases |s|
  {
    OneExtension(s);
    hide PutU16, U16, EncodeExtensions, ParseServerName;
    var kind, end := U16(s[0], s[1]), 4 + U16(s[2], s[3]);
    if kind == 0 {
      others, data, rest := [], s[4..end], s[end..];
      NoExtensionsYet(PutU16(0) + PutU16(|data|) + data + rest);
    } else {
      var e := Extension(kind, s[4..end]);
      others, data, rest := ScansExtensionIn(s[end..], name);
      MoreExtensions(e, others, PutU16(0) + PutU16(|data|) + data + rest);
      others := [e] + others;
    }
  }

  /** On any bytes: the same for the extensions of a ClientHello. */
  lemma ScanExtensionsIff(s: bytes, name: bytes)
    ensures ScanExtensions(s) == Ok(name)
      <==> exists others, data, rest :: ExtensionIn(s, others, data, rest) && ParseServerName(data) == Ok(name)
  {
    hide ExtensionIn, ScanExtensions, ParseServerName;
    if ScanExtensions(s) == Ok(name) {
      var others, data, rest := ScansExtensionIn(s, name);
    }
    if others, data, rest :| ExtensionIn(s, others, data, rest) && ParseServerName(data) == Ok(name) {
      ExtensionInScans(s, others, data, rest);
    }
  }

  // ---- The lists around them -------------------------------------------

  /** As much of t as there is, up to n bytes: what an announced length is cut to. */
  function Upto(t: bytes, n: nat): bytes { if n <= |t| then t[..n] else t }

  ghost predicate Announced(b: bytes, n: nat, t: bytes) { n < 65536 && b == PutU16(n) + t }

  /** On any bytes: a server_name extension is an announced length and a list, which may be cut short. */
  lemma ServerNameIff(b: bytes, name: bytes)
    ensures ParseServerName(b) == Ok(name)
      <==> exists n: nat, t :: Announced(b, n, t) && ScanNames(Upto(t, n)) == Ok(name)
  {
    hide ScanNames;
    if |b| >= 2 {
      Put16(b[0], b[1]);
      var n, t := U16(b[0], b[1]), b[2..];
      hide PutU16, U16;
      assert b == [b[0], b[1]] + t;
      assert Announced(b, n, t);
      assert Upto(t, n) == b[2..if 2 + n > |b| then |b| else 2 + n];
    }
    if n: nat, t :| Announced(b, n, t) && ScanNames(Upto(t, n)) == Ok(name) {
      Header16([], n, t);
      assert b == [] + PutU16(n) + t;
      assert Upto(t, n) == b[2..if 2 + n > |b| then |b| else 2 + n];
    }
  }

  /** The fields of a ClientHello body in front of its extension block. */
  datatype Front = Front(head: bytes, sessionId: bytes, ciphers: bytes, compression: bytes)

  ghost predicate FrontFits(f: Front) {
    |f.head| == 34 && |f.sessionId| < 256 && |f.ciphers| < 65536 && |f.compression| < 256
  }

  function FrontBytes(f: Front): bytes
    requires |f.sessionId| < 256 && |f.compression| < 256
  {
    f.head + ([|f.sessionId|] + f.sessionId) + (PutU16(|f.ciphers|) + f.ciphers) + ([|f.compression|] + f.compression)
  }

  ghost predicate BodyIs(b: bytes, f: Front, n: nat, t: bytes) {
    FrontFits(f) && n < 65536 && b == FrontBytes(f) + PutU16(n) + t
  }

  lemma BodyIsAt(b: bytes, f: Front, n: nat, t: bytes)
    requires BodyIs(b, f, n, t)
    ensures var pos := |FrontBytes(f)| + 2;
      pos <= |b| && ExtensionsAt(b) == Ok(pos) && U16(b[pos - 2], b[pos - 1]) == n && b[pos..] == t
  {
    hide ExtensionsAt, PutU16, U16;
    var s, c, k := [|f.sessionId|] + f.sessionId, PutU16(|f.ciphers|) + f.ciphers, [|f.compression|] + f.compression;
    LengthsInPlace(f.head, s, c, k, PutU16(n), t);
    assert b == f.head + s + c + k + PutU16(n) + t;
    LengthOfCiphers(f.ciphers);
    ThreeLengths(b, |f.sessionId|, |f.ciphers|, |f.compression|);
    Header16(FrontBytes(f), n, t);
  }

  lemma BodyOf(b: bytes) returns (f: Front, n: nat, t: bytes)
    requires ExtensionsAt(b).Ok?
    ensures BodyIs(b, f, n, t) && |FrontBytes(f)| + 2 == ExtensionsAt(b).value
  {
    var c := 35 + (b[34] as int);
    var k := c + 2 + U16(b[c], b[c + 1]);
    var x := k + 1 + (b[k] as int);
    Put16(b[c], b[c + 1]);
    Put16(b[x], b[x + 1]);
    f, n, t := Front(b[..34], b[35..c], b[c + 2..k], b[k + 1..x]), U16(b[x], b[x + 1]), b[x + 2..];
    hide PutU16, U16;
    assert b[34] == |f.sessionId| && b[k] == |f.compression|;
    InPieces(b, c, k, x);
  }

  lemma InPieces(b: bytes, c: nat, k: nat, x: nat)
    requires 35 <= c && c + 2 <= k && k + 1 <= x && x + 2 <= |b|
    ensures b == b[..34] + ([b[34]] + b[35..c]) + ([b[c], b[c + 1]] + b[c + 2..k]) + ([b[k]] + b[k + 1..x])
      + [b[x], b[x + 1]] + b[x + 2..]
  {
  }

  /**
   * On any bytes: a ClientHello body gives a name exactly if it is the four fields and an extension
   * block, which may be cut short, that gives the name.
   */
  lemma HelloIff(b: bytes, name: bytes)
    ensures ParseHello(b) == Ok(name)
      <==> exists f, n: nat, t :: BodyIs(b, f, n, t) && ScanExtensions(Upto(t, n)) == Ok(name)
  {
    hide ExtensionsAt, ScanExtensions, ParseHello, BodyIs, Upto;
    if ParseHello(b) == Ok(name) {
      HelloHasFront(b);
      var f, n, t := BodyOf(b);
      BodyParses(b, f, n, t);
    }
    if f, n: nat, t :| BodyIs(b, f, n, t) && ScanExtensions(Upto(t, n)) == Ok(name) {
      BodyParses(b, f, n, t);
    }
  }

  lemma HelloHasFront(b: bytes)
    requires ParseHello(b).Ok?
    ensures ExtensionsAt(b).Ok?
  {
    hide ExtensionsAt, ScanExtensions;
  }

  lemma BodyParses(b: bytes, f: Front, n: nat, t: bytes)
    requires BodyIs(b, f, n, t)
    ensures ParseHello(b) == ScanExtensions(Upto(t, n))
  {
    hide ExtensionsAt, ScanExtensions, U16, FrontBytes;
    BodyIsAt(b, f, n, t);
    var pos: nat := |FrontBytes(f)| + 2;
    assert Upto(b[pos..], n) == b[pos..if pos + n > |b| then |b| else pos + n];
  }

  // ---- Records ---------------------------------------------------------

  lemma RecordIs(s: bytes, raw: nat)
    requires Record(s, raw).Ok?
    ensures var f := Fragment(s[1..3], Record(s, raw).value);
      && Complete([f]) && raw + 5 + |f.body| <= 65536 && 5 + |f.body| <= |s|
      && s[..5 + |f.body|] == EncodeRecord(f)
  {
    var body := Record(s, raw).value;
    Put16(s[3], s[4]);
    hide PutU16, U16;
    assert s[..5 + |body|] == [22] + s[1..3] + [s[3], s[4]] + body;
  }

  /** These are the records that give the first `need` bytes, and the last of them was needed. */
  ghost predicate Needed(hs: bytes, frags: seq<Fragment>, need: nat) {
    && Complete(frags) && need <= |hs + Bodies(frags)|
    && (frags != [] ==> |hs + Bodies(frags[..|frags| - 1])| < need)
  }

  lemma {:induction false} AssembledIs(s: bytes, a: Assembly, need: nat) returns (frags: seq<Fragment>)
    requires a.raw <= |s| && Assemble(s, a, need).Ok? && a.raw <= 65536
    ensures var r := Assemble(s, a, need).value;
      && a.raw <= r.raw <= |s| && r.raw <= 65536
      && s[a.raw..r.raw] == Wire(frags) && r.hs == a.hs + Bodies(frags) && Needed(a.hs, frags, need)
    decreases |s| - a.raw
  {
    hide Record, EncodeRecord;
    frags := [];
    if |a.hs| < need {
      var rest := s[a.raw..];
      RecordIs(rest, a.raw);
      var f := Fragment(rest[1..3], Record(rest, a.raw).value);
      var next := Assembly(a.hs + f.body, a.raw + 5 + |f.body|);
      var more := AssembledIs(s, next, need);
      frags := [f] + more;
      assert frags[1..] == more;
      var r := Assemble(s, next, need).value;
      assert s[a.raw..r.raw] == rest[..5 + |f.body|] + s[next.raw..r.raw];
      assert next.hs + Bodies(more) == a.hs + Bodies(frags);
      FrontBodies(f, more);
      assert more != [] ==> next.hs + Bodies(more[..|more| - 1]) == a.hs + Bodies(frags[..|frags| - 1]);
    } else {
      assert a.hs + Bodies([]) == a.hs && s[a.raw..a.raw] == [];
    }
  }

  lemma FrontBodies(f: Fragment, more: seq<Fragment>)
    ensures more != [] ==> Bodies(([f] + more)[..|more|]) == f.body + Bodies(more[..|more| - 1])
    ensures more == [] ==> Bodies(([f] + more)[..0]) == []
  {
    if more != [] {
      var front := ([f] + more)[..|more|];
      assert front[0] == f && front[1..] == more[..|more| - 1];
    }
  }

  /**
   * Soundness of the reader: a key and a number of bytes come out only of that many bytes of
   * complete handshake records, at most 64 KiB, that begin with a ClientHello message whose body
   * parses to a name with that key; the last record was needed for it.
   */
  lemma KeyComesFromHello(s: bytes, key: bytes, n: nat)
      returns (frags: seq<Fragment>, body: bytes, over: bytes, name: bytes)
    requires OneShotSni(s) == Ok((key, n))
    ensures n <= |s| && n <= 65536 && s[..n] == Wire(frags) && Complete(frags)
    ensures |body| < 0x100_0000 && Bodies(frags) == Message(body) + over
    ensures frags != [] && |Bodies(frags[..|frags| - 1])| < 4 + |body|
    ensures ParseHello(body) == Ok(name) && key == NormalizeSni(name)
  {
    hide OneShotSni, Assemble, Record, ParseHello, NormalizeSni, Wire, Bodies, HelloLength, Message;
    var start := Assembly([], 0);
    var need := DecisionParts(s, key, n);
    BothStages(s, start, 4, need);
    frags := AssembledIs(s, start, need);
    var hs := Assemble(s, start, need).value.hs;
    Unprefixed(frags, hs, need);
    assert s[0..n] == s[..n];
    body, over := hs[4..need], hs[need..];
    name := ParseHello(body).value;
    HeaderIs(hs, body, over);
  }

  lemma Unprefixed(frags: seq<Fragment>, hs: bytes, need: nat)
    requires hs == [] + Bodies(frags) && Needed([], frags, need) && need > 0
    ensures hs == Bodies(frags) && Complete(frags) && need <= |hs|
    ensures frags != [] && |Bodies(frags[..|frags| - 1])| < need
  {
    assert [] + Bodies(frags) == Bodies(frags);
    if frags != [] {
      assert [] + Bodies(frags[..|frags| - 1]) == Bodies(frags[..|frags| - 1]);
    }
  }

  /** The parts of a decision that was made. */
  lemma DecisionParts(s: bytes, key: bytes, n: nat) returns (need: nat)
    requires OneShotSni(s) == Ok((key, n))
    ensures var head := Assemble(s, Assembly([], 0), 4);
      && head.Ok? && head.value.raw <= |s| && |head.value.hs| >= 4
      && head.value.hs[0] == 1 && need == 4 + HelloLength(head.value.hs)
      && var all := Assemble(s, head.value, need);
         && all.Ok? && |all.value.hs| >= need && all.value.raw == n
         && head.value.hs <= all.value.hs
         && ParseHello(all.value.hs[4..need]).Ok? && key == NormalizeSni(ParseHello(all.value.hs[4..need]).value)
         && HelloLength(all.value.hs) == HelloLength(head.value.hs) && all.value.hs[0] == 1
  {
    hide Assemble, Record, ParseHello, NormalizeSni;
    var start := Assembly([], 0);
    AssembledEnough(s, start, 4);
    var head := Assemble(s, start, 4).value;
    need := 4 + HelloLength(head.hs);
    AssembledEnough(s, head, need);
    BothStages(s, start, 4, need);
  }

  /** Reading on from the first stage is reading it all. */
  lemma BothStages(s: bytes, a: Assembly, n1: nat, n2: nat)
    requires a.raw <= |s| && n1 <= n2 && Assemble(s, a, n1).Ok?
    requires Assemble(s, a, n1).value.raw <= |s| && Assemble(s, Assemble(s, a, n1).value, n2).Ok?
    ensures Assemble(s, a, n2) == Assemble(s, Assemble(s, a, n1).value, n2)
    ensures Assemble(s, a, n1).value.hs <= Assemble(s, a, n2).value.hs
  {
    hide Record;
    Resumes(s, a, n1, n2);
    AssembleStages(s, a, n1, n2);
  }

  lemma {:induction false} Resumes(s: bytes, a: Assembly, n1: nat, n2: nat)
    requires a.raw <= |s| && n1 <= n2 && Assemble(s, a, n1).Ok?
    requires Assemble(s, a, n1).value.raw <= |s|
    ensures Assemble(s, a, n2) == Assemble(s, Assemble(s, a, n1).value, n2)
    decreases |s| - a.raw
  {
    hide Record;
    if |a.hs| < n1 {
      var body := Record(s[a.raw..], a.raw).value;
      RecordFits(s[a.raw..], a.raw);
      Resumes(s, Assembly(a.hs + body, a.raw + 5 + |body|), n1, n2);
    }
  }

  lemma HeaderIs(hs: bytes, body: bytes, over: bytes)
    requires |hs| >= 4 && hs[0] == 1 && |body| == HelloLength(hs) && hs[4..] == body + over
    ensures |body| < 0x100_0000 && hs == Message(body) + over
  {
    Put16(hs[2], hs[3]);
    var n := HelloLength(hs);
    assert n / 0x1_0000 == hs[1] && n % 0x1_0000 == U16(hs[2], hs[3]);
    hide PutU16, U16;
    assert hs == [hs[0], hs[1]] + [hs[2], hs[3]] + (body + over);
  }
}
