/**
 * What a request is routed by, octet by octet: the bytes behind the first colon of its only field
 * line whose name, without surrounding white space and in any letter case, is "host".
 */
module HostFields {
  import opened Bytes
  import opened HttpPreread
  import opened HttpRender

  ghost predicate White(s: bytes) { forall i :: 0 <= i < |s| ==> s[i] in {9, 10, 11, 12, 13, 32} }

  /** This field name is "host" between white space, in any letter case. */
  ghost predicate NamesHost(name: bytes) {
    exists i, j :: 0 <= i <= j <= |name| && NamesHostAt(name, i, j)
  }

  ghost predicate NamesHostAt(name: bytes, i: nat, j: nat)
    requires i <= j <= |name|
  {
    White(name[..i]) && Spells(name[i..j], [104, 111, 115, 116]) && White(name[j..])
  }

  /** The first colon of the line is at k, behind such a name. */
  ghost predicate HostAt(line: bytes, k: nat) {
    k < |line| && line[k] == 58 && 58 !in line[..k] && NamesHost(line[..k])
  }

  lemma {:induction false} TrimParts(s: bytes) returns (i: nat, j: nat)
    ensures i <= j <= |s| && White(s[..i]) && White(s[j..]) && TrimSpace(s) == s[i..j]
  {
    i := LeftPart(s);
    var t := s[i..];
    var k := RightPart(t);
    j := i + k;
    assert t[..k] == s[i..j] && t[k..] == s[j..];
  }

  lemma {:induction false} LeftPart(s: bytes) returns (i: nat)
    ensures i <= |s| && White(s[..i]) && TrimLeft(s) == s[i..]
  {
    if s != [] && IsSpace(s[0]) {
      SpaceIs(s[0]);
      i := LeftPart(s[1..]);
      assert s[..i + 1] == [s[0]] + s[1..][..i];
      i := i + 1;
    } else {
      i := 0;
    }
  }

  lemma {:induction false} RightPart(s: bytes) returns (j: nat)
    ensures j <= |s| && White(s[j..]) && TrimRight(s) == s[..j]
  {
    var n := |s| - 1;
    if s != [] && IsSpace(s[n]) {
      SpaceIs(s[n]);
      j := RightPart(s[..n]);
      assert s[j..] == s[..n][j..] + [s[n]] && s[..n][..j] == s[..j];
    } else {
      j := |s|;
    }
  }

  lemma WhiteIsSpace(s: bytes)
    ensures White(s) <==> AllSpace(s)
  {
    forall c: byte ensures IsSpace(c) <==> c in {9, 10, 11, 12, 13, 32} { SpaceIs(c); }
  }

  /** The test of the code and the name as a reader sees it. */
  lemma NamesHostIff(name: bytes)
    ensures ToLower(TrimSpace(name)) == HOST <==> NamesHost(name)
  {
    hide TrimSpace, ToLower, NamesHostAt, Spells, White;
    if ToLower(TrimSpace(name)) == HOST {
      var i, j := TrimParts(name);
      HostWord(name[i..j]);
      JoinNames(name, i, j);
    }
    if NamesHost(name) {
      var i, j :| 0 <= i <= j <= |name| && NamesHostAt(name, i, j);
      NamedTrims(name, i, j);
    }
  }

  lemma HostWord(core: bytes)
    ensures ToLower(core) == HOST <==> Spells(core, [104, 111, 115, 116])
    ensures Spells(core, [104, 111, 115, 116]) ==> |core| == 4 && !IsSpace(core[0]) && !IsSpace(core[3])
  {
    hide ToLower;
    Octets();
    LowerIffSpells(core, HOST);
    LowerIffSpells(HOST, HOST);
    if Spells(core, HOST) {
      assert SameLetter(core[0], HOST[0]) && SameLetter(core[3], HOST[3]);
    }
  }

  lemma JoinNames(name: bytes, i: nat, j: nat)
    requires i <= j <= |name| && White(name[..i]) && White(name[j..]) && Spells(name[i..j], [104, 111, 115, 116])
    ensures NamesHost(name)
  {
    assert NamesHostAt(name, i, j);
  }

  lemma NamedTrims(name: bytes, i: nat, j: nat)
    requires i <= j <= |name| && NamesHostAt(name, i, j)
    ensures ToLower(TrimSpace(name)) == HOST
  {
    hide TrimSpace, ToLower, Spells, White, IsSpace, AllSpace;
    HostWord(name[i..j]);
    WhiteIsSpace(name[..i]);
    WhiteIsSpace(name[j..]);
    TrimPadded(name[..i], name[i..j], name[j..]);
    assert name[..i] + name[i..j] + name[j..] == name;
  }

  lemma HostFieldIs(line: bytes, k: nat)
    requires k < |line| && line[k] == 58 && 58 !in line[..k]
    ensures HostField(line) == if NamesHost(line[..k]) then Some(line[k + 1..]) else None
  {
    hide TrimSpace, ToLower, IndexByte, NamesHost;
    Octets();
    NamesHostIff(line[..k]);
    FirstByte(line[..k], 58, line[k + 1..]);
    assert line == line[..k] + [58] + line[k + 1..];
  }

  lemma HostFieldIff(line: bytes)
    ensures HostField(line).Some? <==> exists k: nat :: HostAt(line, k)
    ensures forall k: nat :: HostAt(line, k) ==> HostField(line) == Some(line[k + 1..])
  {
    hide TrimSpace, ToLower, IndexByte, NamesHost, HostField;
    forall k: nat | HostAt(line, k) ensures HostField(line) == Some(line[k + 1..]) {
      HostFieldIs(line, k);
    }
    if HostField(line).Some? {
      var k := FieldColon(line);
      HostFieldIs(line, k);
      assert HostAt(line, k);
    }
  }

  lemma FieldColon(line: bytes) returns (k: nat)
    requires HostField(line).Some?
    ensures k < |line| && line[k] == 58 && 58 !in line[..k]
  {
    Octets();
    k := IndexByte(line, COLON);
  }

  // ---- A whole request -------------------------------------------------

  lemma {:induction false} NoneNamed(lines: seq<bytes>)
    requires forall i, k: nat :: 0 <= i < |lines| ==> !HostAt(lines[i], k)
    ensures HostValues(lines) == []
  {
    hide HostField, HostAt;
    if lines != [] {
      HostFieldIff(lines[0]);
      NoneNamed(lines[1..]);
    }
  }

  lemma OneNamed(lines: seq<bytes>, i: nat, k: nat)
    requires OnlyHostLine(lines, i, k)
    ensures i < |lines| && k < |lines[i]|
    ensures HostValues(lines) == [lines[i][k + 1..]]
  {
    hide HostField, NamesHost;
    HostFieldIff(lines[i]);
    var before, after := lines[..i], lines[i + 1..];
    assert lines == before + [lines[i]] + after;
    NoneNamed(before);
    NoneNamed(after);
    HostValuesConcat(before + [lines[i]], after);
    HostValuesConcat(before, [lines[i]]);
    OneLine(lines[i]);
  }

  lemma OneLine(line: bytes)
    ensures HostValues([line]) == match HostField(line) case Some(v) => [v] case None => []
  {
    hide HostField;
    assert [line][1..] == [];
  }

  lemma TwoNamed(lines: seq<bytes>, i: nat, j: nat, k: nat, l: nat)
    requires i < j < |lines| && HostAt(lines[i], k) && HostAt(lines[j], l)
    ensures |HostValues(lines)| > 1
  {
    hide HostField, HostAt;
    HostFieldIff(lines[i]);
    HostFieldIff(lines[j]);
    var a, b, c := lines[..i], lines[i + 1..j], lines[j + 1..];
    assert lines == a + [lines[i]] + b + [lines[j]] + c;
    HostValuesConcat(a + [lines[i]] + b + [lines[j]], c);
    HostValuesConcat(a + [lines[i]] + b, [lines[j]]);
    HostValuesConcat(a + [lines[i]], b);
    HostValuesConcat(a, [lines[i]]);
    OneLine(lines[i]);
    OneLine(lines[j]);
  }

  /** method SP target SP version, and the version is HTTP/1.0 or HTTP/1.1. */
  ghost predicate Request(line: bytes, m: bytes, t: bytes, v: bytes) {
    && line == m + [32] + t + [32] + v
    && m != [] && 32 !in m && t != [] && 32 !in t
    && v in {[72, 84, 84, 80, 47, 49, 46, 48], [72, 84, 84, 80, 47, 49, 46, 49]}
  }

  /**
   * The routing decision for any printed request whose header has an allowed size, followed by any
   * body: the normalized bytes behind the colon of the only Host line. Without a Host line, with
   * more than one, or with one that normalizes to nothing, it is refused for that reason.
   */
  lemma RequestRouted(line: bytes, m: bytes, t: bytes, v: bytes, lines: seq<bytes>, body: bytes, max: nat)
    requires Request(line, m, t, v) && 32 < m[0] && m[0] != 127
    requires CrlfFree(line) && Printable(lines) && |Render(line, lines)| <= max
    ensures var r := OneShot(Render(line, lines) + body, max);
      && ((forall i, k: nat :: 0 <= i < |lines| ==> !HostAt(lines[i], k)) ==> r == Err(NoHost))
      && (forall i, j, k: nat, l: nat ::
          0 <= i < j < |lines| && HostAt(lines[i], k) && HostAt(lines[j], l) ==> r == Err(MultipleHosts))
      && (forall i: nat, k: nat :: OnlyHostLine(lines, i, k) ==>
          r == if NormalizeHost(lines[i][k + 1..]) == [] then Err(EmptyHost) else Ok(NormalizeHost(lines[i][k + 1..])))
  {
    hide HostAt, HostValues, NormalizeHost, OneShot, Render, IndexFrom, OnlyHostLine, OnlyHost;
    RequestAccepted(line, m, t, v);
    PrintedRequest(line, lines, body, max);
    if forall i, k: nat :: 0 <= i < |lines| ==> !HostAt(lines[i], k) {
      NoneNamed(lines);
      HostsDecide([]);
    }
    forall i, j, k: nat, l: nat | 0 <= i < j < |lines| && HostAt(lines[i], k) && HostAt(lines[j], l)
      ensures OnlyHost(HostValues(lines)) == Err(MultipleHosts)
    {
      TwoNamed(lines, i, j, k, l);
      HostsDecide(HostValues(lines));
    }
    forall i: nat, k: nat | OnlyHostLine(lines, i, k)
      ensures i < |lines| && k < |lines[i]|
      ensures OnlyHost(HostValues(lines)) == OnlyHost([lines[i][k + 1..]])
    {
      OneNamed(lines, i, k);
      HostsDecide([lines[i][k + 1..]]);
    }
    forall value: bytes { HostsDecide([value]); }
  }

  lemma HostsDecide(hosts: seq<bytes>)
    ensures hosts == [] ==> OnlyHost(hosts) == Err(NoHost)
    ensures |hosts| > 1 ==> OnlyHost(hosts) == Err(MultipleHosts)
    ensures |hosts| == 1 ==>
      OnlyHost(hosts) == if NormalizeHost(hosts[0]) == [] then Err(EmptyHost) else Ok(NormalizeHost(hosts[0]))
  {
    hide NormalizeHost;
  }

  /** Line i is a Host line with its colon at k, and no other line is one. */
  ghost predicate OnlyHostLine(lines: seq<bytes>, i: nat, k: nat) {
    && i < |lines| && HostAt(lines[i], k)
    && forall j, l: nat :: 0 <= j < |lines| && j != i ==> !HostAt(lines[j], l)
  }

  lemma RequestAccepted(line: bytes, m: bytes, t: bytes, v: bytes)
    requires Request(line, m, t, v) && 32 < m[0] && m[0] != 127
    ensures line != [] && !NonHttpPrefix(line) && ValidateRequestLine(line) == None
  {
    hide ValidateRequestLine;
    Octets();
    assert line == RequestLine(m, t, v) && line[0] == m[0];
    RequestLineValid(m, t, v);
  }

  /** Which first bytes are refused outright: control bytes, those of TLS records among them, and DEL. */
  lemma RefusedAtOnceIff(s: bytes, max: nat)
    ensures NonHttpPrefix(s) <==> s != [] && (s[0] < 32 || s[0] == 127)
    ensures s != [] && (s[0] < 32 || s[0] == 127) ==> OneShot(s, max) == Err(NonHttp)
  {
  }

  /** A request line of three fields is refused for its version, every other invalid one as malformed. */
  lemma RequestLineRefusal(line: bytes)
    ensures ValidateRequestLine(line) == Some(UnsupportedVersion) <==>
      exists m, t, v :: Token(m) && Token(t) && OtherText(v) && line == RequestLine(m, t, v)
    ensures ValidateRequestLine(line) in {None, Some(UnsupportedVersion), Some(MalformedRequestLine)}
  {
    hide IndexByte;
    Octets();
    if ValidateRequestLine(line) == Some(UnsupportedVersion) {
      var first := IndexByte(line, SP);
      var rest := line[first + 1..];
      var second := IndexByte(rest, SP);
      var m, t, v := line[..first], rest[..second], rest[second + 1..];
      assert rest == t + [SP] + v;
      assert line == m + [SP] + rest;
      assert line == RequestLine(m, t, v);
      assert Token(m) && Token(t) && OtherText(v);
    }
    if m, t, v :| Token(m) && Token(t) && OtherText(v) && line == RequestLine(m, t, v) {
      OtherVersion(m, t, v);
    }
  }

  /** Text without a space that is not one of the two versions. */
  ghost predicate OtherText(v: bytes) {
    32 !in v && v != [72, 84, 84, 80, 47, 49, 46, 48] && v != [72, 84, 84, 80, 47, 49, 46, 49]
  }

  lemma OtherVersion(m: bytes, t: bytes, v: bytes)
    requires Token(m) && Token(t) && OtherText(v)
    ensures ValidateRequestLine(RequestLine(m, t, v)) == Some(UnsupportedVersion)
  {
    hide IndexByte;
    Octets();
    var rest := t + [SP] + v;
    assert RequestLine(m, t, v) == m + [SP] + rest;
    CutAtSpace(m, rest);
    CutAtSpace(t, v);
    NoByte(v, SP);
  }

  lemma NoByte(s: bytes, c: byte)
    requires c !in s
    ensures IndexByte(s, c) < 0
  {
    hide IndexByte;
  }

  lemma MaxHeaderIs(configured: int)
    ensures MaxHeader(configured) == if configured <= 0 then 32768 else configured
    ensures PREREAD_CHUNK_SIZE == 4096
  {
  }
}
