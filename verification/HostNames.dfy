/** The form in which names are compared, octet by octet, on any bytes. */
module HostNames {
  import opened Bytes
  import opened HttpPreread
  import opened Sni

  // ---- host:port -------------------------------------------------------

  /** No colon and no bracket. */
  predicate Bare(s: bytes) { 58 !in s && 91 !in s && 93 !in s }

  /** host:port with a bare host, or [host]:port with any host without brackets. */
  predicate HostAndPort(s: bytes, host: bytes, port: bytes) {
    && Bare(port) && 91 !in host && 93 !in host
    && (s == [91] + host + [93, 58] + port || (58 !in host && s == host + [58] + port))
  }

  /** Exactly which texts split, and into what. */
  lemma SplitExactly(s: bytes, host: bytes)
    ensures SplitHostPort(s) == Some(host) <==> exists port :: HostAndPort(s, host, port)
  {
    hide SplitHostPort;
    if SplitHostPort(s) == Some(host) {
      SplitsInto(s, host);
    }
    if port :| HostAndPort(s, host, port) {
      Splits(s, host, port);
    }
  }

  lemma SplitsInto(s: bytes, host: bytes)
    requires SplitHostPort(s) == Some(host)
    ensures exists port :: HostAndPort(s, host, port)
  {
    hide LastIndexByte, IndexByte;
    var i := LastIndexByte(s, COLON);
    if s[0] == LBRACKET {
      SplitsBracketed(s, host, i);
    } else {
      var port := s[i + 1..];
      Without(s, 58, i + 1, |s|);
      Without(s, 91, i + 1, |s|);
      Without(s, 93, i + 1, |s|);
      Without(s, 91, 0, i);
      Without(s, 93, 0, i);
      assert host == s[0..i] && s == host + [58] + port;
      assert HostAndPort(s, host, port);
    }
  }

  lemma SplitsBracketed(s: bytes, host: bytes, i: nat)
    requires SplitHostPort(s) == Some(host) && s[0] == LBRACKET
    requires i < |s| && i == LastIndexByte(s, COLON)
    ensures HostAndPort(s, host, s[i + 1..])
  {
    BracketParts(s, host, i);
    hide LastIndexByte, IndexByte, SplitHostPort, Bare;
    BareTail(s, i);
    BareHost(s, i);
    FourParts(s, i);
  }

  lemma BracketParts(s: bytes, host: bytes, i: nat)
    requires SplitHostPort(s) == Some(host) && s[0] == LBRACKET
    requires i < |s| && i == LastIndexByte(s, COLON)
    ensures i >= 2 && s[i] == 58 && s[i - 1] == 93 && host == s[1..i - 1]
    ensures 91 !in s[1..] && 93 !in s[i..]
    ensures (forall k :: i < k < |s| ==> s[k] != 58) && forall k :: 0 <= k < i - 1 ==> s[k] != 93
  {
    hide LastIndexByte, IndexByte;
  }

  lemma BareTail(s: bytes, i: nat)
    requires 1 <= i < |s| && 91 !in s[1..] && 93 !in s[i..] && forall k :: i < k < |s| ==> s[k] != 58
    ensures Bare(s[i + 1..])
  {
    InTail(s, 91, 1);
    InTail(s, 93, i);
    Without(s, 58, i + 1, |s|);
    Without(s, 91, i + 1, |s|);
    Without(s, 93, i + 1, |s|);
  }

  lemma BareHost(s: bytes, i: nat)
    requires 2 <= i < |s| && 91 !in s[1..] && forall k :: 0 <= k < i - 1 ==> s[k] != 93
    ensures 91 !in s[1..i - 1] && 93 !in s[1..i - 1]
  {
    InTail(s, 91, 1);
    Without(s, 91, 1, i - 1);
    Without(s, 93, 1, i - 1);
  }

  lemma FourParts(s: bytes, i: nat)
    requires 2 <= i < |s| && s[0] == 91 && s[i - 1] == 93 && s[i] == 58
    ensures s == [91] + s[1..i - 1] + [93, 58] + s[i + 1..]
  {
  }

  lemma Without(s: bytes, c: byte, lo: nat, hi: nat)
    requires lo <= hi <= |s| && forall k :: lo <= k < hi ==> s[k] != c
    ensures c !in s[lo..hi] && (hi == |s| ==> c !in s[lo..])
  {
    assert hi == |s| ==> s[lo..hi] == s[lo..];
  }

  lemma InTail(s: bytes, c: byte, lo: nat)
    requires lo <= |s| && c !in s[lo..]
    ensures forall k :: lo <= k < |s| ==> s[k] != c
  {
    assert forall k :: lo <= k < |s| ==> s[k] == s[lo..][k - lo];
  }

  lemma {:induction false} LastAt(s: bytes, c: byte, i: nat)
    requires i < |s| && s[i] == c && forall k :: i < k < |s| ==> s[k] != c
    ensures LastIndexByte(s, c) == i
  {
  }

  lemma Splits(s: bytes, host: bytes, port: bytes)
    requires HostAndPort(s, host, port)
    ensures SplitHostPort(s) == Some(host)
  {
    hide LastIndexByte, IndexByte;
    if s == [91] + host + [93, 58] + port {
      var n := |host| + 2;
      assert s[n] == 58 && forall k :: n < k < |s| ==> s[k] == port[k - n - 1];
      LastAt(s, COLON, n);
      assert s == ([91] + host) + [93] + ([58] + port);
      FirstByte([91] + host, RBRACKET, [58] + port);
      assert s[1..n - 1] == host && s[1..] == host + [93, 58] + port && s[n..] == [58] + port;
    } else {
      var n := |host|;
      assert s[n] == 58 && forall k :: n < k < |s| ==> s[k] == port[k - n - 1];
      LastAt(s, COLON, n);
      assert s[..n] == host;
      assert s[0] != 91;
    }
  }

  // ---- One trailing dot ------------------------------------------------

  /** One dot at the end goes, a second one stays. */
  lemma OneDot(s: bytes)
    ensures TrimSuffixDot(s + [46]) == s
    ensures s == [] || s[|s| - 1] != 46 ==> TrimSuffixDot(s) == s
  {
    assert (s + [46])[..|s|] == s;
  }

  // ---- The keys --------------------------------------------------------

  /** The text t stands in s between white space, and `low` is t in lower case. */
  ghost predicate Padded(s: bytes, before: bytes, t: bytes, after: bytes, low: bytes) {
    && s == before + t + after && AllSpace(before) && AllSpace(after)
    && t != [] && !IsSpace(t[0]) && !IsSpace(t[|t| - 1])
    && Spells(t, low) && NoCapitals(low)
  }

  lemma PaddedIs(s: bytes, before: bytes, t: bytes, after: bytes, low: bytes)
    requires Padded(s, before, t, after, low)
    ensures ToLower(TrimSpace(s)) == low && low != []
  {
    hide TrimSpace, ToLower;
    TrimPadded(before, t, after);
    LowerIffSpells(t, low);
  }

  /** The key of a Host value: without its port, if it splits, and then without one trailing dot. */
  lemma HostKeyExactly(s: bytes, before: bytes, t: bytes, after: bytes, low: bytes, x: bytes)
    requires Padded(s, before, t, after, low)
    ensures (exists port :: HostAndPort(low, x, port)) ==> NormalizeHost(s) == TrimSuffixDot(x)
    ensures (forall host, port :: !HostAndPort(low, host, port)) ==> NormalizeHost(s) == TrimSuffixDot(low)
  {
    hide TrimSpace, ToLower, SplitHostPort, TrimSuffixDot, Padded;
    PaddedIs(s, before, t, after, low);
    SplitExactly(low, x);
    if SplitHostPort(low).Some? {
      SplitExactly(low, SplitHostPort(low).value);
    }
  }

  /** The key of a server name has no port to lose. */
  lemma SniKeyExactly(s: bytes, before: bytes, t: bytes, after: bytes, low: bytes)
    requires Padded(s, before, t, after, low)
    ensures NormalizeSni(s) == TrimSuffixDot(low)
  {
    hide TrimSpace, ToLower, TrimSuffixDot, Padded;
    PaddedIs(s, before, t, after, low);
  }
}
