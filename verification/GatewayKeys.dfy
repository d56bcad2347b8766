/** What the gateways route by, in terms of what the client wrote. */
module GatewayKeys {
  import opened Bytes
  import opened HttpPreread
  import opened HttpRender
  import opened HostFields
  import opened Sni
  import opened SniEncoding
  import opened SniExact
  import opened Gateway

  /**
   * An HTTP request whose header has an allowed size is routed by the bytes behind the colon of its
   * only Host line; without a Host line, or with two, it is not routed.
   */
  lemma HttpKey(line: bytes, m: bytes, t: bytes, v: bytes, lines: seq<bytes>, body: bytes, max: int)
    requires Request(line, m, t, v) && 32 < m[0] && m[0] != 127
    requires CrlfFree(line) && Printable(lines)
    requires |Render(line, lines)| <= if max <= 0 then 32768 else max
    ensures var key := Decision(HttpGateway, Render(line, lines) + body, max);
      && (forall i: nat, k: nat :: OnlyHostLine(lines, i, k) && NormalizeHost(lines[i][k + 1..]) != [] ==>
          key == Some(NormalizeHost(lines[i][k + 1..])))
      && ((forall i, k: nat :: 0 <= i < |lines| ==> !HostAt(lines[i], k)) ==> key == None)
      && (forall i, j, k: nat, l: nat ::
          0 <= i < j < |lines| && HostAt(lines[i], k) && HostAt(lines[j], l) ==> key == None)
  {
    hide HostAt, NormalizeHost, OneShot, Render, IndexFrom, OnlyHostLine, Request;
    MaxHeaderIs(max);
    RequestRouted(line, m, t, v, lines, body, MaxHeader(max));
    forall i: nat, k: nat | OnlyHostLine(lines, i, k) ensures i < |lines| && k < |lines[i]| {
      OneNamed(lines, i, k);
    }
  }

  /**
   * A TLS connection is routed by the first host_name of its server_name extension, behind any
   * other extensions, in whatever complete records the ClientHello comes.
   */
  lemma SniKey(frags: seq<Fragment>, h: Hello, k: nat, entries: seq<Entry>, tail: bytes, max: int)
    requires Encodable(h) && |EncodeHello(h)| < 0x100_0000
    requires Complete(frags) && Bodies(frags) == Message(EncodeHello(h)) && |Wire(frags)| <= 65536
    requires k < |h.extensions| && forall i :: 0 <= i < k ==> h.extensions[i].kind != 0
    requires h.extensions[k] == Extension(0, ServerNameList(entries)) && |EncodeEntries(entries)| < 0x1_0000
    ensures Decision(SniGateway, Wire(frags) + tail, max) ==
      match FirstHostName(entries)
      case Ok(name) => Some(NormalizeSni(name))
      case Err(_) => None
  {
    hide OneShotSni, ParseHello, FirstHostName, NormalizeSni, Wire, Message, Bodies, EncodeEntries, EncodeExtensions;
    HelloNamesHost(h, k, entries);
    var body := EncodeHello(h);
    hide Encodable, EncodeHello, ServerNameList;
    FragmentationIndependent(frags, body, tail);
  }

  /** And no other bytes are: a key is that of a name in a ClientHello in complete handshake records. */
  lemma SniKeyOnlyFromHello(s: bytes, key: bytes, max: int)
    requires Decision(SniGateway, s, max) == Some(key)
    ensures exists frags, body, over, name ::
      && Complete(frags) && Wire(frags) <= s && |Wire(frags)| <= 65536
      && |body| < 0x100_0000 && Bodies(frags) == Message(body) + over
      && ParseHello(body) == Ok(name) && key == NormalizeSni(name)
  {
    hide OneShotSni, ParseHello, NormalizeSni, Complete, Wire, Message, Bodies;
    var n := OneShotSni(s).value.1;
    var frags, body, over, name := KeyComesFromHello(s, key, n);
    assert Wire(frags) == s[..n];
  }
}
