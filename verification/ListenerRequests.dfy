/** Which addresses a configuration asks to listen on, and which of them overlap. */
module ListenerRequests {
  import opened Bytes
  import opened HttpPreread
  import opened PortMappings
  import opened Listeners

  // ---- Overlaps --------------------------------------------------------

  /** A host without surrounding space that names an interface. */
  predicate Named(h: bytes) {
    && h != [] && !IsSpace(h[0]) && !IsSpace(h[|h| - 1])
    && h != [48, 46, 48, 46, 48, 46, 48] && h != [58, 58] && h != [91, 58, 58, 93] && h != [42]
  }

  /** One port, and the same host or a wildcard on either side. */
  lemma OverlapExactly(h: bytes, g: bytes, p: int, q: int)
    ensures p != q ==> !Overlap(Addr(h, p), Addr(g, q))
    ensures Overlap(Addr(h, p), Addr(h, p))
    ensures forall w ::
      w == [] || w == [48, 46, 48, 46, 48, 46, 48] || w == [58, 58] || w == [91, 58, 58, 93] || w == [42] ==>
        Overlap(Addr(w, p), Addr(g, p)) && Overlap(Addr(g, p), Addr(w, p))
    ensures Named(h) && Named(g) && h != g ==> !Overlap(Addr(h, p), Addr(g, p))
  {
    hide IsWildcard;
    WildcardAsIs([]);
    WildcardAsIs([48, 46, 48, 46, 48, 46, 48]);
    WildcardAsIs([58, 58]);
    WildcardAsIs([91, 58, 58, 93]);
    WildcardAsIs([42]);
    if Named(h) && Named(g) {
      WildcardAsIs(h);
      WildcardAsIs(g);
    }
  }

  lemma WildcardAsIs(h: bytes)
    requires h != [] ==> !IsSpace(h[0]) && !IsSpace(h[|h| - 1])
    ensures IsWildcard(h) <==>
      h == [] || h == [48, 46, 48, 46, 48, 46, 48] || h == [58, 58] || h == [91, 58, 58, 93] || h == [42]
  {
    hide IsWildcard;
    WildcardIff(h, [], []);
    assert [] + h + [] == h;
  }

  // ---- Nothing is left out ---------------------------------------------

  lemma {:induction false} BindListed(c: Config, i: nat)
    requires i < |c.servers| && ParseHostPort(c.servers[i].bindAddr).Some?
    ensures Entry(ParseHostPort(c.servers[i].bindAddr).value, Owner(Bind, c.servers[i].name)) in Requests(c)
  {
    hide ParseHostPort, PortRequests, ServerRequests, GateRequests;
    ServerListed(c.servers, i);
    assert BindRequests(c.servers[i])[0] in BindRequests(c.servers[i]);
  }

  lemma PortListed(c: Config, i: nat, k: nat, n: nat)
    requires i < |c.servers| && k < |c.servers[i].ports|
    requires ListenAddrs(c.servers[i].ports[k]).Ok? && n < |ListenAddrs(c.servers[i].ports[k]).value|
    ensures Entry(ListenAddrs(c.servers[i].ports[k]).value[n], Owner(Port, c.servers[i].name)) in Requests(c)
  {
    hide ListenAddrs, BindRequests, PortRequests, ServerRequests, GateRequests;
    ServerListed(c.servers, i);
    MappingListed(c.servers[i].name, c.servers[i].ports, k, n);
  }

  lemma SniGateListed(c: Config, i: nat)
    requires i < |c.sniGateways| && ParseHostPort(c.sniGateways[i].listenAddr).Some?
    ensures Entry(ParseHostPort(c.sniGateways[i].listenAddr).value, Owner(SniGateway, c.sniGateways[i].name))
      in Requests(c)
  {
    GateListed(SniGateway, c.sniGateways, i);
  }

  lemma HttpGateListed(c: Config, i: nat)
    requires i < |c.httpGateways| && ParseHostPort(c.httpGateways[i].listenAddr).Some?
    ensures Entry(ParseHostPort(c.httpGateways[i].listenAddr).value, Owner(HttpGateway, c.httpGateways[i].name))
      in Requests(c)
  {
    GateListed(HttpGateway, c.httpGateways, i);
  }

  lemma {:induction false} ServerListed(servers: seq<Server>, i: nat)
    requires i < |servers|
    ensures forall e :: e in BindRequests(servers[i]) || e in PortRequests(servers[i].name, servers[i].ports) ==>
      e in ServerRequests(servers)
  {
    hide BindRequests, PortRequests;
    if i < |servers| - 1 {
      ServerListed(servers[..|servers| - 1], i);
    }
  }

  lemma {:induction false} MappingListed(name: bytes, ports: seq<bytes>, k: nat, n: nat)
    requires k < |ports| && ListenAddrs(ports[k]).Ok? && n < |ListenAddrs(ports[k]).value|
    ensures Entry(ListenAddrs(ports[k]).value[n], Owner(Port, name)) in PortRequests(name, ports)
  {
    hide ListenAddrs;
    if k < |ports| - 1 {
      MappingListed(name, ports[..|ports| - 1], k, n);
    } else {
      var es := Entries(ListenAddrs(ports[k]).value, Owner(Port, name));
      assert es[n] in es;
    }
  }

  lemma {:induction false} GateListed(kind: OwnerKind, gates: seq<Gate>, i: nat)
    requires i < |gates| && ParseHostPort(gates[i].listenAddr).Some?
    ensures Entry(ParseHostPort(gates[i].listenAddr).value, Owner(kind, gates[i].name)) in GateRequests(kind, gates)
  {
    hide ParseHostPort;
    if i < |gates| - 1 {
      GateListed(kind, gates[..|gates| - 1], i);
    }
  }

  // ---- Nothing is made up ----------------------------------------------

  /** Every address that is registered is written in the configuration, by the owner it is given. */
  lemma RequestWritten(c: Config, e: Entry) returns (i: nat, k: nat, n: nat)
    requires e in Requests(c)
    ensures match e.owner.kind
      case Bind =>
        i < |c.servers| && c.servers[i].name == e.owner.name && ParseHostPort(c.servers[i].bindAddr) == Some(e.addr)
      case Port =>
        && i < |c.servers| && c.servers[i].name == e.owner.name && k < |c.servers[i].ports|
        && var r := ListenAddrs(c.servers[i].ports[k]);
        r.Ok? && n < |r.value| && r.value[n] == e.addr
      case SniGateway =>
        && i < |c.sniGateways| && c.sniGateways[i].name == e.owner.name
        && ParseHostPort(c.sniGateways[i].listenAddr) == Some(e.addr)
      case HttpGateway =>
        && i < |c.httpGateways| && c.httpGateways[i].name == e.owner.name
        && ParseHostPort(c.httpGateways[i].listenAddr) == Some(e.addr)
  {
    hide ParseHostPort, ListenAddrs, ServerRequests, GateRequests;
    i, k, n := 0, 0, 0;
    if e in ServerRequests(c.servers) {
      i, k, n := ServerWritten(c.servers, e);
    } else if e in GateRequests(SniGateway, c.sniGateways) {
      i := GateWritten(SniGateway, c.sniGateways, e);
    } else {
      i := GateWritten(HttpGateway, c.httpGateways, e);
    }
  }

  lemma {:induction false} ServerWritten(servers: seq<Server>, e: Entry) returns (i: nat, k: nat, n: nat)
    requires e in ServerRequests(servers)
    ensures i < |servers| && servers[i].name == e.owner.name
    ensures match e.owner.kind
      case Bind => ParseHostPort(servers[i].bindAddr) == Some(e.addr)
      case Port =>
        && k < |servers[i].ports|
        && var r := ListenAddrs(servers[i].ports[k]);
        r.Ok? && n < |r.value| && r.value[n] == e.addr
      case _ => false
  {
    hide ParseHostPort, ListenAddrs, PortRequests;
    var last := |servers| - 1;
    i, k, n := last, 0, 0;
    if e in ServerRequests(servers[..last]) {
      i, k, n := ServerWritten(servers[..last], e);
    } else if e in PortRequests(servers[last].name, servers[last].ports) {
      k, n := MappingWritten(servers[last].name, servers[last].ports, e);
    }
  }

  lemma {:induction false} MappingWritten(name: bytes, ports: seq<bytes>, e: Entry) returns (k: nat, n: nat)
    requires e in PortRequests(name, ports)
    ensures e.owner == Owner(Port, name) && k < |ports|
    ensures var r := ListenAddrs(ports[k]); r.Ok? && n < |r.value| && r.value[n] == e.addr
  {
    hide ListenAddrs;
    var last := |ports| - 1;
    if e in PortRequests(name, ports[..last]) {
      k, n := MappingWritten(name, ports[..last], e);
    } else {
      var es := Entries(ListenAddrs(ports[last]).value, Owner(Port, name));
      k := last;
      n :| n < |es| && es[n] == e;
    }
  }

  lemma {:induction false} GateWritten(kind: OwnerKind, gates: seq<Gate>, e: Entry) returns (i: nat)
    requires e in GateRequests(kind, gates)
    ensures e.owner.kind == kind && i < |gates| && gates[i].name == e.owner.name
    ensures ParseHostPort(gates[i].listenAddr) == Some(e.addr)
  {
    hide ParseHostPort;
    var last := |gates| - 1;
    if e in GateRequests(kind, gates[..last]) {
      i := GateWritten(kind, gates[..last], e);
    } else {
      i := last;
    }
  }

  // ---- From what is written to the verdict ------------------------------

  /**
   * Two servers that each list one host:port pass exactly if the ports differ, or neither host is a
   * wildcard and they are not the same.
   */
  lemma TwoServersIff(a: bytes, b: bytes, h: bytes, g: bytes, p: nat, q: nat)
    requires a != b && ValidMapping(HostPort(h, p)) && ValidMapping(HostPort(g, q))
    ensures var c := Config([Server(a, [], [HostText(h, p)]), Server(b, [], [HostText(g, q)])], [], []);
      && WellFormed(c)
      && (MayAccept(Requests(c)) <==> p != q || (Named(h) && Named(g) && h != g))
      && (MustAccept(Requests(c)) <==> p != q || (Named(h) && Named(g) && h != g))
  {
    hide PortsParse, Named, Overlap, MayAccept, MustAccept, HostText, ServerRequests, PortRequests, BindRequests;
    hide Requests, WellFormed;
    var s, t := Server(a, [], [HostText(h, p)]), Server(b, [], [HostText(g, q)]);
    ListsOne(a, h, p);
    ListsOne(b, g, q);
    var x, y := Entry(Addr(h, p), Owner(Port, a)), Entry(Addr(g, q), Owner(Port, b));
    TwoServersRequests(s, t, x, y);
    TwoOverlap(h, g, p, q);
    PairVerdict(x, y);
    NoGates([s, t]);
  }

  lemma NoGates(servers: seq<Server>)
    ensures Requests(Config(servers, [], [])) == ServerRequests(servers)
    ensures WellFormed(Config(servers, [], [])) <==> ServersParse(servers)
  {
  }

  /** Of two addresses the second passes if it does not overlap, or is of the same server. */
  lemma PairVerdict(x: Entry, y: Entry)
    ensures MayAccept([x, y]) <==>
      !Overlap(x.addr, y.addr) || ((y.owner.kind.Bind? || y.owner.kind.Port?) && x.owner.name == y.owner.name)
    ensures MustAccept([x, y]) <==> MayAccept([x, y])
  {
    hide Overlap;
    NothingYet();
    PassOne(x, y);
    assert [] + [x] == [x] && [x] + [y] == [x, y];
    Snoc([], x);
    Snoc([x], y);
    assert [x][0] == x;
  }

  lemma ListsOne(name: bytes, h: bytes, p: nat)
    requires ValidMapping(HostPort(h, p))
    ensures BindRequests(Server(name, [], [HostText(h, p)])) == []
    ensures PortRequests(name, [HostText(h, p)]) == [Entry(Addr(h, p), Owner(Port, name))]
    ensures PortsParse([HostText(h, p)])
  {
    hide ListenAddrs, ParseHostPort;
    AddressNeedsColon([]);
    MappingRoundTrip(HostPort(h, p), [], [], None);
    assert [] + Text(HostPort(h, p)) + [] + [] == HostText(h, p);
    assert [HostText(h, p)][..0] == [];
  }

  lemma TwoServersRequests(s: Server, t: Server, x: Entry, y: Entry)
    requires BindRequests(s) == [] && PortRequests(s.name, s.ports) == [x]
    requires BindRequests(t) == [] && PortRequests(t.name, t.ports) == [y]
    ensures ServerRequests([s, t]) == [x, y]
  {
    hide BindRequests, PortRequests;
    assert [s, t][..1] == [s] && [s][..0] == [];
    assert ServerRequests([s]) == [x];
  }

  lemma TwoOverlap(h: bytes, g: bytes, p: nat, q: nat)
    requires ValidMapping(HostPort(h, p)) && ValidMapping(HostPort(g, q))
    ensures Overlap(Addr(h, p), Addr(g, q)) <==> !(p != q || (Named(h) && Named(g) && h != g))
  {
    hide IsWildcard;
    WildcardAsIs(h);
    WildcardAsIs(g);
  }
}
