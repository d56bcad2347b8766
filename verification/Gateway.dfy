/**
 * The SNI and HTTP gateways: building the route table from the configuration, and taking one
 * accepted connection through inspection and routing to the runtime that serves it.
 */
module Gateway {
  import opened Bytes
  import opened Net
  import opened UsageStore
  import opened Relay
  import opened HttpPreread
  import opened Sni

  datatype Kind = SniGateway | HttpGateway

  /** The form in which a gateway compares names, in the configuration and on the wire. */
  function Key(kind: Kind, host: bytes): bytes {
    match kind
    case SniGateway => NormalizeSni(host)
    case HttpGateway => NormalizeHost(host)
  }

  // ---- Route tables ----------------------------------------------------

  datatype RouteConfig = RouteConfig(host: bytes, server: bytes, target: bytes)
  datatype Route = Route(server: bytes, target: bytes)
  datatype Transport = Stream | Udp
  datatype RouteError = MissingHost | MissingServer | MissingTarget | DuplicateRoute | UnknownServer | UdpServer

  /** What is wrong with the i-th route, if anything, given the ones before it. */
  function Problem(kind: Kind, routes: seq<RouteConfig>, servers: map<bytes, Transport>, i: nat): Option<RouteError>
    requires i < |routes|
  {
    var key, srv := Key(kind, routes[i].host), TrimSpace(routes[i].server);
    if key == [] then Some(MissingHost)
    else if srv == [] then Some(MissingServer)
    else if TrimSpace(routes[i].target) == [] then Some(MissingTarget)
    else if exists j :: 0 <= j < i && Key(kind, routes[j].host) == key then Some(DuplicateRoute)
    else if srv !in servers then Some(UnknownServer)
    else if servers[srv] == Udp then Some(UdpServer)
    else None
  }

  /** When a route is good, and what each complaint about it means. */
  lemma ProblemMeans(kind: Kind, routes: seq<RouteConfig>, servers: map<bytes, Transport>, i: nat)
    requires i < |routes|
    ensures var r, problem := routes[i], Problem(kind, routes, servers, i);
      var srv := TrimSpace(r.server);
      && (problem == None <==>
          && Key(kind, r.host) != [] && srv != [] && TrimSpace(r.target) != []
          && (forall j :: 0 <= j < i ==> Key(kind, routes[j].host) != Key(kind, r.host))
          && srv in servers && servers[srv] == Stream)
      && (problem == Some(MissingHost) ==> Key(kind, r.host) == [])
      && (problem == Some(MissingServer) ==> srv == [])
      && (problem == Some(MissingTarget) ==> TrimSpace(r.target) == [])
      && (problem == Some(DuplicateRoute) ==> exists j :: 0 <= j < i && Key(kind, routes[j].host) == Key(kind, r.host))
      && (problem == Some(UnknownServer) ==> srv !in servers)
      && (problem == Some(UdpServer) ==> srv in servers && servers[srv] == Udp)
  {
    hide Key, TrimSpace;
  }

  /** The table maps each normalized host to the one configured route that has it. */
  ghost predicate Tabulates(table: map<bytes, Route>, kind: Kind, routes: seq<RouteConfig>) {
    && (forall i, j :: 0 <= i < j < |routes| ==> Key(kind, routes[i].host) != Key(kind, routes[j].host))
    && (forall k :: k in table <==> exists i :: 0 <= i < |routes| && Key(kind, routes[i].host) == k)
    && (forall i :: 0 <= i < |routes| ==>
      && Key(kind, routes[i].host) in table
      && table[Key(kind, routes[i].host)] == Route(TrimSpace(routes[i].server), TrimSpace(routes[i].target)))
  }

  /**
   * The loop of validateGateways and validateHTTPGateways over one gateway's routes: it succeeds
   * exactly when no route has a problem, and otherwise reports the first problem.
   */
  method BuildRoutes(kind: Kind, routes: seq<RouteConfig>, servers: map<bytes, Transport>)
      returns (r: Result<map<bytes, Route>, RouteError>)
    ensures match r
      case Ok(table) =>
        Tabulates(table, kind, routes) && forall i :: 0 <= i < |routes| ==> Problem(kind, routes, servers, i) == None
      case Err(e) =>
        exists i: nat ::
          && i < |routes| && Problem(kind, routes, servers, i) == Some(e)
          && forall j :: 0 <= j < i ==> Problem(kind, routes, servers, j) == None
  {
    hide Key, TrimSpace;
    var table: map<bytes, Route> := map[];
    for i := 0 to |routes|
      invariant Tabulates(table, kind, routes[..i])
      invariant forall j :: 0 <= j < i ==> Problem(kind, routes, servers, j) == None
    {
      var key, srv := Key(kind, routes[i].host), TrimSpace(routes[i].server);
      var target := TrimSpace(routes[i].target);
      ghost var problem := Problem(kind, routes, servers, i);
      assert key in table <==> exists j :: 0 <= j < i && Key(kind, routes[j].host) == key by {
        assert forall j :: 0 <= j < i ==> routes[..i][j] == routes[j];
      }
      if key == [] {
        return Err(MissingHost);
      }
      if srv == [] {
        return Err(MissingServer);
      }
      if target == [] {
        return Err(MissingTarget);
      }
      if key in table {
        return Err(DuplicateRoute);
      }
      if srv !in servers {
        return Err(UnknownServer);
      }
      if servers[srv] == Udp {
        return Err(UdpServer);
      }
      TabulatesMore(table, kind, routes, i);
      table := table[key := Route(srv, target)];
    }
    assert routes[..|routes|] == routes;
    return Ok(table);
  }

  lemma TabulatesMore(table: map<bytes, Route>, kind: Kind, routes: seq<RouteConfig>, i: nat)
    requires i < |routes| && Tabulates(table, kind, routes[..i])
    requires Key(kind, routes[i].host) !in table
    ensures Tabulates(
      table[Key(kind, routes[i].host) := Route(TrimSpace(routes[i].server), TrimSpace(routes[i].target))],
      kind, routes[..i + 1])
  {
    hide Key, TrimSpace;
    var few, more := routes[..i], routes[..i + 1];
    var key := Key(kind, routes[i].host);
    var next := table[key := Route(TrimSpace(routes[i].server), TrimSpace(routes[i].target))];
    assert more == few + [routes[i]];
    forall k ensures k in next <==> exists j :: 0 <= j < |more| && Key(kind, more[j].host) == k {
      if k in table {
        var j :| 0 <= j < |few| && Key(kind, few[j].host) == k;
        assert more[j] == few[j];
      }
      if k == key {
        assert more[i] == routes[i];
      }
      if j :| 0 <= j < |more| && Key(kind, more[j].host) == k && j < i {
        assert few[j] == more[j];
      }
    }
    forall a, b | 0 <= a < b < |more| ensures Key(kind, more[a].host) != Key(kind, more[b].host) {
      assert more[a] == few[a];
      if b < i {
        assert more[b] == few[b];
      }
    }
  }

  /** A key leads to one configured route and no other. */
  lemma OneRoutePerKey(table: map<bytes, Route>, kind: Kind, routes: seq<RouteConfig>, key: bytes)
    requires Tabulates(table, kind, routes) && key in table
    ensures exists i ::
      && 0 <= i < |routes| && Key(kind, routes[i].host) == key
      && table[key] == Route(TrimSpace(routes[i].server), TrimSpace(routes[i].target))
      && forall j :: 0 <= j < |routes| && Key(kind, routes[j].host) == key ==> j == i
  {
    hide Key, TrimSpace;
    var i :| 0 <= i < |routes| && Key(kind, routes[i].host) == key;
  }

  /** The same for server names, which have no port. */
  lemma SniSpellingsShareRoute(
      table: map<bytes, Route>, routes: seq<RouteConfig>, i: nat, h: bytes,
      own: bytes, ownDot: bool, theirs: bytes, dot: bool, before: bytes, after: bytes)
    requires Tabulates(table, SniGateway, routes) && i < |routes|
    requires Settled(h) && h[|h| - 1] != DOT && Spells(own, h) && Spells(theirs, h)
    requires AllSpace(before) && AllSpace(after)
    requires routes[i].host == Spell(own, ownDot, None)
    ensures var key := NormalizeSni(before + Spell(theirs, dot, None) + after);
      key in table && table[key] == Route(TrimSpace(routes[i].server), TrimSpace(routes[i].target))
  {
    hide NormalizeSni, TrimSpace, Spell, Spells;
    NormalizeSniForgetsSpelling(h, theirs, dot, before, after);
    NormalizeSniForgetsSpelling(h, own, ownDot, [], []);
    assert [] + Spell(own, ownDot, None) + [] == Spell(own, ownDot, None);
    assert Key(SniGateway, routes[i].host) == h;
  }

  /**
   * An operator and a client may spell a host differently - letter case, surrounding space, a final
   * dot, a port - and the client still gets the operator's route.
   */
  lemma SpellingsShareRoute(
      table: map<bytes, Route>, routes: seq<RouteConfig>, i: nat, h: bytes,
      own: bytes, ownDot: bool, ownPort: Option<bytes>,
      theirs: bytes, dot: bool, port: Option<bytes>, before: bytes, after: bytes)
    requires Tabulates(table, HttpGateway, routes) && i < |routes|
    requires Canonical(h) && Spells(own, h) && Spells(theirs, h)
    requires ownPort.Some? ==> Digits(ownPort.value)
    requires port.Some? ==> Digits(port.value)
    requires AllSpace(before) && AllSpace(after)
    requires routes[i].host == Spell(own, ownDot, ownPort)
    ensures var key := NormalizeHost(before + Spell(theirs, dot, port) + after);
      key in table && table[key] == Route(TrimSpace(routes[i].server), TrimSpace(routes[i].target))
  {
    hide NormalizeHost, TrimSpace, Spell, Canonical, Spells;
    NormalizeForgetsSpelling(h, own, ownDot, ownPort, [], []);
    assert [] + Spell(own, ownDot, ownPort) + [] == routes[i].host;
    NormalizeForgetsSpelling(h, theirs, dot, port, before, after);
  }

  // ---- One connection --------------------------------------------------

  datatype Inbound = Inbound(conn: NetConn, target: bytes)

  /** A server runtime: a readiness flag and the bounded channel of accepted connections. */
  class InboundTarget {
    const capacity: nat
    var ready: bool
    var local: seq<Inbound>

    constructor (capacity: nat)
      ensures this.capacity == capacity && !ready && local == []
    {
      this.capacity, ready, local := capacity, false, [];
    }

    method EnqueueInbound(conn: NetConn, target: bytes) returns (accepted: bool)
      modifies this`local
      ensures accepted <==> ready && |old(local)| < capacity
      ensures local == if accepted then old(local) + [Inbound(conn, target)] else old(local)
    {
      if !ready || |local| >= capacity {
        return false;
      }
      local := local + [Inbound(conn, target)];
      return true;
    }
  }

  /** What inspecting a stream decides: the routing key, when there is one. */
  function Decision(kind: Kind, s: bytes, maxHeaderBytes: int): Option<bytes> {
    match kind
    case SniGateway => (match OneShotSni(s) case Ok((name, _)) => Some(name) case Err(_) => None)
    case HttpGateway => (match OneShot(s, MaxHeader(maxHeaderBytes)) case Ok(host) => Some(host) case Err(_) => None)
  }

  class Gate {
    const kind: Kind
    const maxHeaderBytes: int
    const routes: map<bytes, Route>
    const registry: map<bytes, InboundTarget>

    constructor (kind: Kind, maxHeaderBytes: int, routes: map<bytes, Route>, registry: map<bytes, InboundTarget>)
      ensures this.kind == kind && this.maxHeaderBytes == maxHeaderBytes
      ensures this.routes == routes && this.registry == registry
    {
      this.kind, this.maxHeaderBytes, this.routes, this.registry := kind, maxHeaderBytes, routes, registry;
    }

    /** The preread of either gateway, with what it took from the connection. */
    method Inspect(conn: Conn, arrive: nat) returns (host: Option<bytes>, firstBytes: bytes)
      requires !conn.closed && arrive <= |conn.incoming|
      modifies conn`incoming, conn`inTime
      ensures host == Decision(kind, old(conn.incoming)[..arrive], maxHeaderBytes)
      ensures conn.inTime == None
      ensures host.Some? ==> firstBytes + conn.incoming == old(conn.incoming)
    {
      match kind
      case SniGateway =>
        var r;
        r, firstBytes := ReadTLSClientHelloSNI(conn, arrive);
        assert old(conn.incoming)[..|firstBytes|] + old(conn.incoming)[|firstBytes|..] == old(conn.incoming);
        host := if r.Ok? then Some(r.value) else None;
      case HttpGateway =>
        var r;
        r, firstBytes := ReadHTTPHost(conn, arrive, maxHeaderBytes);
        host := if r.Ok? then Some(r.value) else None;
    }

    /**
     * handleConn: the connection is closed or handed to exactly one runtime, never both. It is
     * handed over exactly when its bytes select a route whose runtime can take it, and then that
     * runtime can read every byte the client sent.
     */
    method HandleConn(conn: Conn, arrive: nat) returns (handed: Option<InboundTarget>)
      requires !conn.closed && arrive <= |conn.incoming|
      modifies conn, registry.Values
      ensures var key := Decision(kind, old(conn.incoming)[..arrive], maxHeaderBytes);
        && (handed.Some? <==>
            && key.Some? && key.value in routes && routes[key.value].server in registry
            && old(registry[routes[key.value].server].ready)
            && |old(registry[routes[key.value].server].local)| < registry[routes[key.value].server].capacity)
        && (handed.Some? ==> handed.value == registry[routes[key.value].server])
      ensures conn.closed <==> handed == None
      ensures forall t :: t in registry.Values ==> t.ready == old(t.ready)
      ensures forall t :: t in registry.Values && handed != Some(t) ==> t.local == old(t.local)
      ensures handed.Some? ==>
        var t, key := handed.value, Decision(kind, old(conn.incoming)[..arrive], maxHeaderBytes);
        && |t.local| == |old(t.local)| + 1 && t.local[..|old(t.local)|] == old(t.local)
        && var last := t.local[|old(t.local)|];
        && key.Some? && key.value in routes && last.target == routes[key.value].target
        && last.conn.Base() == conn && conn.inTime == None && conn.written == old(conn.written)
        && (last.conn.Wrapped? ==> fresh(last.conn.pre)) && last.conn.Valid()
        && last.conn.Stream() == old(conn.incoming)
    {
      var host, firstBytes := Inspect(conn, arrive);
      if host.None? || host.value !in routes {
        conn.Close();
        return None;
      }
      var route := routes[host.value];
      if route.server !in registry || !registry[route.server].ready {
        conn.Close();
        return None;
      }
      var target := registry[route.server];
      var wrapped := NewPrefixedConn(conn, firstBytes);
      var accepted := target.EnqueueInbound(wrapped, route.target);
      if !accepted {
        wrapped.Close();
        return None;
      }
      return Some(target);
    }
  }

  /**
   * End to end: whatever the client sends and however it is cut, the service behind the tunnel
   * receives exactly as much of it as it accepts, from its first byte on - all of it if no write
   * fails - or the connection was closed and nothing was sent.
   */
  method ServeConn(
      g: Gate, conn: Conn, arrive: nat, service: Conn, usage: Usage, port: int, sniffer: bool, copyBuffer: int)
      returns (handed: Option<InboundTarget>)
    requires !conn.closed && arrive <= |conn.incoming| && service != conn && usage.Valid()
    modifies conn, g.registry.Values, service, usage
    ensures conn.closed
    ensures var key := Decision(g.kind, old(conn.incoming)[..arrive], g.maxHeaderBytes);
      && (handed.Some? <==>
          && key.Some? && key.value in g.routes && g.routes[key.value].server in g.registry
          && old(g.registry[g.routes[key.value].server].ready)
          && |old(g.registry[g.routes[key.value].server].local)| < g.registry[g.routes[key.value].server].capacity)
      && (handed.Some? ==> handed.value == g.registry[g.routes[key.value].server])
    ensures handed.None? ==> service.written == old(service.written)
    ensures handed.Some? ==>
      service.written == old(service.written) + old(conn.incoming)[..old(service.Accepts(|conn.incoming|))]
    ensures handed.Some? && !old(service.closed) && old(service.room).None? ==>
      service.written == old(service.written) + old(conn.incoming)
  {
    handed := g.HandleConn(conn, arrive);
    if handed.Some? {
      // The runtime's worker takes the connection out of the channel and copies it.
      var inbound := handed.value.local[|handed.value.local| - 1];
      ghost var counted := TransferData(inbound.conn, service, usage, port, sniffer, copyBuffer);
    }
  }
}
