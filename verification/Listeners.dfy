/**
 * The check that no two listen addresses of a configuration collide: server bind addresses and
 * ports first, then the gateways, all recorded in one table.
 */
module Listeners {
  import opened Bytes
  import opened HttpPreread
  import opened PortMappings

  datatype OwnerKind = Bind | Port | SniGateway | HttpGateway

  datatype Owner = Owner(kind: OwnerKind, name: bytes)

  datatype Entry = Entry(addr: Addr, owner: Owner)

  /** Two addresses that cannot both be listened on; hosts are compared as written. */
  predicate Overlap(a: Addr, b: Addr) {
    a.port == b.port && (IsWildcard(a.host) || IsWildcard(b.host) || a.host == b.host)
  }

  ghost predicate Pairwise(es: seq<Entry>) {
    forall i, j :: 0 <= i < j < |es| ==> !Overlap(es[i].addr, es[j].addr)
  }

  ghost predicate Clashes(es: seq<Entry>, a: Addr) {
    exists i :: 0 <= i < |es| && Overlap(es[i].addr, a)
  }

  // ---- The table -------------------------------------------------------

  ghost predicate HasWildcard(es: seq<Entry>, p: int, owner: Owner) {
    exists i :: 0 <= i < |es| && es[i].addr.port == p && IsWildcard(es[i].addr.host) && es[i].owner == owner
  }

  /** The two maps hold exactly the entries: wildcard ones by port, the others by port and host. */
  ghost predicate Records(wild: map<int, Owner>, hosts: map<int, map<bytes, Owner>>, es: seq<Entry>) {
    && (forall p :: p in wild ==> HasWildcard(es, p, wild[p]))
    && (forall p, h :: p in hosts && h in hosts[p] ==> !IsWildcard(h) && Entry(Addr(h, p), hosts[p][h]) in es)
    && (forall e :: e in es ==>
      if IsWildcard(e.addr.host) then e.addr.port in wild
      else e.addr.port in hosts && e.addr.host in hosts[e.addr.port])
  }

  lemma RecordWildcard(wild: map<int, Owner>, hosts: map<int, map<bytes, Owner>>, es: seq<Entry>, e: Entry)
    requires Records(wild, hosts, es) && IsWildcard(e.addr.host) && e.addr.port !in wild
    ensures Records(wild[e.addr.port := e.owner], hosts, es + [e])
  {
    hide IsWildcard;
    var es', wild' := es + [e], wild[e.addr.port := e.owner];
    forall p | p in wild' ensures HasWildcard(es', p, wild'[p]) {
      if p != e.addr.port {
        var i :| 0 <= i < |es| && es[i].addr.port == p && IsWildcard(es[i].addr.host) && es[i].owner == wild[p];
        assert es'[i] == es[i];
      } else {
        assert es'[|es|] == e;
      }
    }
  }

  lemma RecordHost(wild: map<int, Owner>, hosts: map<int, map<bytes, Owner>>, es: seq<Entry>, e: Entry)
    requires Records(wild, hosts, es) && !IsWildcard(e.addr.host)
    requires e.addr.port in hosts ==> e.addr.host !in hosts[e.addr.port]
    ensures var at := if e.addr.port in hosts then hosts[e.addr.port] else map[];
      Records(wild, hosts[e.addr.port := at[e.addr.host := e.owner]], es + [e])
  {
    hide IsWildcard;
    var es' := es + [e];
    forall p | p in wild ensures HasWildcard(es', p, wild[p]) {
      var i :| 0 <= i < |es| && es[i].addr.port == p && IsWildcard(es[i].addr.host) && es[i].owner == wild[p];
      assert es'[i] == es[i];
    }
  }

  class Table {
    var portWildcard: map<int, Owner>
    var portHosts: map<int, map<bytes, Owner>>
    ghost var entries: seq<Entry>

    constructor ()
      ensures Valid() && entries == []
    {
      portWildcard, portHosts, entries := map[], map[], [];
    }

    ghost predicate Valid()
      reads this
    {
      Records(portWildcard, portHosts, entries) && Pairwise(entries)
    }

    /**
     * The register closure: an address is recorded exactly if it overlaps no recorded one, and
     * otherwise some overlapping entry is named - which one depends on the order of a map.
     */
    method Register(addr: Addr, owner: Owner) returns (existing: Owner, ok: bool, ghost at: nat)
      requires Valid()
      modifies this
      ensures Valid()
      ensures ok <==> !Clashes(old(entries), addr)
      ensures entries == if ok then old(entries) + [Entry(addr, owner)] else old(entries)
      ensures !ok ==> at < |entries| && entries[at].owner == existing && Overlap(entries[at].addr, addr)
    {
      hide IsWildcard, Records;
      at := 0;
      var host, port := addr.host, addr.port;
      var wildcard := IsWildcard(host);
      var hosts := if port in portHosts then portHosts[port] else map[];
      NoClash(portWildcard, portHosts, entries, addr);
      if port in portWildcard {
        at := WhereWildcard(portWildcard, portHosts, entries, port);
        return portWildcard[port], false, at;
      }
      if wildcard {
        if |hosts| > 0 {
          assert (forall h :: h !in hosts.Keys) ==> hosts.Keys == {};
          var h :| h in hosts;
          at := WhereHost(portWildcard, portHosts, entries, port, h);
          return hosts[h], false, at;
        }
        AddEntry(entries, Entry(addr, owner));
        RecordWildcard(portWildcard, portHosts, entries, Entry(addr, owner));
        portWildcard := portWildcard[port := owner];
        entries := entries + [Entry(addr, owner)];
        return owner, true, 0;
      }
      if host in hosts {
        at := WhereHost(portWildcard, portHosts, entries, port, host);
        return hosts[host], false, at;
      }
      AddEntry(entries, Entry(addr, owner));
      RecordHost(portWildcard, portHosts, entries, Entry(addr, owner));
      portHosts := portHosts[port := hosts[host := owner]];
      entries := entries + [Entry(addr, owner)];
      return owner, true, 0;
    }
  }

  lemma WhereWildcard(wild: map<int, Owner>, hosts: map<int, map<bytes, Owner>>, es: seq<Entry>, p: int)
      returns (at: nat)
    requires Records(wild, hosts, es) && p in wild
    ensures at < |es| && es[at].owner == wild[p] && es[at].addr.port == p && IsWildcard(es[at].addr.host)
  {
    hide IsWildcard;
    assert HasWildcard(es, p, wild[p]);
    at :| at < |es| && es[at].addr.port == p && IsWildcard(es[at].addr.host) && es[at].owner == wild[p];
  }

  lemma WhereHost(wild: map<int, Owner>, hosts: map<int, map<bytes, Owner>>, es: seq<Entry>, p: int, h: bytes)
      returns (at: nat)
    requires Records(wild, hosts, es) && p in hosts && h in hosts[p]
    ensures at < |es| && es[at] == Entry(Addr(h, p), hosts[p][h]) && !IsWildcard(h)
  {
    hide IsWildcard;
    var e := Entry(Addr(h, p), hosts[p][h]);
    assert e in es;
    at :| at < |es| && es[at] == e;
  }

  /** What the maps say about an address that nothing recorded overlaps. */
  lemma NoClash(wild: map<int, Owner>, hosts: map<int, map<bytes, Owner>>, es: seq<Entry>, a: Addr)
    requires Records(wild, hosts, es)
    ensures var at := if a.port in hosts then hosts[a.port] else map[];
      !Clashes(es, a) <==> a.port !in wild && (if IsWildcard(a.host) then |at| == 0 else a.host !in at)
  {
    hide IsWildcard;
    var at := if a.port in hosts then hosts[a.port] else map[];
    if a.port in wild {
      var i := WhereWildcard(wild, hosts, es, a.port);
      assert Overlap(es[i].addr, a);
    } else if IsWildcard(a.host) && |at| > 0 {
      assert (forall h :: h !in at.Keys) ==> at.Keys == {};
      var h :| h in at;
      var i := WhereHost(wild, hosts, es, a.port, h);
      assert Overlap(es[i].addr, a);
    } else if a.host in at {
      var i := WhereHost(wild, hosts, es, a.port, a.host);
      assert Overlap(es[i].addr, a);
    }
    if i :| 0 <= i < |es| && Overlap(es[i].addr, a) {
      assert es[i] in es;
    }
  }

  lemma AddEntry(es: seq<Entry>, e: Entry)
    requires Pairwise(es) && !Clashes(es, e.addr)
    ensures Pairwise(es + [e])
  {
    hide IsWildcard;
  }

  // ---- Which configurations pass ---------------------------------------

  /** An overlap with an entry of the same server is skipped instead of reported. */
  predicate Lenient(e: Entry) { e.owner.kind.Bind? || e.owner.kind.Port? }

  /** The entries recorded when no clash is reported: those that overlap no earlier recorded one. */
  ghost function Recorded(reqs: seq<Entry>): seq<Entry> {
    if reqs == [] then []
    else
      var es, e := Recorded(reqs[..|reqs| - 1]), reqs[|reqs| - 1];
      if Clashes(es, e.addr) then es else es + [e]
  }

  /** Some choice of the entry to name lets e pass. */
  ghost predicate MayPass(es: seq<Entry>, e: Entry) {
    !Clashes(es, e.addr)
    || (Lenient(e) && exists i :: 0 <= i < |es| && Overlap(es[i].addr, e.addr) && es[i].owner.name == e.owner.name)
  }

  /** Every choice does. */
  ghost predicate MustPass(es: seq<Entry>, e: Entry) {
    forall i :: 0 <= i < |es| && Overlap(es[i].addr, e.addr) ==> Lenient(e) && es[i].owner.name == e.owner.name
  }

  ghost predicate MayAccept(reqs: seq<Entry>) {
    reqs == [] || (MayAccept(reqs[..|reqs| - 1]) && MayPass(Recorded(reqs[..|reqs| - 1]), reqs[|reqs| - 1]))
  }

  ghost predicate MustAccept(reqs: seq<Entry>) {
    reqs == [] || (MustAccept(reqs[..|reqs| - 1]) && MustPass(Recorded(reqs[..|reqs| - 1]), reqs[|reqs| - 1]))
  }

  lemma Snoc(reqs: seq<Entry>, e: Entry)
    ensures Recorded(reqs + [e]) == if Clashes(Recorded(reqs), e.addr) then Recorded(reqs) else Recorded(reqs) + [e]
    ensures MayAccept(reqs + [e]) <==> MayAccept(reqs) && MayPass(Recorded(reqs), e)
    ensures MustAccept(reqs + [e]) <==> MustAccept(reqs) && MustPass(Recorded(reqs), e)
  {
    assert (reqs + [e])[..|reqs|] == reqs;
  }

  lemma {:induction false} MustPrefix(a: seq<Entry>, b: seq<Entry>)
    requires MustAccept(a + b)
    ensures MustAccept(a)
  {
    if b == [] {
      assert a + b == a;
    } else {
      assert (a + b)[..|a + b| - 1] == a + b[..|b| - 1];
      MustPrefix(a, b[..|b| - 1]);
    }
  }

  /** Recorded entries are requests. */
  lemma {:induction false} RecordedAmong(reqs: seq<Entry>)
    ensures forall e :: e in Recorded(reqs) ==> e in reqs
  {
    if reqs != [] {
      RecordedAmong(reqs[..|reqs| - 1]);
    }
  }

  // ---- The main characterization ---------------------------------------

  predicate SameServer(a: Entry, b: Entry) { Lenient(a) && Lenient(b) && a.owner.name == b.owner.name }

  /** Servers come before gateways. */
  ghost predicate ServersFirst(reqs: seq<Entry>) {
    forall i, j :: 0 <= i < j < |reqs| && Lenient(reqs[j]) ==> Lenient(reqs[i])
  }

  /** What the check is for: addresses overlap, if at all, within one server. */
  ghost predicate CrossDisjoint(reqs: seq<Entry>) {
    forall i, j :: 0 <= i < j < |reqs| && !SameServer(reqs[i], reqs[j]) ==> !Overlap(reqs[i].addr, reqs[j].addr)
  }

  /** Requests i and j are two addresses of one server that overlap each other. */
  predicate SelfOverlap(reqs: seq<Entry>, i: nat, j: nat) {
    i < |reqs| && j < |reqs| && i != j && SameServer(reqs[i], reqs[j]) && Overlap(reqs[i].addr, reqs[j].addr)
  }

  /** An address that overlaps another one of its server overlaps nobody else's. */
  ghost predicate SelfClean(reqs: seq<Entry>) {
    forall i: nat, j: nat, k :: SelfOverlap(reqs, i, j) && 0 <= k < |reqs| && Overlap(reqs[k].addr, reqs[j].addr) ==>
      SameServer(reqs[k], reqs[j])
  }

  /** No server's own addresses overlap each other. */
  ghost predicate NoSelfOverlap(reqs: seq<Entry>) {
    forall i: nat, j: nat :: !SelfOverlap(reqs, i, j)
  }

  lemma OverlapSymmetric(a: Addr, b: Addr)
    ensures Overlap(a, b) <==> Overlap(b, a)
  {
  }

  /** Nothing is rejected without a reason. */
  lemma {:induction false} CrossDisjointPasses(reqs: seq<Entry>)
    requires CrossDisjoint(reqs)
    ensures MustAccept(reqs)
  {
    hide Overlap, Recorded;
    if reqs != [] {
      var front, e := reqs[..|reqs| - 1], reqs[|reqs| - 1];
      CrossDisjointPasses(front);
      RecordedAmong(front);
      forall i | 0 <= i < |Recorded(front)| && Overlap(Recorded(front)[i].addr, e.addr)
        ensures SameServer(Recorded(front)[i], e)
      {
        var x := Recorded(front)[i];
        assert x in front;
        var k :| 0 <= k < |front| && front[k] == x;
        assert reqs[k] == x;
      }
    }
  }

  /** A request that passed is recorded, or overlaps an address of its own server. */
  lemma {:induction false} PassedRequests(reqs: seq<Entry>, k: nat)
    requires MayAccept(reqs) && ServersFirst(reqs) && k < |reqs|
    ensures reqs[k] in Recorded(reqs) || exists i: nat :: SelfOverlap(reqs, i, k)
  {
    hide Overlap;
    var front, e := reqs[..|reqs| - 1], reqs[|reqs| - 1];
    if k < |front| {
      PassedRequests(front, k);
      if i: nat :| SelfOverlap(front, i, k) {
        assert SelfOverlap(reqs, i, k);
      }
    } else if Clashes(Recorded(front), e.addr) {
      var x := Excuse(Recorded(front), e);
      RecordedAmong(front);
      assert x in front;
      var i: nat :| i < |front| && front[i] == x;
      assert reqs[i] == x;
      assert SelfOverlap(reqs, i, k);
    }
  }

  lemma {:induction false} PassingIsDisjoint(reqs: seq<Entry>)
    requires MayAccept(reqs) && SelfClean(reqs) && ServersFirst(reqs)
    ensures CrossDisjoint(reqs)
  {
    hide Overlap, Recorded;
    if reqs == [] {
      return;
    }
    var n := |reqs| - 1;
    var front, e := reqs[..n], reqs[n];
    SelfCleanFront(reqs);
    PassingIsDisjoint(front);
    forall k | 0 <= k < n && Overlap(reqs[k].addr, e.addr) ensures SameServer(reqs[k], e) {
      OverlapSymmetric(reqs[k].addr, e.addr);
      PassedRequests(front, k);
      if i: nat :| SelfOverlap(front, i, k) {
        assert SelfOverlap(reqs, i, k);
      } else {
        assert reqs == front + [e];
        var i := LastPassed(front, e, k);
      }
    }
  }

  lemma SelfCleanFront(reqs: seq<Entry>)
    requires reqs != [] && SelfClean(reqs)
    ensures SelfClean(reqs[..|reqs| - 1])
  {
    hide Overlap;
    var front := reqs[..|reqs| - 1];
    forall i: nat, j: nat, k | SelfOverlap(front, i, j) && 0 <= k < |front| && Overlap(front[k].addr, front[j].addr)
      ensures SameServer(front[k], front[j])
    {
      assert SelfOverlap(reqs, i, j);
      assert front[k] == reqs[k] && front[j] == reqs[j];
    }
  }

  /** A last request that overlaps a recorded one has passed because of its own server. */
  lemma LastPassed(front: seq<Entry>, e: Entry, k: nat) returns (i: nat)
    requires MayAccept(front + [e]) && ServersFirst(front + [e])
    requires k < |front| && front[k] in Recorded(front) && Overlap(front[k].addr, e.addr)
    ensures SelfOverlap(front + [e], i, |front|)
  {
    hide Overlap, Recorded, MayAccept, MustAccept;
    Snoc(front, e);
    var es := Recorded(front);
    var at :| 0 <= at < |es| && es[at] == front[k];
    assert Clashes(es, e.addr);
    var x := Excuse(es, e);
    RecordedAmong(front);
    assert x in front;
    i :| i < |front| && front[i] == x;
    assert (front + [e])[i] == x && (front + [e])[|front|] == e;
  }

  lemma Excuse(es: seq<Entry>, e: Entry) returns (x: Entry)
    requires MayPass(es, e) && Clashes(es, e.addr)
    ensures x in es && Overlap(x.addr, e.addr) && Lenient(e) && x.owner.name == e.owner.name
  {
    hide Overlap;
    var i :| 0 <= i < |es| && Overlap(es[i].addr, e.addr) && es[i].owner.name == e.owner.name;
    x := es[i];
  }

  /**
   * Exactly what a passed check is worth, for every configuration: no two parties' addresses
   * overlap if and only if the check passes and no address that overlaps another of its own server
   * also overlaps somebody else's. Then the order of the maps does not matter either.
   */
  lemma DisjointIff(reqs: seq<Entry>)
    requires ServersFirst(reqs)
    ensures CrossDisjoint(reqs) <==> MayAccept(reqs) && SelfClean(reqs)
    ensures CrossDisjoint(reqs) <==> MustAccept(reqs) && SelfClean(reqs)
  {
    MustIsMay(reqs);
    if CrossDisjoint(reqs) {
      CrossDisjointPasses(reqs);
      CrossDisjointClean(reqs);
    }
    if MayAccept(reqs) && SelfClean(reqs) {
      PassingIsDisjoint(reqs);
    }
  }

  lemma CrossDisjointClean(reqs: seq<Entry>)
    requires CrossDisjoint(reqs)
    ensures SelfClean(reqs)
  {
    hide Overlap;
    forall i: nat, j: nat, k | SelfOverlap(reqs, i, j) && 0 <= k < |reqs| && Overlap(reqs[k].addr, reqs[j].addr)
      ensures SameServer(reqs[k], reqs[j])
    {
      OverlapSymmetric(reqs[k].addr, reqs[j].addr);
    }
  }

  /**
   * In particular, when no server's own addresses overlap each other, the listeners pass exactly
   * if they are pairwise non-overlapping.
   */
  lemma AcceptedIffDisjoint(reqs: seq<Entry>)
    requires NoSelfOverlap(reqs) && ServersFirst(reqs)
    ensures MayAccept(reqs) <==> Pairwise(reqs)
    ensures MustAccept(reqs) <==> Pairwise(reqs)
  {
    hide Overlap, MayAccept, MustAccept;
    DisjointIff(reqs);
    forall i, j | 0 <= i < j < |reqs| && SameServer(reqs[i], reqs[j]) ensures !Overlap(reqs[i].addr, reqs[j].addr) {
      assert !SelfOverlap(reqs, i, j);
    }
  }

  lemma {:induction false} MustIsMay(reqs: seq<Entry>)
    ensures MustAccept(reqs) ==> MayAccept(reqs)
  {
    if reqs != [] {
      MustIsMay(reqs[..|reqs| - 1]);
    }
  }

  // ---- Where the check falls short -------------------------------------

  /**
   * A skipped overlap is not recorded, so it hides later ones: one server binds a host and also
   * lists the bare port, another server listens on a second host. This always passes, although
   * the bare port and the second server's address cannot both be opened.
   */
  lemma SkippedOverlapHidesAnother(a: bytes, b: bytes, h: bytes, g: bytes, port: int)
    requires a != b && h != g && !IsWildcard(h) && !IsWildcard(g)
    ensures var reqs := [Entry(Addr(h, port), Owner(Bind, a)), Entry(Addr([], port), Owner(Port, a)),
                         Entry(Addr(g, port), Owner(Port, b))];
      MustAccept(reqs) && Overlap(reqs[1].addr, reqs[2].addr) && reqs[1].owner.name != reqs[2].owner.name
  {
    var x, y := Entry(Addr(h, port), Owner(Bind, a)), Entry(Addr([], port), Owner(Port, a));
    var z := Entry(Addr(g, port), Owner(Port, b));
    Seen(h, g, port);
    NothingYet();
    hide Overlap, IsWildcard, Recorded, MustAccept, MayAccept, MustPass, Clashes;
    assert [] + [x] == [x] && [x] + [y] == [x, y] && [x, y] + [z] == [x, y, z];
    PassOne(x, y);
    PassOne(x, z);
    Snoc([], x);
    Snoc([x], y);
    Snoc([x, y], z);
  }

  lemma PassOne(x: Entry, e: Entry)
    ensures Clashes([x], e.addr) <==> Overlap(x.addr, e.addr)
    ensures MustPass([x], e) <==> (Overlap(x.addr, e.addr) ==> Lenient(e) && x.owner.name == e.owner.name)
    ensures !Clashes([], x.addr) && MustPass([], x)
  {
    hide Overlap;
    assert Overlap([x][0].addr, e.addr) == Overlap(x.addr, e.addr);
  }

  lemma Seen(h: bytes, g: bytes, port: int)
    requires h != g && !IsWildcard(h) && !IsWildcard(g)
    ensures var x, y, z := Addr(h, port), Addr(g, port), Addr([], port);
      !Overlap(x, y) && Overlap(x, z) && Overlap(y, z) && Overlap(z, y)
  {
    EmptyIsWildcard();
  }

  lemma EmptyIsWildcard()
    ensures IsWildcard([])
  {
  }

  /**
   * The verdict can depend on the order in which Go happens to walk a map: two servers listen on
   * different hosts of a port, then the second one also lists the bare port.
   */
  lemma VerdictDependsOnMapOrder(a: bytes, b: bytes, h: bytes, g: bytes, port: int)
    requires a != b && h != g && !IsWildcard(h) && !IsWildcard(g)
    ensures var reqs := [Entry(Addr(h, port), Owner(Port, a)), Entry(Addr(g, port), Owner(Port, b)),
                         Entry(Addr([], port), Owner(Port, b))];
      MayAccept(reqs) && !MustAccept(reqs)
  {
    var x, y := Entry(Addr(h, port), Owner(Port, a)), Entry(Addr(g, port), Owner(Port, b));
    var z := Entry(Addr([], port), Owner(Port, b));
    Seen(h, g, port);
    NothingYet();
    hide Overlap, IsWildcard, Recorded, MustAccept, MayAccept;
    assert [] + [x] == [x] && [x] + [y] == [x, y] && [x, y] + [z] == [x, y, z];
    Snoc([], x);
    assert !Clashes([x], y.addr);
    Snoc([x], y);
    assert Recorded([x, y]) == [x, y] && MayAccept([x, y]);
    hide Lenient;
    Snoc([x, y], z);
    assert Overlap([x, y][0].addr, z.addr) && Overlap([x, y][1].addr, z.addr);
  }

  /** The port holds a recorded entry with this name, or one with another name. */
  ghost predicate OwnOn(es: seq<Entry>, port: int, name: bytes) {
    exists i :: 0 <= i < |es| && es[i].addr.port == port && es[i].owner.name == name
  }

  ghost predicate OtherOn(es: seq<Entry>, port: int, name: bytes) {
    exists i :: 0 <= i < |es| && es[i].addr.port == port && es[i].owner.name != name
  }

  /** A server lists a wildcard on a port on which itself and somebody else are recorded. */
  ghost predicate Ambiguous(es: seq<Entry>, e: Entry) {
    && Lenient(e) && IsWildcard(e.addr.host)
    && OwnOn(es, e.addr.port, e.owner.name) && OtherOn(es, e.addr.port, e.owner.name)
  }

  /** For one request: whether it passes is open exactly if it is ambiguous. */
  lemma OpenIff(es: seq<Entry>, e: Entry)
    requires Pairwise(es)
    ensures MayPass(es, e) && !MustPass(es, e) <==> Ambiguous(es, e)
  {
    hide IsWildcard;
    if Ambiguous(es, e) {
      var i :| 0 <= i < |es| && es[i].addr.port == e.addr.port && es[i].owner.name == e.owner.name;
      var j :| 0 <= j < |es| && es[j].addr.port == e.addr.port && es[j].owner.name != e.owner.name;
      assert Overlap(es[i].addr, e.addr) && Overlap(es[j].addr, e.addr);
    }
    if MayPass(es, e) && !MustPass(es, e) {
      var j :| 0 <= j < |es| && Overlap(es[j].addr, e.addr) && !(Lenient(e) && es[j].owner.name == e.owner.name);
      var i :| 0 <= i < |es| && Overlap(es[i].addr, e.addr) && es[i].owner.name == e.owner.name;
      TwoOverlaps(es[i].addr, es[j].addr, e.addr);
    }
  }

  lemma TwoOverlaps(a: Addr, b: Addr, c: Addr)
    requires Overlap(a, c) && Overlap(b, c)
    ensures IsWildcard(c.host) || (Overlap(a, b) && Overlap(b, a))
  {
  }

  lemma {:induction false} RecordedPairwise(reqs: seq<Entry>)
    ensures Pairwise(Recorded(reqs))
  {
    if reqs != [] {
      var es, e := Recorded(reqs[..|reqs| - 1]), reqs[|reqs| - 1];
      RecordedPairwise(reqs[..|reqs| - 1]);
      if !Clashes(es, e.addr) {
        AddEntry(es, e);
      }
    }
  }

  /** Some request was ambiguous when it was registered. */
  ghost predicate SomeAmbiguous(reqs: seq<Entry>) {
    exists k :: 0 <= k < |reqs| && AmbiguousAt(reqs, k)
  }

  ghost predicate AmbiguousAt(reqs: seq<Entry>, k: nat)
    requires k < |reqs|
  {
    Ambiguous(Recorded(reqs[..k]), reqs[k])
  }

  /**
   * Exactly when the verdict depends on the order of a map: a configuration that can pass can also
   * be rejected if and only if some server lists a wildcard on a port on which it is recorded
   * already together with somebody else.
   */
  lemma {:induction false} MapOrderMattersIff(reqs: seq<Entry>)
    requires MayAccept(reqs)
    ensures !MustAccept(reqs) <==> SomeAmbiguous(reqs)
  {
    hide Recorded, Ambiguous;
    if reqs != [] {
      var n := |reqs| - 1;
      var front := reqs[..n];
      MapOrderMattersIff(front);
      RecordedPairwise(front);
      OpenIff(Recorded(front), reqs[n]);
      forall k | 0 <= k < n ensures AmbiguousAt(reqs, k) <==> AmbiguousAt(front, k) {
        assert front[..k] == reqs[..k];
      }
      assert AmbiguousAt(reqs, n) <==> Ambiguous(Recorded(front), reqs[n]);
      if k :| 0 <= k < n && AmbiguousAt(front, k) {
        assert AmbiguousAt(reqs, k);
      }
      if k :| 0 <= k < n && AmbiguousAt(reqs, k) {
        assert AmbiguousAt(front, k);
      }
    }
  }

  // ---- Choices of the entry to name ------------------------------------

  /** For each request that clashes, which recorded entry the walk over the map comes to first. */
  ghost predicate Choices(reqs: seq<Entry>, picks: seq<nat>) {
    && |picks| == |reqs|
    && forall k :: 0 <= k < |reqs| && Clashes(Recorded(reqs[..k]), reqs[k].addr) ==> Picked(reqs, picks, k)
  }

  ghost predicate Picked(reqs: seq<Entry>, picks: seq<nat>, k: nat)
    requires k < |reqs| == |picks|
  {
    var es := Recorded(reqs[..k]);
    picks[k] < |es| && Overlap(es[picks[k]].addr, reqs[k].addr)
  }

  /** With these choices no clash is reported. */
  ghost predicate PassesWith(reqs: seq<Entry>, picks: seq<nat>)
    requires Choices(reqs, picks)
  {
    forall k :: 0 <= k < |reqs| && Clashes(Recorded(reqs[..k]), reqs[k].addr) ==> Excused(reqs, picks, k)
  }

  ghost predicate Excused(reqs: seq<Entry>, picks: seq<nat>, k: nat)
    requires k < |reqs| == |picks| && Picked(reqs, picks, k)
  {
    Lenient(reqs[k]) && Recorded(reqs[..k])[picks[k]].owner.name == reqs[k].owner.name
  }

  lemma ChoicesExtend(reqs: seq<Entry>, picks: seq<nat>, pick: nat)
    requires reqs != [] && Choices(reqs[..|reqs| - 1], picks)
    requires var es, e := Recorded(reqs[..|reqs| - 1]), reqs[|reqs| - 1];
      Clashes(es, e.addr) ==> pick < |es| && Overlap(es[pick].addr, e.addr)
    ensures Choices(reqs, picks + [pick])
    ensures var es, e := Recorded(reqs[..|reqs| - 1]), reqs[|reqs| - 1];
      PassesWith(reqs, picks + [pick]) <==>
        && PassesWith(reqs[..|reqs| - 1], picks)
        && (Clashes(es, e.addr) ==> Lenient(e) && es[pick].owner.name == e.owner.name)
  {
    hide Recorded, Clashes, Overlap, Lenient;
    var n, more := |reqs| - 1, picks + [pick];
    var front := reqs[..n];
    forall k | 0 <= k < n ensures front[..k] == reqs[..k] && front[k] == reqs[k] && more[k] == picks[k] {
    }
    assert Choices(reqs, more);
    forall k | 0 <= k < n && Clashes(Recorded(reqs[..k]), reqs[k].addr)
      ensures Picked(front, picks, k) && (Excused(reqs, more, k) <==> Excused(front, picks, k))
    {
    }
  }

  /** Accepting is a matter of choice exactly between what may and what must be accepted. */
  lemma {:induction false} SomeChoicePasses(reqs: seq<Entry>) returns (picks: seq<nat>)
    ensures Choices(reqs, picks)
    ensures PassesWith(reqs, picks) <==> MayAccept(reqs)
  {
    if reqs == [] {
      picks := [];
    } else {
      var es, e := Recorded(reqs[..|reqs| - 1]), reqs[|reqs| - 1];
      picks := SomeChoicePasses(reqs[..|reqs| - 1]);
      var pick: nat := 0;
      if Clashes(es, e.addr) {
        pick := BestPick(es, e);
      }
      ChoicesExtend(reqs, picks, pick);
      picks := picks + [pick];
    }
  }

  lemma BestPick(es: seq<Entry>, e: Entry) returns (pick: nat)
    requires Clashes(es, e.addr)
    ensures pick < |es| && Overlap(es[pick].addr, e.addr)
    ensures Lenient(e) && es[pick].owner.name == e.owner.name <==> MayPass(es, e)
  {
    hide Overlap;
    if MayPass(es, e) {
      pick :| pick < |es| && Overlap(es[pick].addr, e.addr) && es[pick].owner.name == e.owner.name;
    } else {
      pick :| pick < |es| && Overlap(es[pick].addr, e.addr);
    }
  }

  lemma {:induction false} SomeChoiceFails(reqs: seq<Entry>) returns (picks: seq<nat>)
    ensures Choices(reqs, picks)
    ensures PassesWith(reqs, picks) <==> MustAccept(reqs)
  {
    if reqs == [] {
      picks := [];
    } else {
      var es, e := Recorded(reqs[..|reqs| - 1]), reqs[|reqs| - 1];
      picks := SomeChoiceFails(reqs[..|reqs| - 1]);
      var pick: nat := 0;
      if Clashes(es, e.addr) {
        pick := WorstPick(es, e);
      }
      ChoicesExtend(reqs, picks, pick);
      picks := picks + [pick];
    }
  }

  lemma WorstPick(es: seq<Entry>, e: Entry) returns (pick: nat)
    requires Clashes(es, e.addr)
    ensures pick < |es| && Overlap(es[pick].addr, e.addr)
    ensures Lenient(e) && es[pick].owner.name == e.owner.name <==> MustPass(es, e)
  {
    hide Overlap;
    if MustPass(es, e) {
      pick :| pick < |es| && Overlap(es[pick].addr, e.addr);
    } else {
      pick :| pick < |es| && Overlap(es[pick].addr, e.addr) && !(Lenient(e) && es[pick].owner.name == e.owner.name);
    }
  }

  lemma {:induction false} ChoicesBetween(reqs: seq<Entry>, picks: seq<nat>)
    requires Choices(reqs, picks)
    ensures MustAccept(reqs) ==> PassesWith(reqs, picks)
    ensures PassesWith(reqs, picks) ==> MayAccept(reqs)
  {
    hide Recorded, Overlap;
    if reqs != [] {
      var n := |reqs| - 1;
      var front, fewer := reqs[..n], picks[..n];
      forall k | 0 <= k < n ensures front[..k] == reqs[..k] {
      }
      assert forall k :: 0 <= k < n && Clashes(Recorded(front[..k]), front[k].addr) ==>
        Picked(reqs, picks, k) && Picked(front, fewer, k);
      ChoicesBetween(front, fewer);
      assert Clashes(Recorded(front), reqs[n].addr) ==> Picked(reqs, picks, n);
      assert fewer + [picks[n]] == picks;
      ChoicesExtend(reqs, fewer, picks[n]);
    }
  }

  // ---- validateListeners -----------------------------------------------

  datatype Server = Server(name: bytes, bindAddr: bytes, ports: seq<bytes>)
  datatype Gate = Gate(name: bytes, listenAddr: bytes)
  datatype Config = Config(servers: seq<Server>, sniGateways: seq<Gate>, httpGateways: seq<Gate>)

  datatype Verdict = Accepted | Malformed(who: Owner) | Clash(existing: Owner, wanted: Entry)

  function Entries(addrs: seq<Addr>, owner: Owner): seq<Entry> {
    seq(|addrs|, i requires 0 <= i < |addrs| => Entry(addrs[i], owner))
  }

  function PortRequests(name: bytes, ports: seq<bytes>): seq<Entry> {
    if ports == [] then []
    else
      var front, last := PortRequests(name, ports[..|ports| - 1]), ListenAddrs(ports[|ports| - 1]);
      if last.Ok? then front + Entries(last.value, Owner(Port, name)) else front
  }

  /** A bind address that does not parse is left to the runtime. */
  function BindRequests(s: Server): seq<Entry> {
    var a := ParseHostPort(s.bindAddr);
    if a.Some? then [Entry(a.value, Owner(Bind, s.name))] else []
  }

  function ServerRequests(servers: seq<Server>): seq<Entry> {
    if servers == [] then []
    else
      var s := servers[|servers| - 1];
      ServerRequests(servers[..|servers| - 1]) + BindRequests(s) + PortRequests(s.name, s.ports)
  }

  function GateRequests(kind: OwnerKind, gates: seq<Gate>): seq<Entry> {
    if gates == [] then []
    else
      var front, last := GateRequests(kind, gates[..|gates| - 1]), gates[|gates| - 1];
      var a := ParseHostPort(last.listenAddr);
      if a.Some? then front + [Entry(a.value, Owner(kind, last.name))] else front
  }

  /** Every listen address of a configuration, in the order in which they are registered. */
  function Requests(c: Config): seq<Entry> {
    ServerRequests(c.servers) + GateRequests(SniGateway, c.sniGateways) + GateRequests(HttpGateway, c.httpGateways)
  }

  predicate PortsParse(ports: seq<bytes>) { forall i :: 0 <= i < |ports| ==> ListenAddrs(ports[i]).Ok? }

  predicate GatesParse(gates: seq<Gate>) { forall i :: 0 <= i < |gates| ==> ParseHostPort(gates[i].listenAddr).Some? }

  predicate WellFormed(c: Config) {
    && (forall i :: 0 <= i < |c.servers| ==> PortsParse(c.servers[i].ports))
    && GatesParse(c.sniGateways) && GatesParse(c.httpGateways)
  }

  /** Two different requests of the configuration that really overlap, and that may not. */
  ghost predicate RealClash(reqs: seq<Entry>, existing: Owner, wanted: Entry) {
    exists i, j :: 0 <= i < j < |reqs| && RealClashAt(reqs[i], existing, reqs[j], wanted)
  }

  predicate RealClashAt(first: Entry, existing: Owner, second: Entry, wanted: Entry) {
    && first.owner == existing && second == wanted && Overlap(first.addr, wanted.addr)
    && (Lenient(wanted) ==> existing.name != wanted.owner.name)
  }

  lemma RealClashMore(a: seq<Entry>, b: seq<Entry>, existing: Owner, wanted: Entry)
    requires RealClash(a, existing, wanted)
    ensures RealClash(a + b, existing, wanted)
  {
    hide RealClashAt;
    var i, j :| 0 <= i < j < |a| && RealClashAt(a[i], existing, a[j], wanted);
    assert (a + b)[i] == a[i] && (a + b)[j] == a[j];
  }

  /** The table stands for these requests, all of which passed. */
  ghost predicate Tracks(t: Table, reqs: seq<Entry>)
    reads t
  {
    t.Valid() && t.entries == Recorded(reqs) && MayAccept(reqs)
  }

  /** What the rest of the check may rely on after some requests. */
  ghost predicate Judged(t: Table, v: Verdict, reqs: seq<Entry>, parses: bool)
    reads t
  {
    match v
    case Accepted => parses && Tracks(t, reqs)
    case Malformed(_) => !parses
    case Clash(existing, wanted) => !MustAccept(reqs) && RealClash(reqs, existing, wanted)
  }

  lemma JudgedMore(t: Table, v: Verdict, reqs: seq<Entry>, parses: bool, more: seq<Entry>, stillParses: bool)
    requires Judged(t, v, reqs, parses) && !v.Accepted? && (stillParses ==> parses)
    ensures Judged(t, v, reqs + more, stillParses)
  {
    if v.Clash? {
      RealClashMore(reqs, more, v.existing, v.wanted);
      if MustAccept(reqs + more) {
        MustPrefix(reqs, more);
      }
    }
  }

  /** register and the test that follows it for one address. */
  method Admit(t: Table, e: Entry, ghost done: seq<Entry>) returns (v: Verdict)
    requires Tracks(t, done)
    modifies t
    ensures Judged(t, v, done + [e], true)
  {
    hide Overlap, Recorded, MayAccept, MustAccept;
    Snoc(done, e);
    ghost var before := t.entries;
    var existing, ok, at := t.Register(e.addr, e.owner);
    if !ok && (!Lenient(e) || existing.name != e.owner.name) {
      RecordedAmong(done);
      assert before[at] in done;
      ghost var i: nat :| i < |done| && done[i] == before[at];
      assert (done + [e])[i] == before[at] && (done + [e])[|done|] == e;
      assert RealClashAt((done + [e])[i], existing, (done + [e])[|done|], e);
      return Clash(existing, e);
    }
    return Accepted;
  }

  /** The loop over the addresses of one ports entry. */
  method AdmitAll(t: Table, es: seq<Entry>, ghost done: seq<Entry>) returns (v: Verdict)
    requires Tracks(t, done)
    modifies t
    ensures Judged(t, v, done + es, true)
  {
    hide Recorded, MayAccept, MustAccept, RealClash;
    assert done + es[..0] == done;
    for i := 0 to |es|
      invariant Tracks(t, done + es[..i])
    {
      v := Admit(t, es[i], done + es[..i]);
      assert done + es[..i] + [es[i]] == done + es[..i + 1];
      if !v.Accepted? {
        JudgedMore(t, v, done + es[..i + 1], true, es[i + 1..], true);
        assert done + es[..i + 1] + es[i + 1..] == done + es;
        return;
      }
    }
    assert es[..|es|] == es;
    return Accepted;
  }

  lemma PortRequestsNext(name: bytes, ports: seq<bytes>, i: nat)
    requires i < |ports|
    ensures var r := ListenAddrs(ports[i]);
      PortRequests(name, ports[..i + 1])
        == if r.Ok? then PortRequests(name, ports[..i]) + Entries(r.value, Owner(Port, name))
           else PortRequests(name, ports[..i])
  {
    assert ports[..i + 1][..i] == ports[..i];
  }

  /** What comes later only adds requests at the end. */
  lemma {:induction false} PortRequestsFrom(name: bytes, ports: seq<bytes>, i: nat) returns (more: seq<Entry>)
    requires i <= |ports|
    ensures PortRequests(name, ports) == PortRequests(name, ports[..i]) + more
    decreases |ports| - i
  {
    hide PortRequests, Entries, ListenAddrs;
    if i == |ports| {
      more := [];
      assert ports[..i] == ports;
    } else {
      PortRequestsNext(name, ports, i);
      var rest := PortRequestsFrom(name, ports, i + 1);
      var r := ListenAddrs(ports[i]);
      if r.Ok? {
        more := Entries(r.value, Owner(Port, name)) + rest;
        Regroup(PortRequests(name, ports[..i]), Entries(r.value, Owner(Port, name)), rest);
      } else {
        more := rest;
      }
    }
  }

  lemma Regroup(a: seq<Entry>, b: seq<Entry>, c: seq<Entry>)
    ensures (a + b) + c == a + (b + c)
  {
  }

  /** The loop over one server's ports. */
  method AdmitPorts(t: Table, s: Server, ghost done: seq<Entry>) returns (v: Verdict)
    requires Tracks(t, done)
    modifies t
    ensures Judged(t, v, done + PortRequests(s.name, s.ports), PortsParse(s.ports))
  {
    hide Recorded, MayAccept, MustAccept, RealClash, PortRequests, ListenAddrs, Entries;
    var owner := Owner(Port, s.name);
    NoPortRequests(s.name, s.ports);
    assert done + [] == done;
    for i := 0 to |s.ports|
      invariant Tracks(t, done + PortRequests(s.name, s.ports[..i]))
      invariant forall k :: 0 <= k < i ==> ListenAddrs(s.ports[k]).Ok?
    {
      var addrs := PortMappingListenAddrs(s.ports[i]);
      if addrs.Err? {
        return Malformed(owner);
      }
      ghost var sofar := PortRequests(s.name, s.ports[..i]);
      var es := Entries(addrs.value, owner);
      PortRequestsNext(s.name, s.ports, i);
      v := AdmitAll(t, es, done + sofar);
      Regroup(done, sofar, es);
      if !v.Accepted? {
        ghost var more := PortRequestsFrom(s.name, s.ports, i + 1);
        Regroup(done, sofar + es, more);
        JudgedMore(t, v, done + (sofar + es), true, more, PortsParse(s.ports));
        return;
      }
    }
    assert s.ports[..|s.ports|] == s.ports;
    return Accepted;
  }

  lemma NoPortRequests(name: bytes, ports: seq<bytes>)
    ensures PortRequests(name, ports[..0]) == []
  {
  }

  /** One turn of the loop over the servers. */
  method AdmitServer(t: Table, s: Server, ghost done: seq<Entry>) returns (v: Verdict)
    requires Tracks(t, done)
    modifies t
    ensures Judged(t, v, done + BindRequests(s) + PortRequests(s.name, s.ports), PortsParse(s.ports))
  {
    hide Recorded, MayAccept, MustAccept, RealClash, PortRequests, ParseHostPort, PortsParse;
    var a := ParseHostPort(s.bindAddr);
    ghost var bound := done + BindRequests(s);
    if a.Some? {
      v := Admit(t, Entry(a.value, Owner(Bind, s.name)), done);
      if !v.Accepted? {
        JudgedMore(t, v, bound, true, PortRequests(s.name, s.ports), PortsParse(s.ports));
        return;
      }
    } else {
      assert bound == done;
    }
    v := AdmitPorts(t, s, bound);
  }

  lemma ServerRequestsNext(servers: seq<Server>, i: nat)
    requires i < |servers|
    ensures ServerRequests(servers[..i + 1])
      == ServerRequests(servers[..i]) + BindRequests(servers[i]) + PortRequests(servers[i].name, servers[i].ports)
  {
    assert servers[..i + 1][..i] == servers[..i];
  }

  lemma {:induction false} ServerRequestsFrom(servers: seq<Server>, i: nat) returns (more: seq<Entry>)
    requires i <= |servers|
    ensures ServerRequests(servers) == ServerRequests(servers[..i]) + more
    decreases |servers| - i
  {
    hide BindRequests, PortRequests;
    if i == |servers| {
      more := [];
      assert servers[..i] == servers;
    } else {
      ServerRequestsNext(servers, i);
      var rest := ServerRequestsFrom(servers, i + 1);
      more := BindRequests(servers[i]) + PortRequests(servers[i].name, servers[i].ports) + rest;
    }
  }

  lemma NoServerRequests(servers: seq<Server>)
    ensures ServerRequests(servers[..0]) == []
  {
  }

  predicate ServersParse(servers: seq<Server>) { forall i :: 0 <= i < |servers| ==> PortsParse(servers[i].ports) }

  method AdmitServers(t: Table, servers: seq<Server>) returns (v: Verdict)
    requires Tracks(t, [])
    modifies t
    ensures Judged(t, v, ServerRequests(servers), ServersParse(servers))
  {
    hide Recorded, MayAccept, MustAccept, RealClash, ServerRequests, BindRequests, PortRequests, PortsParse;
    NoServerRequests(servers);
    for i := 0 to |servers|
      invariant Tracks(t, ServerRequests(servers[..i]))
      invariant forall k :: 0 <= k < i ==> PortsParse(servers[k].ports)
    {
      ServerRequestsNext(servers, i);
      v := AdmitServer(t, servers[i], ServerRequests(servers[..i]));
      if !v.Accepted? {
        ghost var more := ServerRequestsFrom(servers, i + 1);
        JudgedMore(t, v, ServerRequests(servers[..i + 1]), PortsParse(servers[i].ports), more, ServersParse(servers));
        return;
      }
    }
    assert servers[..|servers|] == servers;
    return Accepted;
  }

  lemma GateRequestsNext(kind: OwnerKind, gates: seq<Gate>, i: nat)
    requires i < |gates|
    ensures var a := ParseHostPort(gates[i].listenAddr);
      GateRequests(kind, gates[..i + 1])
        == if a.Some? then GateRequests(kind, gates[..i]) + [Entry(a.value, Owner(kind, gates[i].name))]
           else GateRequests(kind, gates[..i])
    ensures GateRequests(kind, gates[..0]) == []
  {
    assert gates[..i + 1][..i] == gates[..i];
  }

  lemma {:induction false} GateRequestsFrom(kind: OwnerKind, gates: seq<Gate>, i: nat) returns (more: seq<Entry>)
    requires i <= |gates|
    ensures GateRequests(kind, gates) == GateRequests(kind, gates[..i]) + more
    decreases |gates| - i
  {
    hide ParseHostPort;
    if i == |gates| {
      more := [];
      assert gates[..i] == gates;
    } else {
      GateRequestsNext(kind, gates, i);
      var rest := GateRequestsFrom(kind, gates, i + 1);
      var a := ParseHostPort(gates[i].listenAddr);
      more := (if a.Some? then [Entry(a.value, Owner(kind, gates[i].name))] else []) + rest;
    }
  }

  /** The loop over the gateways of one kind. */
  method AdmitGates(t: Table, kind: OwnerKind, gates: seq<Gate>, ghost done: seq<Entry>) returns (v: Verdict)
    requires Tracks(t, done)
    modifies t
    ensures Judged(t, v, done + GateRequests(kind, gates), GatesParse(gates))
  {
    hide Recorded, MayAccept, MustAccept, RealClash, GateRequests, ParseHostPort;
    NoGateRequests(kind, gates);
    assert done + [] == done;
    for i := 0 to |gates|
      invariant Tracks(t, done + GateRequests(kind, gates[..i]))
      invariant forall k :: 0 <= k < i ==> ParseHostPort(gates[k].listenAddr).Some?
    {
      var a := ParseHostPort(gates[i].listenAddr);
      if a.None? {
        return Malformed(Owner(kind, gates[i].name));
      }
      ghost var sofar := GateRequests(kind, gates[..i]);
      var e := Entry(a.value, Owner(kind, gates[i].name));
      GateRequestsNext(kind, gates, i);
      Regroup(done, sofar, [e]);
      v := Admit(t, e, done + sofar);
      if !v.Accepted? {
        ghost var more := GateRequestsFrom(kind, gates, i + 1);
        Regroup(done, sofar + [e], more);
        JudgedMore(t, v, done + (sofar + [e]), true, more, GatesParse(gates));
        return;
      }
    }
    assert gates[..|gates|] == gates;
    return Accepted;
  }

  lemma NoGateRequests(kind: OwnerKind, gates: seq<Gate>)
    ensures GateRequests(kind, gates[..0]) == []
  {
  }

  /**
   * validateListeners. What passes parses and may pass; what parses and must pass does; and a
   * reported clash is a real overlap of two different addresses of the configuration.
   */
  method ValidateListeners(c: Config) returns (v: Verdict, t: Table)
    ensures Judged(t, v, Requests(c), WellFormed(c))
    ensures SelfClean(Requests(c)) ==> (v.Accepted? <==> WellFormed(c) && CrossDisjoint(Requests(c)))
    ensures WellFormed(c) && CrossDisjoint(Requests(c)) ==> v.Accepted?
    ensures v.Accepted? ==>
      && (forall i, k :: 0 <= i < |c.servers| && 0 <= k < |c.servers[i].ports| ==>
            ListenAddrs(c.servers[i].ports[k]).Ok?)
      && (forall i :: 0 <= i < |c.sniGateways| ==> ParseHostPort(c.sniGateways[i].listenAddr).Some?)
      && (forall i :: 0 <= i < |c.httpGateways| ==> ParseHostPort(c.httpGateways[i].listenAddr).Some?)
    ensures fresh(t)
  {
    hide Recorded, MayAccept, MustAccept, RealClash, ServerRequests, GateRequests;
    hide GatesParse, ParseHostPort, PortsParse, ListenAddrs;
    hide SelfClean, CrossDisjoint, ServersFirst;
    RequestsOrdered(c);
    DisjointIff(Requests(c));
    t := new Table();
    NothingYet();
    ghost var servers := ServerRequests(c.servers);
    ghost var sni, http := GateRequests(SniGateway, c.sniGateways), GateRequests(HttpGateway, c.httpGateways);
    v := AdmitServers(t, c.servers);
    if !v.Accepted? {
      Regroup(servers, sni, http);
      JudgedMore(t, v, servers, ServersParse(c.servers), sni + http, WellFormed(c));
      return;
    }
    v := AdmitGates(t, SniGateway, c.sniGateways, servers);
    if !v.Accepted? {
      JudgedMore(t, v, servers + sni, GatesParse(c.sniGateways), http, WellFormed(c));
      return;
    }
    v := AdmitGates(t, HttpGateway, c.httpGateways, servers + sni);
    if v.Accepted? {
      AllParse(c);
    }
  }

  lemma AllParse(c: Config)
    requires WellFormed(c)
    ensures forall i, k :: 0 <= i < |c.servers| && 0 <= k < |c.servers[i].ports| ==>
      ListenAddrs(c.servers[i].ports[k]).Ok?
    ensures forall i :: 0 <= i < |c.sniGateways| ==> ParseHostPort(c.sniGateways[i].listenAddr).Some?
    ensures forall i :: 0 <= i < |c.httpGateways| ==> ParseHostPort(c.httpGateways[i].listenAddr).Some?
  {
    hide ListenAddrs, ParseHostPort;
  }

  lemma {:induction false} ServerRequestsLenient(servers: seq<Server>)
    ensures forall e :: e in ServerRequests(servers) ==> Lenient(e)
  {
    hide ListenAddrs, ParseHostPort;
    if servers != [] {
      var s := servers[|servers| - 1];
      ServerRequestsLenient(servers[..|servers| - 1]);
      PortRequestsLenient(s.name, s.ports);
    }
  }

  lemma {:induction false} PortRequestsLenient(name: bytes, ports: seq<bytes>)
    ensures forall e :: e in PortRequests(name, ports) ==> Lenient(e)
  {
    hide ListenAddrs;
    if ports != [] {
      PortRequestsLenient(name, ports[..|ports| - 1]);
    }
  }

  lemma {:induction false} GateRequestsStrict(kind: OwnerKind, gates: seq<Gate>)
    requires kind.SniGateway? || kind.HttpGateway?
    ensures forall e :: e in GateRequests(kind, gates) ==> !Lenient(e)
  {
    hide ParseHostPort;
    if gates != [] {
      GateRequestsStrict(kind, gates[..|gates| - 1]);
    }
  }

  lemma RequestsOrdered(c: Config)
    ensures ServersFirst(Requests(c))
  {
    hide ServerRequests, GateRequests, Lenient;
    ServerRequestsLenient(c.servers);
    GateRequestsStrict(SniGateway, c.sniGateways);
    GateRequestsStrict(HttpGateway, c.httpGateways);
    var n, reqs := |ServerRequests(c.servers)|, Requests(c);
    assert reqs == ServerRequests(c.servers)
      + (GateRequests(SniGateway, c.sniGateways) + GateRequests(HttpGateway, c.httpGateways));
    forall j | 0 <= j < |reqs| ensures Lenient(reqs[j]) <==> j < n {
      if j < n {
        assert reqs[j] in ServerRequests(c.servers);
      } else {
        assert reqs[j] in GateRequests(SniGateway, c.sniGateways) + GateRequests(HttpGateway, c.httpGateways);
      }
    }
  }

  lemma NothingYet()
    ensures Recorded([]) == [] && MayAccept([]) && MustAccept([])
  {
  }
}
