/**
 * Handing a WebSocket tunnel over from its pinger to a connection. The server's acceptor, the
 * pinger of each tunnel, the dispatch workers and the relays are one step machine; writing a
 * message takes two steps, so that overlapping writes would show.
 */
module WsHandover {
  import opened Bytes

  datatype Msg = Ping | Addr(conn: nat) | Data(data: bytes)

  /** keepAlive: Sending is a write in progress, Sent one that returned with the lock still held. */
  datatype Pinger = NotStarted | Ticking | Locked | Sending | Sent(ok: bool) | Stopped

  /** What has happened to the tunnel on the way from the channel to a relay. */
  datatype Use =
    | Refused
    | Queued
    | Popped(conn: nat)
    | Told(conn: nat)            // the ping channel is closed
    | Owned(conn: nat)           // the mutex is taken, for good
    | Addressing(conn: nat)
    | Relaying(conn: nat)
    | RelayWriting(conn: nat)
    | Broken(conn: nat)          // sending the address failed

  datatype Holder = Nobody | ByPinger | ByWorker

  datatype Tunnel = Tunnel(pinger: Pinger, use: Use, mu: Holder, pingClosed: bool, out: seq<Msg>)

  /** The dispatch goroutines of handleLoop. */
  datatype Worker = Idle | Holding(conn: nat) | Serving(conn: nat, t: nat)

  datatype Place = Waiting | With(w: nat) | On(t: nat) | Closed

  /** `places` says where each accepted connection is. */
  datatype State = State(
    tunnelChannel: seq<nat>, tunnels: seq<Tunnel>, localChannel: seq<nat>, workers: seq<Worker>, places: seq<Place>)

  function Init(workers: nat): State {
    State([], [], [], seq(workers, _ => Idle), [])
  }

  datatype WorkerMove = Take | Expire | Pop | ClosePing | Lock | Begin | End(ok: bool, delivered: bool)

  datatype TunnelMove =
    | Start | Tick | SeeClosed | PingBegin | PingEnd(ok: bool, delivered: bool) | Unlock
    | RelayBegin | RelayEnd(data: bytes, delivered: bool)

  datatype Event = Upgrade | Accept | Work(w: nat, move: WorkerMove) | Act(t: nat, act: TunnelMove)

  predicate WorkEnabled(s: State, w: Worker, m: WorkerMove) {
    match m
    case Take => w.Idle? && s.localChannel != []
    case Expire => w.Holding?
    case Pop => w.Holding? && s.tunnelChannel != []
    case ClosePing => w.Serving? && w.t < |s.tunnels| && s.tunnels[w.t].use.Popped?
    case Lock => w.Serving? && w.t < |s.tunnels| && s.tunnels[w.t].use.Told? && s.tunnels[w.t].mu.Nobody?
    case Begin => w.Serving? && w.t < |s.tunnels| && s.tunnels[w.t].use.Owned?
    case End(_, _) => w.Serving? && w.t < |s.tunnels| && s.tunnels[w.t].use.Addressing?
  }

  predicate ActEnabled(t: Tunnel, a: TunnelMove) {
    match a
    case Start => t.pinger.NotStarted? && !t.use.Refused?
    case Tick => t.pinger.Ticking?
    case SeeClosed => t.pinger.Ticking? && t.pingClosed
    case PingBegin => t.pinger.Locked?
    case PingEnd(_, _) => t.pinger.Sending?
    case Unlock => t.pinger.Sent?
    case RelayBegin => t.use.Relaying?
    case RelayEnd(_, _) => t.use.RelayWriting?
  }

  predicate Enabled(s: State, e: Event) {
    match e
    case Upgrade => true
    case Accept => true
    case Work(w, m) => w < |s.workers| && WorkEnabled(s, s.workers[w], m)
    case Act(t, a) => t < |s.tunnels| && ActEnabled(s.tunnels[t], a)
  }

  /** A failed write may still have got through. */
  function Out(out: seq<Msg>, m: Msg, delivered: bool): (r: seq<Msg>)
    ensures r == out + if delivered then [m] else []
  {
    if delivered then out + [m] else out
  }

  function Acted(t: Tunnel, a: TunnelMove): Tunnel
    requires ActEnabled(t, a)
  {
    match a
    case Start => t.(pinger := Ticking)
    case Tick => if t.mu.Nobody? then t.(pinger := Locked, mu := ByPinger) else t.(pinger := Stopped)
    case SeeClosed => t.(pinger := Stopped)
    case PingBegin => t.(pinger := Sending)
    case PingEnd(ok, delivered) => t.(pinger := Sent(ok), out := Out(t.out, Ping, ok || delivered))
    case Unlock => t.(pinger := if t.pinger.ok then Ticking else Stopped, mu := Nobody)
    case RelayBegin => t.(use := RelayWriting(t.use.conn))
    case RelayEnd(data, delivered) => t.(use := Relaying(t.use.conn), out := Out(t.out, Data(data), delivered))
  }

  /** The pinger and the relay each write one message at the end of the tunnel, if it gets through. */
  lemma ActsWrite(t: Tunnel, ok: bool, delivered: bool, data: bytes)
    ensures t.pinger.Sending? ==>
      Acted(t, PingEnd(ok, delivered)).out == t.out + if ok || delivered then [Ping] else []
    ensures t.use.RelayWriting? ==>
      Acted(t, RelayEnd(data, delivered)).out == t.out + if delivered then [Data(data)] else []
    ensures forall a :: ActEnabled(t, a) && !a.PingEnd? && !a.RelayEnd? ==> Acted(t, a).out == t.out
  {
  }

  function PutTunnel(s: State, t: nat, v: Tunnel): State {
    if t < |s.tunnels| then s.(tunnels := s.tunnels[t := v]) else s
  }

  function PutWorker(s: State, w: nat, v: Worker): State {
    if w < |s.workers| then s.(workers := s.workers[w := v]) else s
  }

  function PutPlace(s: State, c: nat, p: Place): State {
    if c < |s.places| then s.(places := s.places[c := p]) else s
  }

  function Worked(s: State, w: nat, m: WorkerMove): State
    requires w < |s.workers| && WorkEnabled(s, s.workers[w], m)
  {
    var me := s.workers[w];
    match m
    case Take =>
      PutPlace(PutWorker(s, w, Holding(s.localChannel[0])), s.localChannel[0], With(w))
        .(localChannel := s.localChannel[1..])
    case Expire => PutPlace(PutWorker(s, w, Idle), me.conn, Closed)
    case Pop =>
      var t := s.tunnelChannel[0];
      if t < |s.tunnels| then
        PutWorker(PutTunnel(s, t, s.tunnels[t].(use := Popped(me.conn))), w, Serving(me.conn, t))
          .(tunnelChannel := s.tunnelChannel[1..])
      else s
    case ClosePing => PutTunnel(s, me.t, s.tunnels[me.t].(use := Told(me.conn), pingClosed := true))
    case Lock => PutTunnel(s, me.t, s.tunnels[me.t].(use := Owned(me.conn), mu := ByWorker))
    case Begin => PutTunnel(s, me.t, s.tunnels[me.t].(use := Addressing(me.conn)))
    case End(ok, delivered) =>
      var t := s.tunnels[me.t];
      var t' := t.(use := if ok then Relaying(me.conn) else Broken(me.conn),
                   out := Out(t.out, Addr(me.conn), ok || delivered));
      if ok then PutPlace(PutWorker(PutTunnel(s, me.t, t'), w, Idle), me.conn, On(me.t))
      else PutWorker(PutTunnel(s, me.t, t'), w, Holding(me.conn))
  }

  function Step(cap: nat, s: State, e: Event): State
    requires Enabled(s, e)
  {
    match e
    case Upgrade =>
      if |s.tunnelChannel| < cap then
        s.(tunnels := s.tunnels + [Tunnel(NotStarted, Queued, Nobody, false, [])],
           tunnelChannel := s.tunnelChannel + [|s.tunnels|])
      else s.(tunnels := s.tunnels + [Tunnel(NotStarted, Refused, Nobody, false, [])])
    case Accept =>
      s.(localChannel := s.localChannel + [|s.places|], places := s.places + [Waiting])
    case Work(w, m) => Worked(s, w, m)
    case Act(t, a) => PutTunnel(s, t, Acted(s.tunnels[t], a))
  }

  predicate Run(cap: nat, s: State, events: seq<Event>)
    decreases |events|
  {
    events == [] || (Enabled(s, events[0]) && Run(cap, Step(cap, s, events[0]), events[1..]))
  }

  function After(cap: nat, s: State, events: seq<Event>): State
    requires Run(cap, s, events)
    decreases |events|
  {
    if events == [] then s else After(cap, Step(cap, s, events[0]), events[1..])
  }

  // ---- One tunnel ------------------------------------------------------

  function Leading(out: seq<Msg>): (k: nat)
    ensures k <= |out| && (forall i :: 0 <= i < k ==> out[i] == Ping) && (k < |out| ==> out[k] != Ping)
  {
    if out == [] || out[0] != Ping then 0 else 1 + Leading(out[1..])
  }

  /** ping*, then the address of c, then data. */
  ghost predicate Addressed(out: seq<Msg>, c: nat) {
    var k := Leading(out);
    && k < |out| && out[k] == Addr(c)
    && forall i :: k < i < |out| ==> out[i].Data?
  }

  predicate OnlyPings(out: seq<Msg>) { Leading(out) == |out| }

  predicate HasConn(u: Use) { !u.Refused? && !u.Queued? }

  /** The uses in which the worker or the relay has the mutex. */
  predicate Owns(u: Use) {
    u.Owned? || u.Addressing? || u.Relaying? || u.RelayWriting? || u.Broken?
  }

  ghost predicate TunnelInv(t: Tunnel) {
    && (t.mu.ByPinger? <==> t.pinger.Locked? || t.pinger.Sending? || t.pinger.Sent?)
    && (t.mu.ByWorker? <==> Owns(t.use))
    && (t.pingClosed <==> Owns(t.use) || t.use.Told?)
    && (match t.use
        case Relaying(c) => Addressed(t.out, c)
        case RelayWriting(c) => Addressed(t.out, c)
        case Broken(c) => OnlyPings(t.out) || Addressed(t.out, c)
        case _ => OnlyPings(t.out))
  }

  lemma {:induction false} LeadingSnoc(out: seq<Msg>, m: Msg)
    ensures Leading(out + [m]) == if OnlyPings(out) && m == Ping then |out| + 1 else Leading(out)
  {
    if out == [] {
      assert [m][1..] == [];
    } else {
      LeadingSnoc(out[1..], m);
      assert (out + [m])[1..] == out[1..] + [m];
    }
  }

  lemma OutKeeps(out: seq<Msg>, m: Msg, c: nat)
    ensures OnlyPings(out) && m == Ping ==> OnlyPings(out + [m])
    ensures OnlyPings(out) && m == Addr(c) ==> Addressed(out + [m], c)
    ensures Addressed(out, c) && m.Data? ==> Addressed(out + [m], c)
  {
    LeadingSnoc(out, m);
  }

  lemma ActKeeps(t: Tunnel, a: TunnelMove)
    requires TunnelInv(t) && ActEnabled(t, a)
    ensures TunnelInv(Acted(t, a))
    ensures Acted(t, a).use == t.use
      || (a.RelayBegin? && Acted(t, a).use == RelayWriting(t.use.conn))
      || (a.RelayEnd? && Acted(t, a).use == Relaying(t.use.conn))
  {
    hide OnlyPings, Addressed;
    match a
    case PingEnd(_, _) => OutKeeps(t.out, Ping, 0);
    case RelayEnd(data, _) => OutKeeps(t.out, Data(data), t.use.conn);
    case _ =>
  }

  // ---- All of them -----------------------------------------------------

  /** Each waiting tunnel is in the channel once, each other one not at all. */
  ghost predicate ChannelInv(s: State) {
    && (forall a :: 0 <= a < |s.tunnelChannel| ==>
      s.tunnelChannel[a] < |s.tunnels| && s.tunnels[s.tunnelChannel[a]].use.Queued?)
    && (forall a, b :: 0 <= a < b < |s.tunnelChannel| ==> s.tunnelChannel[a] != s.tunnelChannel[b])
  }

  /** A worker is at one tunnel, and the tunnel at that worker's connection. */
  ghost predicate WorkersInv(s: State) {
    && (forall w :: 0 <= w < |s.workers| && !s.workers[w].Idle? ==>
      s.workers[w].conn < |s.places| && s.places[s.workers[w].conn] == With(w))
    && (forall w :: 0 <= w < |s.workers| && s.workers[w].Serving? ==>
      && s.workers[w].t < |s.tunnels|
      && var u := s.tunnels[s.workers[w].t].use;
         (u.Popped? || u.Told? || u.Owned? || u.Addressing?) && u.conn == s.workers[w].conn)
  }

  ghost predicate PlacesInv(s: State) {
    && (forall a :: 0 <= a < |s.localChannel| ==>
      s.localChannel[a] < |s.places| && s.places[s.localChannel[a]] == Waiting)
    && (forall a, b :: 0 <= a < b < |s.localChannel| ==> s.localChannel[a] != s.localChannel[b])
    && (forall t :: 0 <= t < |s.tunnels| && (s.tunnels[t].use.Relaying? || s.tunnels[t].use.RelayWriting?) ==>
      s.tunnels[t].use.conn < |s.places| && s.places[s.tunnels[t].use.conn] == On(t))
  }

  ghost predicate Inv(s: State) {
    && (forall t :: 0 <= t < |s.tunnels| ==> TunnelInv(s.tunnels[t]))
    && ChannelInv(s) && WorkersInv(s) && PlacesInv(s)
  }

  lemma ActsKeepInv(cap: nat, s: State, t: nat, a: TunnelMove)
    requires Inv(s) && Enabled(s, Act(t, a))
    ensures Inv(Step(cap, s, Act(t, a)))
  {
    hide TunnelInv, Acted;
    ActKeeps(s.tunnels[t], a);
  }

  lemma ArrivalsKeepInv(cap: nat, s: State, e: Event)
    requires Inv(s) && (e.Upgrade? || e.Accept?)
    ensures Inv(Step(cap, s, e))
  {
  }

  lemma QueueMovesKeepInv(cap: nat, s: State, w: nat, m: WorkerMove)
    requires Inv(s) && Enabled(s, Work(w, m)) && (m.Take? || m.Expire?)
    ensures Inv(Step(cap, s, Work(w, m)))
  {
    hide TunnelInv;
  }

  lemma PopKeepsInv(cap: nat, s: State, w: nat)
    requires Inv(s) && Enabled(s, Work(w, Pop))
    ensures Inv(Step(cap, s, Work(w, Pop)))
  {
    hide Addressed, OnlyPings;
    var s', t := Step(cap, s, Work(w, Pop)), s.tunnelChannel[0];
    assert TunnelInv(s.tunnels[t]) && TunnelInv(s'.tunnels[t]);
    hide TunnelInv;
  }

  lemma ServingKeepsTunnel(s: State, w: nat, m: WorkerMove)
    requires Inv(s) && Enabled(s, Work(w, m)) && (m.ClosePing? || m.Lock? || m.Begin? || m.End?)
    ensures var s', t := Worked(s, w, m), s.workers[w].t;
      && t < |s.tunnels| == |s'.tunnels| && TunnelInv(s'.tunnels[t]) && s'.tunnels == s.tunnels[t := s'.tunnels[t]]
  {
    hide Addressed, OnlyPings, ChannelInv, PlacesInv;
    var me := s.workers[w];
    assert TunnelInv(s.tunnels[me.t]);
    OutKeeps(s.tunnels[me.t].out, Addr(me.conn), me.conn);
  }

  lemma ServingKeepsInv(cap: nat, s: State, w: nat, m: WorkerMove)
    requires Inv(s) && Enabled(s, Work(w, m)) && (m.ClosePing? || m.Lock? || m.Begin? || m.End?)
    ensures Inv(Step(cap, s, Work(w, m)))
  {
    ServingKeepsTunnel(s, w, m);
    hide TunnelInv, Out;
    if m.End? {
      EndKeepsPlaces(cap, s, w, m);
      hide PlacesInv, WorkersInv;
    }
  }

  lemma EndKeepsPlaces(cap: nat, s: State, w: nat, m: WorkerMove)
    requires Inv(s) && Enabled(s, Work(w, m)) && m.End?
    ensures PlacesInv(Step(cap, s, Work(w, m))) && WorkersInv(Step(cap, s, Work(w, m)))
  {
    hide TunnelInv, Out, ChannelInv;
  }

  lemma InvKept(cap: nat, s: State, e: Event)
    requires Inv(s) && Enabled(s, e)
    ensures Inv(Step(cap, s, e))
  {
    hide Inv, Step;
    match e
    case Upgrade => ArrivalsKeepInv(cap, s, e);
    case Accept => ArrivalsKeepInv(cap, s, e);
    case Act(t, a) => ActsKeepInv(cap, s, t, a);
    case Work(w, m) =>
      match m {
        case Take => QueueMovesKeepInv(cap, s, w, m);
        case Expire => QueueMovesKeepInv(cap, s, w, m);
        case Pop => PopKeepsInv(cap, s, w);
        case _ => ServingKeepsInv(cap, s, w, m);
      }
  }

  lemma {:induction false} InvAlways(cap: nat, s: State, events: seq<Event>)
    requires Inv(s) && Run(cap, s, events)
    ensures Inv(After(cap, s, events))
    decreases |events|
  {
    hide Inv, Step, Enabled;
    if events != [] {
      InvKept(cap, s, events[0]);
      InvAlways(cap, Step(cap, s, events[0]), events[1..]);
    }
  }

  lemma InvReached(cap: nat, workers: nat, events: seq<Event>)
    requires Run(cap, Init(workers), events)
    ensures Inv(After(cap, Init(workers), events))
  {
    hide Step, Enabled;
    assert Inv(Init(workers));
    InvAlways(cap, Init(workers), events);
  }

  // ---- Every run -------------------------------------------------------

  predicate Serves(s: State, w: nat, t: nat) { w < |s.workers| && s.workers[w].Serving? && s.workers[w].t == t }

  /** Tunnel t carries the data of c, also in the middle of a write. */
  predicate Relays(s: State, t: nat, c: nat) {
    t < |s.tunnels| && (s.tunnels[t].use == Relaying(c) || s.tunnels[t].use == RelayWriting(c))
  }

  /** No two goroutines ever write on one tunnel at the same time, and one worker at most serves it. */
  lemma OneWriter(cap: nat, workers: nat, events: seq<Event>, t: nat, a: nat, b: nat)
    requires Run(cap, Init(workers), events) && t < |After(cap, Init(workers), events).tunnels|
    ensures var s := After(cap, Init(workers), events);
      && !(s.tunnels[t].pinger.Sending? && (s.tunnels[t].use.Addressing? || s.tunnels[t].use.RelayWriting?))
      && (Serves(s, a, t) && Serves(s, b, t) ==> a == b)
  {
    hide Run, After, ChannelInv, PlacesInv, Addressed, OnlyPings;
    InvReached(cap, workers, events);
    var s := After(cap, Init(workers), events);
    assert TunnelInv(s.tunnels[t]);
  }

  /** close(tunnelConnection.ping) never meets a closed channel. */
  lemma PingClosedOnce(cap: nat, workers: nat, events: seq<Event>, w: nat)
    requires Run(cap, Init(workers), events) && Enabled(After(cap, Init(workers), events), Work(w, ClosePing))
    ensures var s := After(cap, Init(workers), events); !s.tunnels[s.workers[w].t].pingClosed
  {
    hide Run, After, ChannelInv, PlacesInv, WorkersInv, Addressed, OnlyPings;
    InvReached(cap, workers, events);
    var s := After(cap, Init(workers), events);
    assert TunnelInv(s.tunnels[s.workers[w].t]);
  }

  /**
   * Whatever interleaves, a tunnel carries pings only, up to one address - that of the connection
   * it is relaying - and data only behind it. No other tunnel relays that connection.
   */
  lemma HandoverOrder(cap: nat, workers: nat, events: seq<Event>, t: nat, other: nat, c: nat)
    requires Run(cap, Init(workers), events) && t < |After(cap, Init(workers), events).tunnels|
    ensures var s := After(cap, Init(workers), events);
      && (|| OnlyPings(s.tunnels[t].out)
          || (HasConn(s.tunnels[t].use) && Addressed(s.tunnels[t].out, s.tunnels[t].use.conn)))
      && (Relays(s, t, c) ==> Addressed(s.tunnels[t].out, c))
      && (Relays(s, t, c) && Relays(s, other, c) ==> t == other)
  {
    hide Run, After, ChannelInv, WorkersInv, Addressed, OnlyPings;
    InvReached(cap, workers, events);
    assert TunnelInv(After(cap, Init(workers), events).tunnels[t]);
  }

  // ---- The client ------------------------------------------------------

  const SG_PING: bytes := [2]

  /** The bytes of a message; addrs are the remote addresses of the connections. */
  function Wire(m: Msg, addrs: seq<bytes>): bytes {
    match m
    case Ping => SG_PING
    case Addr(c) => if c < |addrs| then addrs[c] else []
    case Data(d) => d
  }

  function WireAll(out: seq<Msg>, addrs: seq<bytes>): (r: seq<bytes>)
    ensures |r| == |out|
  {
    if out == [] then [] else [Wire(out[0], addrs)] + WireAll(out[1..], addrs)
  }

  /** The first message that is not a ping, and the messages behind it. */
  function TakeAddress(msgs: seq<bytes>): (r: Option<(bytes, seq<bytes>)>)
    ensures r.None? <==> forall i :: 0 <= i < |msgs| ==> msgs[i] == SG_PING
  {
    if msgs == [] then None
    else if msgs[0] == SG_PING then TakeAddress(msgs[1..])
    else Some((msgs[0], msgs[1..]))
  }

  /** What is written, message by message: a ping is the byte 2, the rest is sent as it is. */
  lemma {:induction false} WrittenAt(out: seq<Msg>, addrs: seq<bytes>, i: nat)
    requires i < |out|
    ensures var w := WireAll(out, addrs)[i];
      match out[i]
      case Ping => w == [2]
      case Addr(c) => c < |addrs| ==> w == addrs[c]
      case Data(d) => w == d
  {
    if i > 0 {
      WrittenAt(out[1..], addrs, i - 1);
    }
  }

  /** The address is the first message other than the byte 2, wherever it stands. */
  lemma {:induction false} FirstOther(msgs: seq<bytes>, k: nat)
    requires k <= |msgs| && (forall i :: 0 <= i < k ==> msgs[i] == [2]) && (k < |msgs| ==> msgs[k] != [2])
    ensures TakeAddress(msgs) == if k < |msgs| then Some((msgs[k], msgs[k + 1..])) else None
  {
    if k > 0 {
      FirstOther(msgs[1..], k - 1);
      if k < |msgs| {
        assert msgs[1..][k..] == msgs[k + 1..];
      }
    }
  }

  class WsConn {
    var incoming: seq<bytes>
    var closed: bool

    constructor (incoming: seq<bytes>)
      ensures this.incoming == incoming && !closed
    {
      this.incoming, closed := incoming, false;
    }

    method ReadMessage() returns (r: Option<bytes>)
      modifies this`incoming
      ensures r.Some? <==> old(incoming) != []
      ensures r.None? ==> incoming == old(incoming)
      ensures r.Some? ==> r.value == old(incoming)[0] && incoming == old(incoming)[1..]
    {
      if incoming == [] {
        return None;
      }
      r := Some(incoming[0]);
      incoming := incoming[1..];
    }
  }

  class TunnelClient {
    var poolConnections: int

    /**
     * The read loop of tunnelDialer: the address it takes is the first message that is not a ping,
     * the messages behind it are left for the relay, and the pool count is back where it was.
     */
    method TunnelDialer(ws: WsConn) returns (remoteAddr: Option<bytes>)
      modifies this, ws
      ensures poolConnections == old(poolConnections)
      ensures match TakeAddress(old(ws.incoming))
        case None => remoteAddr == None && ws.closed && ws.incoming == []
        case Some((addr, rest)) => remoteAddr == Some(addr) && ws.incoming == rest && ws.closed == old(ws.closed)
    {
      poolConnections := poolConnections + 1;
      while true
        invariant poolConnections == old(poolConnections) + 1 && ws.closed == old(ws.closed)
        invariant TakeAddress(ws.incoming) == TakeAddress(old(ws.incoming))
        decreases |ws.incoming|
      {
        var msg := ws.ReadMessage();
        if msg.None? {
          ws.closed := true;
          poolConnections := poolConnections - 1;
          return None;
        }
        if msg.value == SG_PING {
          continue;
        }
        poolConnections := poolConnections - 1;
        return msg;
      }
    }
  }

  lemma {:induction false} SkipPings(out: seq<Msg>, k: nat, addrs: seq<bytes>)
    requires k <= |out| && forall i :: 0 <= i < k ==> out[i] == Ping
    ensures TakeAddress(WireAll(out, addrs)) == TakeAddress(WireAll(out[k..], addrs))
  {
    if k > 0 {
      SkipPings(out[1..], k - 1, addrs);
      assert out[1..][k - 1..] == out[k..];
    } else {
      assert out[0..] == out;
    }
  }

  lemma TakeFirst(out: seq<Msg>, addrs: seq<bytes>)
    requires out != []
    ensures Wire(out[0], addrs) != SG_PING ==>
      TakeAddress(WireAll(out, addrs)) == Some((Wire(out[0], addrs), WireAll(out[1..], addrs)))
    ensures Wire(out[0], addrs) == SG_PING ==> TakeAddress(WireAll(out, addrs)) == TakeAddress(WireAll(out[1..], addrs))
  {
  }

  /**
   * When the first n messages of an addressed tunnel have arrived, the client has taken the
   * server's address as soon as that message is there, and the data behind it is left to relay.
   */
  lemma ClientTakesAddress(out: seq<Msg>, c: nat, addrs: seq<bytes>, n: nat)
    requires Addressed(out, c) && c < |addrs| && n <= |out|
    ensures n <= Leading(out) ==> TakeAddress(WireAll(out[..n], addrs)) == None
    ensures n > Leading(out) && addrs[c] != SG_PING ==>
      TakeAddress(WireAll(out[..n], addrs)) == Some((addrs[c], WireAll(out[Leading(out) + 1..n], addrs)))
    ensures n == Leading(out) + 1 && addrs[c] == SG_PING ==> TakeAddress(WireAll(out[..n], addrs)) == None
  {
    hide Leading, TakeAddress, WireAll;
    var k := Leading(out);
    var m := if n <= k then n else k;
    SkipPings(out[..n], m, addrs);
    assert WireAll([], addrs) == [];
    assert out[..n][m..] == out[m..n];
    if n > k {
      TakeFirst(out[k..n], addrs);
      assert out[k..n][1..] == out[k + 1..n];
    }
  }

  /**
   * End to end: the client of a relaying tunnel gets the relayed connection's address, however many
   * pings went before, if and only if that address is not the one-byte text that means a ping.
   */
  lemma ClientGetsAddressIff(cap: nat, workers: nat, events: seq<Event>, t: nat, addrs: seq<bytes>)
    requires Run(cap, Init(workers), events)
    requires var s := After(cap, Init(workers), events);
      t < |s.tunnels| && s.tunnels[t].use.Relaying? && s.tunnels[t].use.conn < |addrs|
    ensures var v := After(cap, Init(workers), events).tunnels[t];
      var k := Leading(v.out);
      && k < |v.out|
      && (addrs[v.use.conn] != [2] <==>
          forall n :: k < n <= |v.out| ==>
            TakeAddress(WireAll(v.out[..n], addrs)) == Some((addrs[v.use.conn], WireAll(v.out[k + 1..n], addrs))))
  {
    hide Run, After, Addressed;
    var v := After(cap, Init(workers), events).tunnels[t];
    HandoverOrder(cap, workers, events, t, t, v.use.conn);
    var k := Leading(v.out);
    AddressedHasAddress(v.out, v.use.conn);
    forall n | 0 <= n <= |v.out| ensures addrs[v.use.conn] != SG_PING && n > k ==>
        TakeAddress(WireAll(v.out[..n], addrs)) == Some((addrs[v.use.conn], WireAll(v.out[k + 1..n], addrs)))
    {
      ClientTakesAddress(v.out, v.use.conn, addrs, n);
    }
    ClientTakesAddress(v.out, v.use.conn, addrs, k + 1);
  }

  lemma AddressedHasAddress(out: seq<Msg>, c: nat)
    requires Addressed(out, c)
    ensures Leading(out) < |out|
  {
  }
}
