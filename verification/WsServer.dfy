/**
 * The code of the /tunnel branch, handleLoop and keepAlive as each runs in its goroutine: its
 * actions are steps of the machine in WsHandover, in this order and on these branches.
 */
module WsServer {
  import opened Bytes
  import opened WsHandover

  ghost predicate Leads(cap: nat, s: State, trace: seq<Event>, t: State) {
    Run(cap, s, trace) && After(cap, s, trace) == t
  }

  lemma {:induction false} LeadsOn(cap: nat, s: State, trace: seq<Event>, t: State, e: Event)
    requires Leads(cap, s, trace, t) && Enabled(t, e)
    ensures Leads(cap, s, trace + [e], Step(cap, t, e))
    decreases |trace|
  {
    hide Enabled, Step;
    if trace == [] {
      assert trace + [e] == [e] && [e][1..] == [];
      LeadsNowhere(cap, Step(cap, t, e));
    } else {
      LeadsOn(cap, Step(cap, s, trace[0]), trace[1..], t, e);
      assert (trace + [e])[1..] == trace[1..] + [e];
    }
  }

  lemma LeadsNowhere(cap: nat, s: State)
    ensures Leads(cap, s, [], s)
  {
  }

  lemma LeadsKeepsInv(cap: nat, s: State, trace: seq<Event>, t: State)
    requires Leads(cap, s, trace, t) && Inv(s)
    ensures Inv(t)
  {
    InvAlways(cap, s, trace);
  }

  /** A relaying tunnel has carried pings, its connection's address and data; another one only pings. */
  lemma TunnelHistory(s: State, t: nat)
    requires Inv(s) && t < |s.tunnels|
    ensures s.tunnels[t].use.Relaying? ==>
      && Addressed(s.tunnels[t].out, s.tunnels[t].use.conn)
      && s.tunnels[t].use.conn < |s.places| && s.places[s.tunnels[t].use.conn] == On(t)
    ensures s.tunnels[t].use.Told? ==> OnlyPings(s.tunnels[t].out)
    ensures s.tunnels[t].mu.ByWorker? <==> Owns(s.tunnels[t].use)
  {
    hide Addressed, OnlyPings;
    assert TunnelInv(s.tunnels[t]);
  }

  class WsTransport {
    const channelSize: nat
    var tunnelChannel: seq<nat>
    var tunnels: seq<Tunnel>
    var localChannel: seq<nat>
    var workers: seq<Worker>
    var places: seq<Place>

    constructor (channelSize: nat, numCPU: nat)
      ensures this.channelSize == channelSize && Snapshot() == Init(numCPU)
    {
      this.channelSize, tunnelChannel, tunnels, localChannel := channelSize, [], [], [];
      workers, places := seq(numCPU, _ => Idle), [];
    }

    ghost function Snapshot(): State
      reads this
    {
      State(tunnelChannel, tunnels, localChannel, workers, places)
    }

    /** The /tunnel request: a full channel refuses the tunnel, otherwise a pinger is started for it. */
    method AcceptTunnel() returns (ok: bool)
      requires Inv(Snapshot())
      modifies this`tunnelChannel, this`tunnels
      ensures Inv(Snapshot())
      ensures ok <==> |old(tunnelChannel)| < channelSize
      ensures |tunnels| == |old(tunnels)| + 1
      ensures var trace := if ok then [Upgrade, Act(|old(tunnels)|, Start)] else [Upgrade];
        Leads(channelSize, old(Snapshot()), trace, Snapshot())
    {
      hide Run, After, Inv;
      ghost var start := Snapshot();
      var t := |tunnels|;
      LeadsNowhere(channelSize, start);
      LeadsOn(channelSize, start, [], start, Upgrade);
      assert [] + [Upgrade] == [Upgrade];
      if |tunnelChannel| >= channelSize {
        tunnels := tunnels + [Tunnel(NotStarted, Refused, Nobody, false, [])];
        LeadsKeepsInv(channelSize, start, [Upgrade], Snapshot());
        return false;
      }
      tunnelChannel := tunnelChannel + [|tunnels|];
      tunnels := tunnels + [Tunnel(NotStarted, Queued, Nobody, false, [])];
      LeadsOn(channelSize, start, [Upgrade], Snapshot(), Act(t, Start));
      assert [Upgrade] + [Act(t, Start)] == [Upgrade, Act(t, Start)];
      tunnels := tunnels[t := tunnels[t].(pinger := Ticking)];
      LeadsKeepsInv(channelSize, start, [Upgrade, Act(t, Start)], Snapshot());
      return true;
    }

    /**
     * A worker with a connection takes the next tunnel: it ends the pinger, takes the mutex for
     * good - or stops here while the pinger has it - and sends the address. A tunnel that then
     * relays has carried pings and this connection's address, one that waits only pings.
     */
    method HandOver(w: nat, ok: bool, delivered: bool) returns (ghost trace: seq<Event>)
      requires Inv(Snapshot()) && w < |workers| && workers[w].Holding? && tunnelChannel != []
      modifies this
      ensures |tunnels| == |old(tunnels)| && |workers| == |old(workers)|
      ensures Leads(channelSize, old(Snapshot()), trace, Snapshot())
      ensures trace == [Work(w, Pop), Work(w, ClosePing)]
        + (if old(tunnels)[old(tunnelChannel)[0]].mu != Nobody then []
           else [Work(w, Lock), Work(w, Begin), Work(w, End(ok, delivered))])
      ensures var t, conn := old(tunnelChannel)[0], old(workers)[w].conn;
        && t < |tunnels| && tunnels[t].pingClosed
        && tunnels[t].use ==
          (if old(tunnels)[t].mu != Nobody then Told(conn) else if ok then Relaying(conn) else Broken(conn))
        && tunnels[t].out ==
          old(tunnels)[t].out + (if old(tunnels)[t].mu == Nobody && (ok || delivered) then [Addr(conn)] else [])
        && tunnelChannel == old(tunnelChannel)[1..]
        && (old(tunnels)[t].mu == Nobody ==> workers[w] == (if ok then Idle else Holding(conn)))
        && (tunnels[t].use == Relaying(conn) ==>
            Addressed(tunnels[t].out, conn) && conn < |places| && places[conn] == On(t))
        && (tunnels[t].use == Told(conn) ==> OnlyPings(tunnels[t].out))
      ensures Inv(Snapshot())
    {
      hide Run, After, TunnelInv, PlacesInv, Out, Addressed, OnlyPings;
      var conn, t := workers[w].conn, tunnelChannel[0];
      ghost var start := Snapshot();
      LeadsNowhere(channelSize, start);
      LeadsOn(channelSize, start, [], start, Work(w, Pop));
      tunnelChannel := tunnelChannel[1..];
      workers := workers[w := Serving(conn, t)];
      SetUse(t, Popped(conn));
      ghost var popped := Snapshot();
      LeadsOn(channelSize, start, [] + [Work(w, Pop)], popped, Work(w, ClosePing));
      tunnels := tunnels[t := tunnels[t].(use := Told(conn), pingClosed := true)];
      trace := [] + [Work(w, Pop)] + [Work(w, ClosePing)];
      if tunnels[t].mu != Nobody {
        LeadsKeepsInv(channelSize, start, trace, Snapshot());
        TunnelHistory(Snapshot(), t);
        return;
      }
      ghost var more := SendAddress(w, t, conn, ok, delivered);
      LeadsJoin(channelSize, start, trace, Step(channelSize, popped, Work(w, ClosePing)), more, Snapshot());
      trace := trace + more;
      LeadsKeepsInv(channelSize, start, trace, Snapshot());
      TunnelHistory(Snapshot(), t);
    }

    method SetUse(t: nat, use: Use)
      requires t < |tunnels|
      modifies this`tunnels
      ensures tunnels == old(tunnels)[t := old(tunnels)[t].(use := use)]
    {
      tunnels := tunnels[t := tunnels[t].(use := use)];
    }

    method SendAddress(w: nat, t: nat, conn: nat, ok: bool, delivered: bool) returns (ghost trace: seq<Event>)
      requires w < |workers| && workers[w] == Serving(conn, t) && t < |tunnels| && conn < |places|
      requires tunnels[t].use == Told(conn) && tunnels[t].mu == Nobody
      modifies this`tunnels, this`workers, this`places
      ensures |tunnels| == |old(tunnels)| && |workers| == |old(workers)|
      ensures Leads(channelSize, old(Snapshot()), trace, Snapshot())
      ensures trace == [Work(w, Lock), Work(w, Begin), Work(w, End(ok, delivered))]
      ensures tunnels[t].use == (if ok then Relaying(conn) else Broken(conn))
      ensures tunnels[t].pingClosed == old(tunnels)[t].pingClosed
      ensures workers[w] == (if ok then Idle else Holding(conn))
      ensures tunnels[t].out == old(tunnels)[t].out + if ok || delivered then [Addr(conn)] else []
    {
      hide Run, After, Out;
      ghost var start := Snapshot();
      LeadsNowhere(channelSize, start);
      LeadsOn(channelSize, start, [], start, Work(w, Lock));
      tunnels := tunnels[t := tunnels[t].(use := Owned(conn), mu := ByWorker)];
      LeadsOn(channelSize, start, [] + [Work(w, Lock)], Snapshot(), Work(w, Begin));
      SetUse(t, Addressing(conn));
      trace := [] + [Work(w, Lock)] + [Work(w, Begin)];
      LeadsOn(channelSize, start, trace, Snapshot(), Work(w, End(ok, delivered)));
      tunnels := tunnels[t := tunnels[t].(out := Out(tunnels[t].out, Addr(conn), ok || delivered))];
      trace := trace + [Work(w, End(ok, delivered))];
      if !ok {
        SetUse(t, Broken(conn));
        workers := workers[w := Holding(conn)];
        return;
      }
      SetUse(t, Relaying(conn));
      workers := workers[w := Idle];
      places := places[conn := On(t)];
    }

    /**
     * One tick of keepAlive, undisturbed: TryLock, the ping, Unlock. Nothing is written on a tunnel
     * whose address is being or has been sent.
     */
    method KeepAliveTick(t: nat, ok: bool, delivered: bool) returns (ghost trace: seq<Event>)
      requires t < |tunnels| && tunnels[t].pinger.Ticking? && Inv(Snapshot())
      modifies this`tunnels
      ensures Inv(Snapshot())
      ensures |tunnels| == |old(tunnels)| && tunnels[t].use == old(tunnels)[t].use
      ensures Owns(tunnels[t].use) ==> tunnels[t].out == old(tunnels)[t].out && tunnels[t].pinger == Stopped
      ensures Leads(channelSize, old(Snapshot()), trace, Snapshot())
      ensures trace == [Act(t, Tick)]
        + (if old(tunnels)[t].mu != Nobody then []
           else [Act(t, PingBegin), Act(t, PingEnd(ok, delivered)), Act(t, Unlock)])
      ensures tunnels[t].mu == old(tunnels)[t].mu
      ensures tunnels[t].pinger == if old(tunnels)[t].mu == Nobody && ok then Ticking else Stopped
      ensures tunnels[t].out ==
        old(tunnels)[t].out + if old(tunnels)[t].mu == Nobody && (ok || delivered) then [Ping] else []
    {
      hide Run, After, Out, Inv;
      ghost var start := Snapshot();
      TunnelHistory(start, t);
      LeadsNowhere(channelSize, start);
      LeadsOn(channelSize, start, [], start, Act(t, Tick));
      trace := [] + [Act(t, Tick)];
      if tunnels[t].mu != Nobody {
        tunnels := tunnels[t := tunnels[t].(pinger := Stopped)];
        LeadsKeepsInv(channelSize, start, trace, Snapshot());
        return;
      }
      tunnels := tunnels[t := tunnels[t].(pinger := Locked, mu := ByPinger)];
      LeadsOn(channelSize, start, trace, Snapshot(), Act(t, PingBegin));
      tunnels := tunnels[t := tunnels[t].(pinger := Sending)];
      trace := trace + [Act(t, PingBegin)];
      LeadsOn(channelSize, start, trace, Snapshot(), Act(t, PingEnd(ok, delivered)));
      tunnels := tunnels[t := tunnels[t].(pinger := Sent(ok), out := Out(tunnels[t].out, Ping, ok || delivered))];
      trace := trace + [Act(t, PingEnd(ok, delivered))];
      LeadsOn(channelSize, start, trace, Snapshot(), Act(t, Unlock));
      tunnels := tunnels[t := tunnels[t].(pinger := if ok then Ticking else Stopped, mu := Nobody)];
      trace := trace + [Act(t, Unlock)];
      LeadsKeepsInv(channelSize, start, trace, Snapshot());
    }
  }

  lemma {:induction false} LeadsJoin(cap: nat, s: State, first: seq<Event>, t: State, second: seq<Event>, u: State)
    requires Leads(cap, s, first, t) && Leads(cap, t, second, u)
    ensures Leads(cap, s, first + second, u)
    decreases |second|
  {
    hide Enabled, Step;
    if second == [] {
      assert first + second == first;
    } else {
      var t' := Step(cap, t, second[0]);
      LeadsOn(cap, s, first, t, second[0]);
      LeadsJoin(cap, s, first + [second[0]], t', second[1..], u);
      assert first + [second[0]] + second[1..] == first + second;
    }
  }
}
