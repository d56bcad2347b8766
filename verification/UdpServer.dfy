/**
 * The code of udpListener, handleUDPLoop and UDPConnectionHandler as each runs in its goroutine:
 * its actions are steps of the machine in UdpSessions, in this order and on these branches.
 */
module UdpServer {
  import opened Bytes
  import opened Net
  import opened Probe
  import opened UdpSessions
  import opened UdpService

  const SG_UDP: byte := 5

  ghost predicate Leads(cap: nat, s: State, trace: seq<Event>, t: State) {
    Run(cap, s, trace) && After(cap, s, trace) == t
  }

  lemma {:induction false} LeadsOn(cap: nat, s: State, trace: seq<Event>, t: State, e: Event)
    requires Leads(cap, s, trace, t) && Enabled(t, e)
    ensures Leads(cap, s, trace + [e], Step(cap, t, e))
    decreases |trace|
  {
    hide Enabled, Step;
    if trace == [] {
      assert trace + [e] == [e] && [e][1..] == [];
      LeadsNowhere(cap, Step(cap, t, e));
    } else {
      LeadsOn(cap, Step(cap, s, trace[0]), trace[1..], t, e);
      assert (trace + [e])[1..] == trace[1..] + [e];
    }
  }

  lemma LeadsNowhere(cap: nat, s: State)
    ensures Leads(cap, s, [], s)
  {
  }

  lemma LeadsKeepsInv(cap: nat, s: State, trace: seq<Event>, t: State)
    requires Leads(cap, s, trace, t) && Inv(s) && WaitInv(cap, s)
    ensures Inv(t) && WaitInv(cap, t)
  {
    WaitAlways(cap, s, trace);
  }

  /** Whether a tunnel connection takes the whole address. */
  ghost predicate TakesAddress(conn: Conn, addr: bytes)
    reads conn
  {
    conn.Accepts(|Frame(addr, 5)|) == |Frame(addr, 5)|
  }

  class UdpServer {
    const channelSize: nat
    var activeConnections: map<nat, nat>
    var conns: seq<Session>
    var udpChan: seq<nat>
    var localConn: Option<nat>
    ghost var listener: Listener
    /** What became of each datagram: the lines the listener writes to its logger. */
    var log: seq<Received>

    constructor (channelSize: nat)
      ensures this.channelSize == channelSize && Snapshot() == INIT
    {
      this.channelSize, activeConnections, conns := channelSize, map[], [];
      udpChan, localConn, listener, log := [], None, Reading, [];
    }

    ghost function Snapshot(): State
      reads this
    {
      State(listener, activeConnections, conns, udpChan, localConn, log, false)
    }

    /** The branch of the listener for a connection that is in the table and not congested. */
    method Buffer(key: nat) returns (ok: bool)
      requires Inv(Snapshot()) && listener == Reading
      requires key in activeConnections && !conns[activeConnections[key]].congested
      modifies this`conns, this`log
      ensures Enabled(old(Snapshot()), Receive(key))
      ensures Snapshot() == Step(channelSize, old(Snapshot()), Receive(key))
      ensures var i := activeConnections[key];
        && ok == (|old(conns)[i].payload| < 100_000)
        && conns ==
          (if ok then old(conns)[i := old(conns)[i].(payload := old(conns)[i].payload + [|old(log)|])] else old(conns))
        && log == old(log) + [Received(key, if ok then Into(i) else Lost)]
        && |conns| == |old(conns)| && !conns[i].congested
        && (ok ==> conns[i].payload == old(conns)[i].payload + [|old(log)|])
    {
      hide FlowInv, LogInv;
      var i := activeConnections[key];
      ok := |conns[i].payload| < PAYLOAD_CAP;
      log := log + [Received(key, if ok then Into(i) else Lost)];
      if ok {
        conns := conns[i := conns[i].(payload := conns[i].payload + [|log| - 1])];
      }
    }

    /** The listener's critical section that stores a new connection. */
    method StoreConnection(key: nat)
      requires listener.Creating? && listener.key == key
      modifies this`conns, this`activeConnections, this`listener
      ensures Snapshot() == Step(channelSize, old(Snapshot()), Store)
      ensures listener == Created(|old(conns)|, old(listener).id) && |conns| == |old(conns)| + 1
      ensures activeConnections == old(activeConnections)[key := |old(conns)|]
      ensures conns == old(conns) + [Session(key, Stored, false, false, [], [])]
    {
      var newUDPConn := Session(key, Stored, false, false, [], []);
      activeConnections := activeConnections[key := |conns|];
      conns := conns + [newUDPConn];
      listener := Created(|conns| - 1, listener.id);
    }

    /** The sends to udpChan and to the payload channel, which nothing comes between here. */
    method Announce(i: nat) returns (ok: bool, ghost trace: seq<Event>)
      requires Inv(Snapshot()) && listener.Created? && listener.i == i
      modifies this`conns, this`udpChan, this`listener, this`log
      ensures Leads(channelSize, old(Snapshot()), trace, Snapshot())
      ensures listener == Reading && |conns| == |old(conns)|
      ensures ok <==> |old(udpChan)| < channelSize
      ensures log == Settle(old(log), |old(log)| - 1, if ok then Into(i) else Lost)
      ensures udpChan == if ok then old(udpChan) + [i] else old(udpChan)
      ensures ok ==> conns[i].payload == old(conns)[i].payload + [|old(log)| - 1]
      ensures !conns[i].congested
      ensures trace == if ok then [Enqueue, SendFirst] else [Enqueue]
    {
      hide TableInv, FlowInv, LogInv, QueueInv, Run, After;
      ghost var start := Snapshot();
      LeadsNowhere(channelSize, start);
      var id := |log| - 1;
      LeadsOn(channelSize, start, [], start, Enqueue);
      assert [] + [Enqueue] == [Enqueue];
      if |udpChan| >= channelSize {
        conns := conns[i := conns[i].(stage := Dropped)];
        log, listener := Settle(log, id, Lost), Reading;
        return false, [Enqueue];
      }
      udpChan := udpChan + [i];
      conns := conns[i := conns[i].(stage := Queued)];
      listener := SendingFirst(i, id);
      ghost var sent := Snapshot();
      LeadsOn(channelSize, start, [Enqueue], sent, SendFirst);
      conns := conns[i := conns[i].(payload := conns[i].payload + [|log| - 1])];
      log, listener := Settle(log, id, Into(i)), Reading;
      return true, [Enqueue] + [SendFirst];
    }

    /** One turn of the listener with nothing else in between. */
    method ReadFromUDP(key: nat) returns (ghost trace: seq<Event>)
      requires Inv(Snapshot()) && WaitInv(channelSize, Snapshot()) && listener == Reading
      modifies this
      ensures Leads(channelSize, old(Snapshot()), trace, Snapshot())
      ensures Inv(Snapshot()) && WaitInv(channelSize, Snapshot())
      ensures listener == Reading && key in activeConnections
      ensures var i := activeConnections[key];
        && i < |conns| && conns[i].key == key && Usable(conns[i])
        && |log| == |old(log)| + 1 && log[..|old(log)|] == old(log) && log[|old(log)|].key == key
        && var known := key in old(activeConnections) && !old(conns)[old(activeConnections)[key]].congested;
           && (known ==> i == old(activeConnections)[key]) && (!known ==> i == |old(conns)|)
           && var fits := if known then |old(conns)[i].payload| < 100_000 else |old(udpChan)| < channelSize;
           && log[|old(log)|].fate == (if fits then Into(i) else Lost)
           && udpChan == (if !known && |old(udpChan)| < channelSize then old(udpChan) + [i] else old(udpChan))
           && (log[|old(log)|].fate == Into(i) ==>
               conns[i].payload == (if known then old(conns)[i].payload else []) + [|old(log)|])
      ensures trace ==
        if key in old(activeConnections) && !old(conns)[old(activeConnections)[key]].congested then [Receive(key)]
        else if |old(udpChan)| < channelSize then [Receive(key), Store, Enqueue, SendFirst]
        else [Receive(key), Store, Enqueue]
    {
      hide TableInv, FlowInv, LogInv, QueueInv, ListenerInv, Run, After, Step;
      ghost var start := Snapshot();
      LeadsNowhere(channelSize, start);
      InTable(start, key);
      LeadsOn(channelSize, start, [], start, Receive(key));
      assert [] + [Receive(key)] == [Receive(key)];
      InvKept(channelSize, start, Receive(key));
      if key in activeConnections && !conns[activeConnections[key]].congested {
        var _ := Buffer(key);
        LeadsKeepsInv(channelSize, start, [Receive(key)], Snapshot());
        Mapped(Snapshot(), key);
        return [Receive(key)];
      }
      StepCreates(channelSize, start, key);
      log, listener := log + [Received(key, InHand)], Creating(key, |log|);
      ghost var created := Snapshot();
      LeadsOn(channelSize, start, [Receive(key)], created, Store);
      InvKept(channelSize, created, Store);
      StoreConnection(key);
      ghost var stored := Snapshot();
      ghost var more;
      var i := |conns| - 1;
      var ok;
      ok, more := Announce(i);
      trace := [Receive(key)] + [Store] + more;
      LeadsJoin(channelSize, start, [Receive(key)] + [Store], stored, more, Snapshot());
      LeadsKeepsInv(channelSize, start, trace, Snapshot());
      Mapped(Snapshot(), key);
    }

    /** handleUDPLoop takes the oldest queued connection. */
    method TakeConn() returns (got: bool)
      requires Inv(Snapshot()) && WaitInv(channelSize, Snapshot()) && localConn.None?
      modifies this`conns, this`udpChan, this`localConn
      ensures got <==> old(udpChan) != []
      ensures got ==> localConn == Some(old(udpChan)[0]) && Leads(channelSize, old(Snapshot()), [Dispatch], Snapshot())
      ensures !got ==> Snapshot() == old(Snapshot())
    {
      hide TableInv, FlowInv, LogInv, ListenerInv, Run, After;
      ghost var start := Snapshot();
      if udpChan == [] {
        return false;
      }
      LeadsNowhere(channelSize, start);
      LeadsOn(channelSize, start, [], start, Dispatch);
      assert [] + [Dispatch] == [Dispatch];
      conns := conns[udpChan[0] := conns[udpChan[0]].(stage := Dispatching)];
      localConn, udpChan := Some(udpChan[0]), udpChan[1..];
      return true;
    }

    /** The connection is on a tunnel connection now and gets its handler. */
    method AssignConn()
      requires Inv(Snapshot()) && WaitInv(channelSize, Snapshot()) && localConn.Some?
      modifies this`conns, this`localConn
      ensures Leads(channelSize, old(Snapshot()), [Assign], Snapshot())
      ensures localConn == None && old(localConn).value < |conns|
      ensures conns[old(localConn).value].stage == Running(false, false)
    {
      hide TableInv, FlowInv, LogInv, ListenerInv, Run, After;
      ghost var start := Snapshot();
      LeadsNowhere(channelSize, start);
      LeadsOn(channelSize, start, [], start, Assign);
      assert [] + [Assign] == [Assign];
      conns := conns[localConn.value := conns[localConn.value].(stage := Running(false, false))];
      localConn := None;
    }

    /**
     * handleUDPLoop for one connection and the tunnel connections that come in while it waits: the
     * address goes to one after the other, those that do not take all of it are closed, and the
     * first that does is the one the handler gets. If none does, the connection keeps waiting.
     */
    method HandleUDPLoop(tunnelChannel: seq<Conn>, remoteAddr: bytes)
        returns (used: Option<nat>, ghost trace: seq<Event>)
      requires Inv(Snapshot()) && WaitInv(channelSize, Snapshot()) && localConn.None?
      requires forall j, k :: 0 <= j < k < |tunnelChannel| ==> tunnelChannel[j] != tunnelChannel[k]
      modifies this`conns, this`udpChan, this`localConn, tunnelChannel
      ensures Inv(Snapshot()) && WaitInv(channelSize, Snapshot())
      ensures Leads(channelSize, old(Snapshot()), trace, Snapshot())
      ensures trace == if old(udpChan) == [] then [] else if used.None? then [Dispatch] else [Dispatch, Assign]
      ensures old(udpChan) == [] ==> used == None
      ensures used.None? && old(udpChan) != [] ==>
        && localConn == Some(old(udpChan)[0])
        && forall k :: 0 <= k < |tunnelChannel| ==>
          !old(TakesAddress(tunnelChannel[k], remoteAddr)) && tunnelChannel[k].closed
      ensures used.Some? ==>
        && used.value < |tunnelChannel| && old(TakesAddress(tunnelChannel[used.value], remoteAddr))
        && tunnelChannel[used.value].written == old(tunnelChannel[used.value].written) + Frame(remoteAddr, 5)
        && (forall k :: 0 <= k < used.value ==>
            !old(TakesAddress(tunnelChannel[k], remoteAddr)) && tunnelChannel[k].closed)
        && (forall k :: used.value < k < |tunnelChannel| ==>
            && tunnelChannel[k].written == old(tunnelChannel[k].written)
            && tunnelChannel[k].closed == old(tunnelChannel[k].closed))
        && old(udpChan)[0] < |conns| && conns[old(udpChan)[0]].stage == Running(false, false)
    {
      hide Inv, WaitInv, Run, After, Frame;
      ghost var start := Snapshot();
      LeadsNowhere(channelSize, start);
      var got := TakeConn();
      if !got {
        return None, [];
      }
      LeadsKeepsInv(channelSize, start, [Dispatch], Snapshot());
      ghost var taken := Snapshot();
      for i := 0 to |tunnelChannel|
        invariant Snapshot() == taken
        invariant forall k :: 0 <= k < i ==> !old(TakesAddress(tunnelChannel[k], remoteAddr)) && tunnelChannel[k].closed
        invariant forall k :: i <= k < |tunnelChannel| ==>
          && tunnelChannel[k].written == old(tunnelChannel[k].written)
          && tunnelChannel[k].closed == old(tunnelChannel[k].closed)
          && tunnelChannel[k].room == old(tunnelChannel[k].room)
      {
        var err := SendBinaryTransportString(tunnelChannel[i], remoteAddr, SG_UDP);
        if err {
          tunnelChannel[i].Close();
          continue;
        }
        AssignConn();
        LeadsJoin(channelSize, start, [Dispatch], taken, [Assign], Snapshot());
        LeadsKeepsInv(channelSize, taken, [Assign], Snapshot());
        return Some(i), [Dispatch] + [Assign];
      }
      return None, [Dispatch];
    }

    /** The end of UDPConnectionHandler, under the mutex. */
    method Finish(i: nat)
      requires Inv(Snapshot()) && i < |conns| && conns[i].stage == Running(true, true)
      modifies this`conns, this`activeConnections
      ensures Enabled(old(Snapshot()), Handler(i, UdpSessions.Finish)) && Inv(Snapshot())
      ensures Snapshot() == Step(channelSize, old(Snapshot()), Handler(i, UdpSessions.Finish))
      ensures forall key :: key in old(activeConnections) && old(activeConnections)[key] != i ==>
        key in activeConnections && activeConnections[key] == old(activeConnections)[key]
      ensures !old(conns)[i].congested ==> conns[i].key !in activeConnections
    {
      FinishStep(channelSize, Snapshot(), i);
      hide Inv, Step, Enabled;
      if !conns[i].congested {
        activeConnections := activeConnections - {conns[i].key};
      }
      conns := conns[i := conns[i].(stage := Finished)];
    }
  }

  /** The session a client maps to, if it is not flagged, is the one that takes its datagrams. */
  lemma Mapped(s: State, key: nat)
    requires Inv(s) && key in s.table
    ensures s.table[key] < |s.sessions| && s.sessions[s.table[key]].key == key
    ensures !s.sessions[s.table[key]].congested ==> Usable(s.sessions[s.table[key]])
  {
  }

  /** What the step at the end of a handler does, and whose entry it deletes. */
  lemma FinishStep(cap: nat, s: State, i: nat)
    requires Inv(s) && !s.panicked && i < |s.sessions| && s.sessions[i].stage == Running(true, true)
    ensures Enabled(s, Handler(i, UdpSessions.Finish))
    ensures var w := s.sessions[i];
      && Step(cap, s, Handler(i, UdpSessions.Finish))
         == s.(sessions := s.sessions[i := w.(stage := Finished)],
               table := if w.congested then s.table else s.table - {w.key})
      && Inv(Step(cap, s, Handler(i, UdpSessions.Finish)))
      && (!w.congested ==> w.key in s.table && s.table[w.key] == i)
  {
    if !s.sessions[i].congested {
      OwnEntry(s, i);
    }
    hide Inv;
    InvKept(cap, s, Handler(i, UdpSessions.Finish));
  }

  lemma OwnEntry(s: State, i: nat)
    requires Inv(s) && i < |s.sessions| && Usable(s.sessions[i])
    ensures s.sessions[i].key in s.table && s.table[s.sessions[i].key] == i
  {
  }

  lemma InTable(s: State, key: nat)
    requires Inv(s)
    ensures key in s.table ==> s.table[key] < |s.sessions|
  {
  }

  lemma StepCreates(cap: nat, s: State, key: nat)
    requires Inv(s) && Enabled(s, Receive(key))
    requires key in s.table ==> s.sessions[s.table[key]].congested
    ensures Step(cap, s, Receive(key)) == s.(listener := Creating(key, |s.log|), log := s.log + [Received(key, InHand)])
  {
  }

  lemma {:induction false} LeadsJoin(cap: nat, s: State, first: seq<Event>, t: State, second: seq<Event>, u: State)
    requires Leads(cap, s, first, t) && Leads(cap, t, second, u)
    ensures Leads(cap, s, first + second, u)
    decreases |second|
  {
    hide Enabled, Step;
    if second == [] {
      assert first + second == first;
    } else {
      var t' := Step(cap, t, second[0]);
      LeadsOn(cap, s, first, t, second[0]);
      LeadsJoin(cap, s, first + [second[0]], t', second[1..], u);
      assert first + [second[0]] + second[1..] == first + second;
    }
  }
}
