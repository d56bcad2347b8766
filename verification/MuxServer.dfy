/**
 * The code of enqueueInbound, handleLoop and handleSession as it runs in one goroutine: each of
 * its actions is one step of the machine in MuxScheduler, in this order and on these branches.
 */
module MuxServer {
  import opened MuxScheduler
  import opened MuxDemand
  import opened MuxStall

  /** A trace from one state to another. */
  ghost predicate Leads(c: Config, s: State, trace: seq<Event>, t: State) {
    Run(c, s, trace) && After(c, s, trace) == t
  }

  lemma LeadsOn(c: Config, s: State, trace: seq<Event>, t: State, e: Event, t': State)
    requires Leads(c, s, trace, t) && Enabled(c, t, e) && Step(c, t, e) == t'
    ensures Leads(c, s, trace + [e], t')
  {
    hide Step, Enabled;
    RunOne(c, t, e);
    RunConcat(c, s, trace, [e]);
  }

  lemma LeadsNowhere(c: Config, s: State)
    ensures Leads(c, s, [], s)
  {
  }

  lemma LeadsKeepsInv(c: Config, s: State, trace: seq<Event>, t: State)
    requires Leads(c, s, trace, t)
    ensures Inv(c, s) ==> Inv(c, t)
  {
    if Inv(c, s) {
      InvAlways(c, s, trace);
    }
  }

  lemma KeptBy(c: Config, s: State, trace: seq<Event>, t: State, i: nat)
    requires Leads(c, s, trace, t) && i < |t.sessions|
    ensures Inv(c, s) ==> Inv(c, t) && |t.sessions[i].streams| <= c.muxCon
  {
    LeadsKeepsInv(c, s, trace, t);
  }

  /** What handleSessionError does: with a full channel it blocks after uncounting the session. */
  function ErrorTrace(i: nat, room: bool): seq<Event> {
    [Worker(i, OpenFails), Worker(i, UncountSession)] + if room then [Worker(i, Requeue), Worker(i, Ask)] else []
  }

  class TcpMuxServer {
    const config: Config
    var localChannel: seq<nat>
    var accepted: nat
    var streamCounter: int
    var sessionCounter: int
    var reqNewConn: nat
    var sessions: seq<Session>
    var closed: seq<nat>
    // Enqueuers in other goroutines, between their send, their increment and their test.
    var pending: nat
    var testing: nat

    constructor (config: Config)
      ensures this.config == config && Snapshot() == INIT
    {
      this.config := config;
      localChannel, accepted, streamCounter, sessionCounter := [], 0, 0, 0;
      reqNewConn, sessions, closed, pending, testing := 0, [], [], 0, 0;
    }

    ghost function Snapshot(): State
      reads this
    {
      State(localChannel, accepted, pending, testing, streamCounter, sessionCounter, reqNewConn, sessions, closed)
    }

    method AskForSession()
      modifies this`reqNewConn
      ensures reqNewConn == Request(config, old(reqNewConn))
      ensures reqNewConn == if old(reqNewConn) < config.channelSize then old(reqNewConn) + 1 else old(reqNewConn)
    {
      if reqNewConn < config.channelSize {
        reqNewConn := reqNewConn + 1;
      }
    }

    /**
     * enqueueInbound: a full channel refuses the connection, with no effect. If a session could
     * have been asked for and was not, the live sessions have a slot for every waiting connection,
     * counting those that failed address sends have lost. A session is asked for exactly if the
     * streams are as many as the sessions carry, and then one, if the request channel has room.
     */
    method EnqueueInbound() returns (ok: bool)
      modifies this
      ensures ok <==> |old(localChannel)| < config.channelSize
      ensures !ok ==> Snapshot() == old(Snapshot())
      ensures ok ==>
        && localChannel == old(localChannel) + [old(accepted)] && accepted == old(accepted) + 1
        && streamCounter == old(streamCounter) + 1
        && var asks := old(streamCounter) + 1 >= Wrap32(old(sessionCounter) * config.muxCon);
           reqNewConn == old(reqNewConn) + if asks && old(reqNewConn) < config.channelSize then 1 else 0
      ensures sessions == old(sessions) && sessionCounter == old(sessionCounter) && closed == old(closed)
      ensures pending == old(pending) && testing == old(testing)
      ensures Leads(config, old(Snapshot()), if ok then [Send, Count, Test] else [], Snapshot())
      ensures Inv(config, old(Snapshot())) ==> Inv(config, Snapshot())
      ensures Inv(config, old(Snapshot())) && ok && reqNewConn == old(reqNewConn) < config.channelSize ==>
        && AllKept(config, sessions)
        && |localChannel| + AllDead(sessions) < FreeSlots(config, sessions) + AllLeaked(sessions) + pending
    {
      if |localChannel| >= config.channelSize {
        return false;
      }
      hide Run, After, Inv, Wrap32;
      ghost var start, s0 := Snapshot(), Snapshot();
      localChannel, accepted, pending := localChannel + [accepted], accepted + 1, pending + 1;
      LeadsOn(config, start, [], s0, Send, Snapshot());
      s0 := Snapshot();
      pending, testing, streamCounter := pending - 1, testing + 1, streamCounter + 1;
      LeadsOn(config, start, [] + [Send], s0, Count, Snapshot());
      assert [] + [Send] + [Count] + [Test] == [Send, Count, Test];
      Tested([] + [Send] + [Count], start);
      return true;
    }

    /** The comparison of enqueueInbound and the request for a session. */
    method Tested(ghost trace: seq<Event>, ghost start: State)
      requires testing > 0 && Leads(config, start, trace, Snapshot())
      modifies this`testing, this`reqNewConn
      ensures Leads(config, start, trace + [Test], Snapshot())
      ensures testing == old(testing) - 1
      ensures var asks := streamCounter >= Wrap32(sessionCounter * config.muxCon);
        reqNewConn == old(reqNewConn) + if asks && old(reqNewConn) < config.channelSize then 1 else 0
      ensures Inv(config, start) ==> Inv(config, Snapshot())
      ensures Inv(config, start) && reqNewConn == old(reqNewConn) < config.channelSize ==>
        && AllKept(config, sessions)
        && |localChannel| + AllDead(sessions) < FreeSlots(config, sessions) + AllLeaked(sessions) + pending
    {
      hide Run, After, Inv, Wrap32;
      ghost var s0 := Snapshot();
      testing := testing - 1;
      if streamCounter >= Wrap32(sessionCounter * config.muxCon) {
        AskForSession();
      }
      LeadsOn(config, start, trace, s0, Test, Snapshot());
      LeadsKeepsInv(config, start, trace + [Test], Snapshot());
      if Inv(config, start) && !WantsSession(config, Snapshot()) {
        DemandSoundAt(config, Snapshot());
      }
    }

    /** handleLoop: a session arrives on the tunnel channel. */
    method AcceptSession()
      modifies this
      ensures Leads(config, old(Snapshot()), [Open], Snapshot())
      ensures sessions == old(sessions) + [Session(Acquiring, 0, [], 0, 0)] && sessionCounter == old(sessionCounter) + 1
      ensures localChannel == old(localChannel) && reqNewConn == old(reqNewConn) && closed == old(closed)
      ensures Inv(config, old(Snapshot())) ==> Inv(config, Snapshot())
    {
      ghost var s0 := Snapshot();
      sessionCounter := sessionCounter + 1;
      sessions := sessions + [Session(Acquiring, 0, [], 0, 0)];
      LeadsOn(config, s0, [], s0, Open, Snapshot());
      assert [] + [Open] == [Open];
      LeadsKeepsInv(config, s0, [Open], Snapshot());
    }

    method SetPhase(i: nat, phase: Phase)
      requires i < |sessions|
      modifies this`sessions
      ensures sessions == old(sessions)[i := old(sessions)[i].(phase := phase)]
    {
      sessions := sessions[i := sessions[i].(phase := phase)];
    }

    /**
     * One turn of a session worker that has a connection: it is expired, started on a stream, or
     * sent back to the channel, which ends the session when no stream could be opened. A turn
     * stops in front of a full channel.
     */
    method ServeHeld(i: nat, age: int, opens: bool, addressSent: bool) returns (ghost trace: seq<Event>)
      requires i < |sessions| && sessions[i].phase.Holding? && sessions[i].slots > 0
      modifies this
      ensures Leads(config, old(Snapshot()), trace, Snapshot())
      ensures trace ==
        if age > 3000 then [Worker(i, Expire), Worker(i, ExpireCount), Worker(i, ExpireRelease)]
        else if !opens then ErrorTrace(i, |old(localChannel)| < config.channelSize)
        else if addressSent then [Worker(i, Start)]
        else [Worker(i, AddressFails)] + if |old(localChannel)| < config.channelSize then [Worker(i, Requeue)] else []
      ensures |sessions| == |old(sessions)|
      ensures Inv(config, old(Snapshot())) ==> Inv(config, Snapshot()) && |sessions[i].streams| <= config.muxCon
      ensures age > 3000 ==>
        && closed == old(closed) + [old(sessions)[i].phase.conn] && sessions[i].phase == Acquiring
        && streamCounter == old(streamCounter) - 1 && sessions[i].slots == old(sessions)[i].slots - 1
      ensures age <= 3000 ==> streamCounter == old(streamCounter) && closed == old(closed)
      ensures age <= 3000 && opens && addressSent ==>
        && sessions[i].streams == old(sessions)[i].streams + [old(sessions)[i].phase.conn]
        && sessions[i].phase == Acquiring
      ensures age <= 3000 && (!opens || !addressSent) && |old(localChannel)| < config.channelSize ==>
        && localChannel == old(localChannel) + [old(sessions)[i].phase.conn]
        && sessions[i].phase == (if opens then Acquiring else Stopped)
        && (opens ==> sessions[i].leaked == old(sessions)[i].leaked + 1)
    {
      ghost var start := Snapshot();
      var conn := sessions[i].phase.conn;
      if age > 3000 {
        trace := ExpireHeld(i);
        KeptBy(config, start, trace, Snapshot(), i);
        return;
      }
      if !opens {
        trace := HandleSessionError(i);
        KeptBy(config, start, trace, Snapshot(), i);
        return;
      }
      trace := StartOrSendBack(i, addressSent);
      KeptBy(config, start, trace, Snapshot(), i);
    }

    /** What follows an opened stream: the address is sent and the copying starts, or it fails. */
    method StartOrSendBack(i: nat, addressSent: bool) returns (ghost trace: seq<Event>)
      requires i < |sessions| && sessions[i].phase.Holding? && sessions[i].slots > 0
      modifies this
      ensures Leads(config, old(Snapshot()), trace, Snapshot())
      ensures trace ==
        if addressSent then [Worker(i, Start)]
        else [Worker(i, AddressFails)] + if |old(localChannel)| < config.channelSize then [Worker(i, Requeue)] else []
      ensures |sessions| == |old(sessions)| && streamCounter == old(streamCounter) && closed == old(closed)
      ensures addressSent ==>
        && sessions[i].streams == old(sessions)[i].streams + [old(sessions)[i].phase.conn]
        && sessions[i].phase == Acquiring
      ensures !addressSent && |old(localChannel)| < config.channelSize ==>
        && localChannel == old(localChannel) + [old(sessions)[i].phase.conn] && sessions[i].phase == Acquiring
        && sessions[i].leaked == old(sessions)[i].leaked + 1
    {
      ghost var start := Snapshot();
      var conn := sessions[i].phase.conn;
      ghost var s0 := Snapshot();
      if !addressSent {
        SetPhase(i, Requeueing(conn, false));
        LeadsOn(config, start, [], s0, Worker(i, AddressFails), Snapshot());
        trace := [] + [Worker(i, AddressFails)];
        if |localChannel| < config.channelSize {
          s0 := Snapshot();
          localChannel := localChannel + [conn];
          sessions := sessions[i := sessions[i].(phase := Acquiring, leaked := sessions[i].leaked + 1)];
          LeadsOn(config, start, trace, s0, Worker(i, Requeue), Snapshot());
          trace := trace + [Worker(i, Requeue)];
        }
        return;
      }
      sessions := sessions[i := sessions[i].(streams := sessions[i].streams + [conn], phase := Acquiring)];
      LeadsOn(config, start, [], s0, Worker(i, Start), Snapshot());
      trace := [] + [Worker(i, Start)];
    }

    method ExpireHeld(i: nat) returns (ghost trace: seq<Event>)
      requires i < |sessions| && sessions[i].phase.Holding? && sessions[i].slots > 0
      modifies this
      ensures Leads(config, old(Snapshot()), trace, Snapshot())
      ensures trace == [Worker(i, Expire), Worker(i, ExpireCount), Worker(i, ExpireRelease)]
      ensures |sessions| == |old(sessions)| && sessions[i].phase == Acquiring
      ensures closed == old(closed) + [old(sessions)[i].phase.conn]
      ensures streamCounter == old(streamCounter) - 1 && sessions[i].slots == old(sessions)[i].slots - 1
    {
      ghost var start, s0 := Snapshot(), Snapshot();
      var conn := sessions[i].phase.conn;
      SetPhase(i, Expiring(conn));
      LeadsOn(config, start, [], s0, Worker(i, Expire), Snapshot());
      s0 := Snapshot();
      streamCounter := streamCounter - 1;
      closed := closed + [conn];
      SetPhase(i, Expired);
      LeadsOn(config, start, [] + [Worker(i, Expire)], s0, Worker(i, ExpireCount), Snapshot());
      s0 := Snapshot();
      sessions := sessions[i := sessions[i].(slots := sessions[i].slots - 1, phase := Acquiring)];
      trace := [] + [Worker(i, Expire)] + [Worker(i, ExpireCount)];
      LeadsOn(config, start, trace, s0, Worker(i, ExpireRelease), Snapshot());
      trace := trace + [Worker(i, ExpireRelease)];
    }

    /**
     * handleSessionError, and the return that follows it. On a full channel the worker blocks
     * before it has asked for a session, and if it was the last one at work the server is stalled.
     */
    method HandleSessionError(i: nat) returns (ghost trace: seq<Event>)
      requires i < |sessions| && sessions[i].phase.Holding?
      modifies this
      ensures Leads(config, old(Snapshot()), trace, Snapshot())
      ensures trace == ErrorTrace(i, |old(localChannel)| < config.channelSize)
      ensures |sessions| == |old(sessions)|
      ensures |old(localChannel)| < config.channelSize ==>
        localChannel == old(localChannel) + [old(sessions)[i].phase.conn] && sessions[i].phase == Stopped
      ensures sessionCounter == old(sessionCounter) - 1
      ensures streamCounter == old(streamCounter) && closed == old(closed)
      ensures reqNewConn == old(reqNewConn)
        + if |old(localChannel)| < config.channelSize && old(reqNewConn) < config.channelSize then 1 else 0
      ensures |old(localChannel)| >= config.channelSize ==> localChannel == old(localChannel)
      ensures LastWorker(config, old(Snapshot()), i) ==> Stalled(config, Snapshot())
    {
      hide Run, After;
      ghost var start, s0 := Snapshot(), Snapshot();
      LeadsNowhere(config, start);
      var conn := sessions[i].phase.conn;
      SetPhase(i, Failing(conn));
      LeadsOn(config, start, [], s0, Worker(i, OpenFails), Snapshot());
      s0 := Snapshot();
      sessionCounter := sessionCounter - 1;
      SetPhase(i, Requeueing(conn, true));
      trace := [] + [Worker(i, OpenFails)];
      LeadsOn(config, start, trace, s0, Worker(i, UncountSession), Snapshot());
      trace := trace + [Worker(i, UncountSession)];
      if |localChannel| < config.channelSize {
        s0 := Snapshot();
        localChannel := localChannel + [conn];
        SetPhase(i, Asking);
        LeadsOn(config, start, trace, s0, Worker(i, Requeue), Snapshot());
        trace := trace + [Worker(i, Requeue)];
        s0 := Snapshot();
        AskForSession();
        SetPhase(i, Stopped);
        LeadsOn(config, start, trace, s0, Worker(i, Ask), Snapshot());
        trace := trace + [Worker(i, Ask)];
      }
    }
  }
}
