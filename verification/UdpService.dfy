/**
 * Which UDP sessions ever get a handler: exactly those that did not meet a full dispatcher queue.
 */
module UdpService {
  import opened Bytes
  import opened UdpSessions

  /** The session has, or had, its handler. */
  predicate Served(w: Session) { w.stage.Running? || w.stage.Finished? }

  /** No waiting session is lost: it is with the listener, in the queue or with the dispatcher. */
  ghost predicate WaitInv(cap: nat, s: State) {
    && |s.udpChan| <= cap
    && forall i :: 0 <= i < |s.sessions| ==> Waits(s, i, s.sessions[i].stage)
  }

  predicate Waits(s: State, i: nat, stage: Stage) {
    && (stage.Queued? ==> i in s.udpChan)
    && (stage.Dispatching? ==> s.dispatching == Some(i))
    && (stage.Stored? ==> s.listener.Created? && s.listener.i == i)
  }

  lemma HandlerWaits(cap: nat, s: State, i: nat, m: Move)
    requires WaitInv(cap, s) && Enabled(s, Handler(i, m))
    ensures WaitInv(cap, Step(cap, s, Handler(i, m)))
  {
  }

  lemma ReceiveWaits(cap: nat, s: State, key: nat)
    requires WaitInv(cap, s) && Enabled(s, Receive(key))
    ensures WaitInv(cap, Step(cap, s, Receive(key)))
  {
    var s' := Step(cap, s, Receive(key));
    assert |s'.sessions| == |s.sessions|;
    forall i | 0 <= i < |s.sessions| ensures Waits(s', i, s'.sessions[i].stage) {
      assert Waits(s, i, s.sessions[i].stage);
    }
  }

  lemma ListenerWaits(cap: nat, s: State, e: Event)
    requires WaitInv(cap, s) && Inv(s) && Enabled(s, e) && (e.Store? || e.Enqueue? || e.SendFirst?)
    ensures WaitInv(cap, Step(cap, s, e))
  {
    hide TableInv, FlowInv, LogInv, QueueInv, StartInv;
    var s' := Step(cap, s, e);
    forall i | 0 <= i < |s'.sessions| ensures Waits(s', i, s'.sessions[i].stage) {
      if i < |s.sessions| {
        assert Waits(s, i, s.sessions[i].stage);
      }
    }
  }

  lemma DispatcherWaits(cap: nat, s: State, e: Event)
    requires WaitInv(cap, s) && Inv(s) && Enabled(s, e) && (e.Dispatch? || e.Assign?)
    ensures WaitInv(cap, Step(cap, s, e))
  {
    hide TableInv, FlowInv, LogInv, ListenerInv, StartInv;
    var s' := Step(cap, s, e);
    forall i | 0 <= i < |s'.sessions| ensures Waits(s', i, s'.sessions[i].stage) {
      assert Waits(s, i, s.sessions[i].stage);
    }
  }

  lemma WaitKept(cap: nat, s: State, e: Event)
    requires WaitInv(cap, s) && Inv(s) && Enabled(s, e)
    ensures WaitInv(cap, Step(cap, s, e))
  {
    hide WaitInv, Inv, Step;
    match e {
      case Receive(key) => ReceiveWaits(cap, s, key);
      case Handler(i, m) => HandlerWaits(cap, s, i, m);
      case Dispatch => DispatcherWaits(cap, s, e);
      case Assign => DispatcherWaits(cap, s, e);
      case _ => ListenerWaits(cap, s, e);
    }
  }

  lemma {:induction false} WaitAlways(cap: nat, s: State, events: seq<Event>)
    requires WaitInv(cap, s) && Inv(s) && Run(cap, s, events)
    ensures WaitInv(cap, After(cap, s, events)) && Inv(After(cap, s, events))
    decreases |events|
  {
    hide WaitInv, Inv, Step, Enabled;
    if events != [] {
      WaitKept(cap, s, events[0]);
      InvKept(cap, s, events[0]);
      WaitAlways(cap, Step(cap, s, events[0]), events[1..]);
    }
  }

  // ---- A way to a handler ----------------------------------------------

  ghost predicate Reaches(cap: nat, s: State, events: seq<Event>, i: nat) {
    Run(cap, s, events) && i < |After(cap, s, events).sessions| && Served(After(cap, s, events).sessions[i])
  }

  lemma ReachesOn(cap: nat, s: State, e: Event, events: seq<Event>, i: nat)
    requires Enabled(s, e) && Reaches(cap, Step(cap, s, e), events, i)
    ensures Reaches(cap, s, [e] + events, i)
  {
    hide Enabled, Step, Served;
    assert ([e] + events)[1..] == events;
  }

  lemma ReachesNow(cap: nat, s: State, i: nat)
    requires i < |s.sessions| && Served(s.sessions[i])
    ensures Reaches(cap, s, [], i)
  {
  }

  /** The dispatcher takes a turn; nothing panics. */
  lemma DispatcherSteps(cap: nat, s: State)
    requires WaitInv(cap, s) && Inv(s) && !s.panicked
    ensures s.dispatching.Some? ==>
      && Enabled(s, Assign)
      && var t := Step(cap, s, Assign);
         && t.dispatching.None? && !t.panicked && t.udpChan == s.udpChan && t.listener == s.listener
         && s.dispatching.value < |t.sessions| == |s.sessions| && Served(t.sessions[s.dispatching.value])
    ensures s.dispatching.None? && s.udpChan != [] ==>
      && Enabled(s, Dispatch)
      && var t := Step(cap, s, Dispatch);
         && t.dispatching == Some(s.udpChan[0]) && t.udpChan == s.udpChan[1..]
         && !t.panicked && t.listener == s.listener
         && |t.sessions| == |s.sessions|
  {
    hide TableInv, FlowInv, LogInv, ListenerInv, StartInv;
  }

  lemma ServeDispatching(cap: nat, s: State) returns (events: seq<Event>)
    requires WaitInv(cap, s) && Inv(s) && !s.panicked && s.dispatching.Some?
    ensures Reaches(cap, s, events, s.dispatching.value)
  {
    hide WaitInv, Inv, Step, Enabled, Reaches;
    DispatcherSteps(cap, s);
    ReachesNow(cap, Step(cap, s, Assign), s.dispatching.value);
    ReachesOn(cap, s, Assign, [], s.dispatching.value);
    events := [Assign] + [];
  }

  /** A queued session with k others ahead of it gets its handler after that many turns. */
  lemma {:induction false} ServeQueued(cap: nat, s: State, k: nat) returns (events: seq<Event>)
    requires WaitInv(cap, s) && Inv(s) && !s.panicked && k < |s.udpChan|
    ensures Reaches(cap, s, events, s.udpChan[k])
    decreases 2 * k + if s.dispatching.Some? then 1 else 0
  {
    hide WaitInv, Inv, Step, Enabled, Reaches;
    DispatcherSteps(cap, s);
    var e := if s.dispatching.Some? then Assign else Dispatch;
    WaitKept(cap, s, e);
    InvKept(cap, s, e);
    var t, more := Step(cap, s, e), [];
    if e.Assign? {
      more := ServeQueued(cap, t, k);
    } else if k == 0 {
      more := ServeDispatching(cap, t);
    } else {
      more := ServeQueued(cap, t, k - 1);
    }
    ReachesOn(cap, s, e, more, s.udpChan[k]);
    events := [e] + more;
  }

  lemma EnqueueSteps(cap: nat, s: State)
    requires WaitInv(cap, s) && Inv(s) && !s.panicked && s.listener.Created? && |s.udpChan| < cap
    ensures Enabled(s, Enqueue)
    ensures var t := Step(cap, s, Enqueue); t.udpChan == s.udpChan + [s.listener.i] && !t.panicked
  {
    hide TableInv, FlowInv, LogInv, QueueInv, StartInv;
  }

  /** A stored session can still be served: the dispatcher may make room before it is queued. */
  lemma {:induction false} ServeStored(cap: nat, s: State) returns (events: seq<Event>)
    requires WaitInv(cap, s) && Inv(s) && !s.panicked && s.listener.Created? && cap > 0
    ensures Reaches(cap, s, events, s.listener.i)
    decreases 2 * |s.udpChan| + if s.dispatching.Some? then 1 else 0
  {
    QueueBounded(cap, s);
    hide WaitInv, Inv, Step, Enabled, Reaches;
    var more, e;
    if |s.udpChan| < cap {
      EnqueueSteps(cap, s);
      e := Enqueue;
      WaitKept(cap, s, e);
      InvKept(cap, s, e);
      more := ServeQueued(cap, Step(cap, s, e), |s.udpChan|);
    } else {
      DispatcherSteps(cap, s);
      e := if s.dispatching.Some? then Assign else Dispatch;
      WaitKept(cap, s, e);
      InvKept(cap, s, e);
      more := ServeStored(cap, Step(cap, s, e));
    }
    ReachesOn(cap, s, e, more, s.listener.i);
    events := [e] + more;
  }

  lemma QueueBounded(cap: nat, s: State)
    requires WaitInv(cap, s)
    ensures |s.udpChan| <= cap
  {
  }

  /** Every session that was not dropped can still get its handler, or has it. */
  lemma CanBeServed(cap: nat, s: State, i: nat) returns (events: seq<Event>)
    requires WaitInv(cap, s) && Inv(s) && !s.panicked && cap > 0
    requires i < |s.sessions| && !s.sessions[i].stage.Dropped?
    ensures Reaches(cap, s, events, i)
  {
    hide Inv, Step, Enabled, Reaches, Run, After;
    assert Waits(s, i, s.sessions[i].stage);
    match s.sessions[i].stage {
      case Stored => events := ServeStored(cap, s);
      case Queued =>
        var k :| 0 <= k < |s.udpChan| && s.udpChan[k] == i;
        events := ServeQueued(cap, s, k);
      case Dispatching => events := ServeDispatching(cap, s);
      case _ =>
        ReachesNow(cap, s, i);
        events := [];
    }
  }

  // ---- And the ones that never do --------------------------------------

  /** On this run the queue was full when session i was to be queued. */
  predicate MetFullQueue(cap: nat, s: State, events: seq<Event>, i: nat)
    requires Run(cap, s, events)
    decreases |events|
  {
    events != [] && (FullFor(cap, s, events[0], i) || MetFullQueue(cap, Step(cap, s, events[0]), events[1..], i))
  }

  predicate FullFor(cap: nat, s: State, e: Event, i: nat) {
    e.Enqueue? && s.listener.Created? && s.listener.i == i && |s.udpChan| >= cap
  }

  predicate IsDropped(s: State, i: nat) { i < |s.sessions| && s.sessions[i].stage.Dropped? }

  lemma DroppedStep(cap: nat, s: State, e: Event, i: nat)
    requires Inv(s) && Enabled(s, e)
    ensures IsDropped(Step(cap, s, e), i) <==> IsDropped(s, i) || FullFor(cap, s, e, i)
  {
    hide TableInv, FlowInv, LogInv, StartInv;
  }

  lemma {:induction false} DroppedIffFull(cap: nat, s: State, events: seq<Event>, i: nat)
    requires Inv(s) && Run(cap, s, events)
    ensures IsDropped(After(cap, s, events), i) <==> IsDropped(s, i) || MetFullQueue(cap, s, events, i)
    decreases |events|
  {
    hide Inv, Step, Enabled, FullFor, IsDropped;
    if events != [] {
      DroppedStep(cap, s, events[0], i);
      InvKept(cap, s, events[0]);
      DroppedIffFull(cap, Step(cap, s, events[0]), events[1..], i);
    }
  }

  lemma DroppedForGood(cap: nat, s: State, later: seq<Event>, i: nat)
    requires Inv(s) && IsDropped(s, i)
    ensures !Reaches(cap, s, later, i)
  {
    hide Inv, Run, After;
    if Run(cap, s, later) {
      DroppedIffFull(cap, s, later, i);
    }
  }

  /**
   * A session is never served, whatever happens from here on, if and only if the queue was full
   * when it was to be queued. Every other session has a continuation in which it gets its handler.
   */
  lemma NeverServedIff(cap: nat, events: seq<Event>, i: nat)
    requires cap > 0 && Run(cap, INIT, events)
    requires var s := After(cap, INIT, events); !s.panicked && i < |s.sessions|
    ensures (forall later :: !Reaches(cap, After(cap, INIT, events), later, i)) <==> MetFullQueue(cap, INIT, events, i)
  {
    assert WaitInv(cap, INIT) && Inv(INIT) && !IsDropped(INIT, i);
    hide Inv, WaitInv, Run, After, Reaches, MetFullQueue;
    WaitAlways(cap, INIT, events);
    DroppedIffFull(cap, INIT, events, i);
    var s := After(cap, INIT, events);
    if IsDropped(s, i) {
      forall later ensures !Reaches(cap, s, later, i) {
        DroppedForGood(cap, s, later, i);
      }
    } else {
      var later := CanBeServed(cap, s, i);
    }
  }
}
