/**
 * Which queued connections ever get a worker when no further session comes: all of them, as long as
 * one worker can still serve, and none otherwise.
 */
module MuxProgress {
  import opened MuxScheduler
  import opened MuxDemand
  import opened MuxStall

  /**
   * The worker can take a connection now or later: it is not gone or about to end, it keeps a slot
   * that no failed address send has lost, and a send that waits for a place has one.
   */
  predicate CanServe(c: Config, s: State, w: Session) {
    match w.phase
    case Acquiring => w.leaked < c.muxCon
    case Waiting => true
    case Holding(_) => true
    case Expiring(_) => true
    case Expired => true
    case Requeueing(_, fatal) => !fatal && w.leaked + 1 < c.muxCon && |s.queue| < c.channelSize
    case _ => false
  }

  ghost predicate SomeoneServes(c: Config, s: State) {
    exists i :: 0 <= i < |s.sessions| && CanServe(c, s, s.sessions[i])
  }

  /** Some worker holds connection x. */
  ghost predicate HeldNow(s: State, x: nat) {
    exists i :: 0 <= i < |s.sessions| && s.sessions[i].phase == Holding(x)
  }

  ghost predicate Reaches(c: Config, s: State, events: seq<Event>, x: nat) {
    NoOpen(events) && Run(c, s, events) && HeldNow(After(c, s, events), x)
  }

  lemma ReachesOn(c: Config, s: State, e: Event, events: seq<Event>, x: nat)
    requires Enabled(c, s, e) && !e.Open? && Reaches(c, Step(c, s, e), events, x)
    ensures Reaches(c, s, [e] + events, x)
  {
    hide Enabled, Step, HeldNow;
    assert ([e] + events)[1..] == events;
  }

  lemma ReachesNow(c: Config, s: State, x: nat)
    requires HeldNow(s, x)
    ensures Reaches(c, s, [], x)
  {
  }

  // ---- With a worker that can serve ------------------------------------

  /** How far worker i is from waiting for a connection. */
  function Distance(c: Config, w: Session): nat {
    match w.phase
    case Waiting => 0
    case Acquiring => if w.slots < c.muxCon then 1 else if w.releasing > 0 then 2 else 3
    case Expired => 4
    case Expiring(_) => 5
    case Holding(_) => 6
    case _ => 7
  }

  /** What the worker, or a stream of its session, does next to get there. */
  function Next(c: Config, w: Session): Move {
    match w.phase
    case Waiting => Take
    case Acquiring => if w.slots < c.muxCon then Acquire else if w.releasing > 0 then Release else Finish(0)
    case Expired => ExpireRelease
    case Expiring(_) => ExpireCount
    case Holding(_) => Expire
    case _ => Requeue
  }

  lemma NextSteps(c: Config, s: State, i: nat)
    requires SlotsAt(c, s, i) && CanServe(c, s, s.sessions[i]) && !s.sessions[i].phase.Waiting?
    ensures MoveEnabled(c, s, s.sessions[i], Next(c, s.sessions[i]))
    ensures var t := Moved(c, s, i, Next(c, s.sessions[i]));
      && i < |t.sessions| && SlotsAt(c, t, i) && CanServe(c, t, t.sessions[i])
      && Distance(c, t.sessions[i]) < Distance(c, s.sessions[i])
      && |t.queue| >= |s.queue| && t.queue[..|s.queue|] == s.queue
  {
  }

  predicate SlotsAt(c: Config, s: State, i: nat) { i < |s.sessions| && SlotsKept(c, s.sessions[i]) }

  /** A queued connection with k others ahead of it is taken once the worker has taken those. */
  lemma {:induction false} ServeQueued(c: Config, s: State, i: nat, k: nat) returns (events: seq<Event>)
    requires SlotsAt(c, s, i) && CanServe(c, s, s.sessions[i]) && k < |s.queue|
    ensures Reaches(c, s, events, s.queue[k])
    decreases k, Distance(c, s.sessions[i])
  {
    hide CanServe, Distance, SlotsKept, Reaches, Step, Enabled, MoveEnabled, Moved, Next;
    var m := if s.sessions[i].phase.Waiting? then Take else Next(c, s.sessions[i]);
    WorkerStep(c, s, i, m);
    var t, more := Moved(c, s, i, m), [];
    if m.Take? && k == 0 {
      TakeHolds(c, s, i);
      ReachesNow(c, t, s.queue[0]);
    } else if m.Take? {
      TakeHolds(c, s, i);
      more := ServeQueued(c, t, i, k - 1);
    } else {
      assert t.queue[k] == s.queue[k];
      more := ServeQueued(c, t, i, k);
    }
    ReachesOn(c, s, Worker(i, m), more, s.queue[k]);
    events := [Worker(i, m)] + more;
  }

  lemma WorkerStep(c: Config, s: State, i: nat, m: Move)
    requires SlotsAt(c, s, i) && CanServe(c, s, s.sessions[i]) && s.queue != []
    requires m == if s.sessions[i].phase.Waiting? then Take else Next(c, s.sessions[i])
    ensures MoveEnabled(c, s, s.sessions[i], m) && Enabled(c, s, Worker(i, m))
    ensures Step(c, s, Worker(i, m)) == Moved(c, s, i, m)
    ensures m.Take? <==> s.sessions[i].phase.Waiting?
    ensures !m.Take? ==>
      var t := Moved(c, s, i, m);
      && SlotsAt(c, t, i) && CanServe(c, t, t.sessions[i])
      && Distance(c, t.sessions[i]) < Distance(c, s.sessions[i])
      && |t.queue| >= |s.queue| && t.queue[..|s.queue|] == s.queue
  {
    hide CanServe, Distance, SlotsKept, Moved;
    if !s.sessions[i].phase.Waiting? {
      NextSteps(c, s, i);
      NextIsNoTake(c, s.sessions[i]);
    }
  }

  lemma NextIsNoTake(c: Config, w: Session)
    requires !w.phase.Waiting?
    ensures !Next(c, w).Take?
  {
  }

  lemma TakeHolds(c: Config, s: State, i: nat)
    requires SlotsAt(c, s, i) && s.sessions[i].phase.Waiting? && s.queue != []
    ensures MoveEnabled(c, s, s.sessions[i], Take)
    ensures var t := Moved(c, s, i, Take);
      SlotsAt(c, t, i) && CanServe(c, t, t.sessions[i]) && t.queue == s.queue[1..] && HeldNow(t, s.queue[0])
  {
    var t := Moved(c, s, i, Take);
    assert t.sessions[i].phase == Holding(s.queue[0]);
  }

  // ---- Without one -----------------------------------------------------

  lemma NobodyServesStep(c: Config, s: State, e: Event)
    requires AllKept(c, s.sessions) && !SomeoneServes(c, s) && Enabled(c, s, e) && !e.Open?
    ensures !SomeoneServes(c, Step(c, s, e))
  {
    var t := Step(c, s, e);
    assert |t.sessions| == |s.sessions|;
    forall i | 0 <= i < |t.sessions| ensures !CanServe(c, t, t.sessions[i]) {
      assert !CanServe(c, s, s.sessions[i]) && SlotsKept(c, s.sessions[i]);
    }
  }

  lemma KeptOf(c: Config, s: State)
    requires Inv(c, s)
    ensures AllKept(c, s.sessions)
  {
  }

  lemma {:induction false} NobodyServes(c: Config, s: State, events: seq<Event>)
    requires Inv(c, s) && !SomeoneServes(c, s) && Run(c, s, events) && NoOpen(events)
    ensures !SomeoneServes(c, After(c, s, events))
    decreases |events|
  {
    hide Inv, SomeoneServes, Step, Enabled;
    if events != [] {
      KeptOf(c, s);
      NobodyServesStep(c, s, events[0]);
      InvKept(c, s, events[0]);
      assert forall i :: 0 <= i < |events[1..]| ==> events[1..][i] == events[i + 1];
      NobodyServes(c, Step(c, s, events[0]), events[1..]);
    }
  }

  lemma HoldersServe(c: Config, s: State, x: nat)
    requires HeldNow(s, x)
    ensures SomeoneServes(c, s)
  {
    var i :| 0 <= i < |s.sessions| && s.sessions[i].phase == Holding(x);
    assert CanServe(c, s, s.sessions[i]);
  }

  lemma NeverReached(c: Config, s: State, events: seq<Event>, x: nat)
    requires Inv(c, s) && !SomeoneServes(c, s)
    ensures !Reaches(c, s, events, x)
  {
    hide Inv, SomeoneServes, Run, After;
    if Reaches(c, s, events, x) {
      NobodyServes(c, s, events);
      HoldersServe(c, After(c, s, events), x);
    }
  }

  /**
   * Progress, exactly: on every run, each waiting connection can still get a worker without any
   * further session if and only if some worker can serve.
   */
  lemma CanBeTakenIff(c: Config, events: seq<Event>, k: nat)
    requires Run(c, INIT, events) && k < |After(c, INIT, events).queue|
    ensures var s := After(c, INIT, events);
      (exists later :: Reaches(c, s, later, s.queue[k])) <==> SomeoneServes(c, s)
  {
    hide Inv, Run, After, Reaches, CanServe;
    InvInit(c);
    InvAlways(c, INIT, events);
    var s := After(c, INIT, events);
    KeptOf(c, s);
    if i :| 0 <= i < |s.sessions| && CanServe(c, s, s.sessions[i]) {
      assert SlotsAt(c, s, i);
      var later := ServeQueued(c, s, i, k);
    }
    if later :| Reaches(c, s, later, s.queue[k]) {
      if !SomeoneServes(c, s) {
        NeverReached(c, s, later, s.queue[k]);
      }
    }
  }

  /** In a stall nobody can serve. */
  lemma StalledServesNobody(c: Config, s: State)
    requires Inv(c, s) && Stalled(c, s)
    ensures !SomeoneServes(c, s)
  {
    forall i | 0 <= i < |s.sessions| ensures !CanServe(c, s, s.sessions[i]) {
      assert SlotsKept(c, s.sessions[i]);
    }
  }
}
