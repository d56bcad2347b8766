/**
 * When the scheduler asks for another session: exactly when the test of enqueueInbound asks, that
 * it never misses a shortage as long as no address send has failed, and what a failed address send
 * does to a session.
 */
module MuxDemand {
  import opened MuxScheduler

  /** The slots a waiting connection could take in a session now. */
  function Spare(c: Config, w: Session): nat
    requires SlotsKept(c, w)
  {
    if Live(w) then c.muxCon - w.slots + One(w.phase.Waiting?) else 0
  }

  /** Tokens whose connection is already uncounted, so that they are about to be taken out. */
  function Owed(w: Session): nat { if Live(w) then w.releasing + One(w.phase.Expired?) else 0 }

  function Leaked(w: Session): nat { if Live(w) then w.leaked else 0 }

  ghost predicate AllKept(c: Config, ws: seq<Session>) {
    forall i :: 0 <= i < |ws| ==> SlotsKept(c, ws[i])
  }

  function Spares(c: Config, ws: seq<Session>): nat
    requires AllKept(c, ws)
  {
    if ws == [] then 0 else Spares(c, ws[..|ws| - 1]) + Spare(c, ws[|ws| - 1])
  }

  function AllOwed(ws: seq<Session>): nat {
    if ws == [] then 0 else AllOwed(ws[..|ws| - 1]) + Owed(ws[|ws| - 1])
  }

  function AllLeaked(ws: seq<Session>): nat {
    if ws == [] then 0 else AllLeaked(ws[..|ws| - 1]) + Leaked(ws[|ws| - 1])
  }

  /** The connections of a session that no longer counts. */
  function Dead(w: Session): nat { if Live(w) then 0 else Load(w) }

  function AllDead(ws: seq<Session>): nat {
    if ws == [] then 0 else AllDead(ws[..|ws| - 1]) + Dead(ws[|ws| - 1])
  }

  lemma SessionCapacity(c: Config, w: Session)
    requires SlotsKept(c, w)
    ensures One(Live(w)) * c.muxCon + Dead(w) == Load(w) + Spare(c, w) + Owed(w) + Leaked(w)
  {
  }

  /** What the live sessions can carry is exactly what is in use there, spare, owed or leaked. */
  lemma {:induction false} Capacity(c: Config, ws: seq<Session>)
    requires AllKept(c, ws)
    ensures LiveCount(ws) * c.muxCon + AllDead(ws) == Loads(ws) + Spares(c, ws) + AllOwed(ws) + AllLeaked(ws)
  {
    hide Spare, Owed, Leaked, Dead, Load, Live, One, SlotsKept;
    if ws != [] {
      var n := |ws| - 1;
      Capacity(c, ws[..n]);
      SessionCapacity(c, ws[n]);
      Distribute(LiveCount(ws[..n]), One(Live(ws[n])), c.muxCon);
    }
  }

  lemma Distribute(a: nat, b: nat, m: nat)
    ensures (a + b) * m == a * m + b * m
  {
  }

  lemma WrapOnlyLowers(n: nat)
    ensures Wrap32(n) <= n
  {
  }

  /**
   * The demand test is sound, even when its int32 product overflows: if it does not ask for a
   * session, fewer connections wait than there are slots spare, owed or leaked, counting the
   * enqueuers that have not incremented the counter yet as waiting.
   */
  lemma DemandSoundAt(c: Config, s: State)
    requires Inv(c, s) && !WantsSession(c, s)
    ensures AllKept(c, s.sessions)
    ensures |s.queue| + AllDead(s.sessions)
      < Spares(c, s.sessions) + AllOwed(s.sessions) + AllLeaked(s.sessions) + s.pending
  {
    hide Wrap32, Spares, AllOwed, AllLeaked, AllDead, Loads, LiveCount;
    Capacity(c, s.sessions);
    WrapOnlyLowers(s.sessionCounter * c.muxCon);
  }

  lemma DemandSound(c: Config, events: seq<Event>)
    requires Run(c, INIT, events) && !WantsSession(c, After(c, INIT, events))
    ensures var s := After(c, INIT, events);
      && AllKept(c, s.sessions)
      && |s.queue| + AllDead(s.sessions)
         < Spares(c, s.sessions) + AllOwed(s.sessions) + AllLeaked(s.sessions) + s.pending
  {
    hide Run, After, Inv;
    InvInit(c);
    InvAlways(c, INIT, events);
    DemandSoundAt(c, After(c, INIT, events));
  }

  /**
   * Exactly what the test compares, on every run in which the product fits an int32: it asks if and
   * only if the waiting connections, with those stuck in dead sessions, take up all slots that are
   * spare, owed or leaked, with one for each enqueuer that has not incremented the counter yet.
   */
  lemma DemandIff(c: Config, events: seq<Event>)
    requires Run(c, INIT, events) && After(c, INIT, events).sessionCounter * c.muxCon < 0x8000_0000
    ensures var s := After(c, INIT, events);
      && AllKept(c, s.sessions)
      && (WantsSession(c, s) <==>
          |s.queue| + AllDead(s.sessions)
            >= Spares(c, s.sessions) + AllOwed(s.sessions) + AllLeaked(s.sessions) + s.pending)
  {
    hide Run, After;
    InvInit(c);
    InvAlways(c, INIT, events);
    var s := After(c, INIT, events);
    Capacity(c, s.sessions);
    WrapOfSmall(s.sessionCounter, c.muxCon);
  }

  lemma WrapOfSmall(n: nat, m: nat)
    requires n * m < 0x8000_0000
    ensures Wrap32(n * m) == n * m
  {
  }

  /** The free slots of live sessions, and whether they are too few for the waiting connections. */
  function FreeSlots(c: Config, ws: seq<Session>): nat
    requires AllKept(c, ws)
  {
    Spares(c, ws) + AllOwed(ws)
  }

  /**
   * When the test is wrong, exactly. Let the shortage be the waiting connections less the free
   * slots, and let leaked slots and uncounted enqueuers, less the connections of dead sessions, be
   * hidden from the test. It fails to ask in a shortage if and only if the shortage is less than
   * what is hidden - in all other cases not asking leaves more free slots than waiting connections -
   * and it asks without a shortage if and only if what is hidden is negative and no more than it.
   */
  lemma DemandWrongIff(c: Config, events: seq<Event>)
    requires Run(c, INIT, events) && After(c, INIT, events).sessionCounter * c.muxCon < 0x8000_0000
    ensures var s := After(c, INIT, events);
      && AllKept(c, s.sessions)
      && var shortage := |s.queue| - FreeSlots(c, s.sessions);
         var hidden := AllLeaked(s.sessions) + s.pending - AllDead(s.sessions);
         && (!WantsSession(c, s) && shortage >= 0 <==> 0 <= shortage < hidden)
         && (WantsSession(c, s) && shortage < 0 <==> hidden <= shortage < 0)
  {
    hide Run, After, WantsSession;
    DemandIff(c, events);
  }

  // ---- Runs in which every address send succeeds -----------------------

  ghost predicate NoAddressFails(events: seq<Event>) {
    forall i :: 0 <= i < |events| ==> !(events[i].Worker? && events[i].move.AddressFails?)
  }

  ghost predicate NeverLeaked(ws: seq<Session>) {
    forall i :: 0 <= i < |ws| ==>
      ws[i].leaked == 0 && (ws[i].phase.Requeueing? ==> ws[i].phase.fatal)
  }

  lemma {:induction false} NeverLeakedKept(c: Config, s: State, events: seq<Event>)
    requires Run(c, s, events) && NoAddressFails(events) && NeverLeaked(s.sessions)
    ensures NeverLeaked(After(c, s, events).sessions)
    decreases |events|
  {
    if events != [] {
      var e := events[0];
      var next := Step(c, s, e);
      assert NeverLeaked(next.sessions) by {
        if e.Worker? {
          assert next.sessions == s.sessions[e.i := next.sessions[e.i]];
        }
      }
      NeverLeakedKept(c, next, events[1..]);
    }
  }

  lemma {:induction false} NothingLeaked(ws: seq<Session>)
    requires NeverLeaked(ws)
    ensures AllLeaked(ws) == 0
  {
    if ws != [] {
      NothingLeaked(ws[..|ws| - 1]);
    }
  }

  lemma {:induction false} SomeFree(c: Config, ws: seq<Session>)
    requires AllKept(c, ws) && FreeSlots(c, ws) > 0
    ensures exists i :: 0 <= i < |ws| && Live(ws[i]) && Spare(c, ws[i]) + Owed(ws[i]) > 0
  {
    var n := |ws| - 1;
    if Spare(c, ws[n]) + Owed(ws[n]) == 0 {
      SomeFree(c, ws[..n]);
      var i :| 0 <= i < n && Live(ws[..n][i]) && Spare(c, ws[..n][i]) + Owed(ws[..n][i]) > 0;
      assert ws[i] == ws[..n][i];
    }
  }

  /**
   * With no failed address send, not asking for a session leaves more free slots than waiting
   * connections, except for the enqueuers that have not incremented the counter; with enqueueing
   * taken as one step, some live session has a slot that is free or about to be.
   */
  lemma DemandSoundWithoutFailures(c: Config, events: seq<Event>)
    requires Run(c, INIT, events) && NoAddressFails(events) && !WantsSession(c, After(c, INIT, events))
    ensures var s := After(c, INIT, events);
      && AllKept(c, s.sessions) && |s.queue| + AllDead(s.sessions) < FreeSlots(c, s.sessions) + s.pending
      && (s.pending == 0 ==>
          exists i :: 0 <= i < |s.sessions| && Live(s.sessions[i]) && Spare(c, s.sessions[i]) + Owed(s.sessions[i]) > 0)
  {
    hide Run, After, WantsSession, NeverLeaked;
    DemandSound(c, events);
    assert NeverLeaked(INIT.sessions) by { NoSessions(); }
    NeverLeakedKept(c, INIT, events);
    NothingLeaked(After(c, INIT, events).sessions);
    if After(c, INIT, events).pending == 0 {
      SomeFree(c, After(c, INIT, events).sessions);
    }
  }

  lemma NoSessions()
    ensures NeverLeaked([])
  {
  }

  // ---- What a failed address send does ---------------------------------

  lemma {:induction false} RunConcat(c: Config, s: State, a: seq<Event>, b: seq<Event>)
    requires Run(c, s, a) && Run(c, After(c, s, a), b)
    ensures Run(c, s, a + b) && After(c, s, a + b) == After(c, After(c, s, a), b)
    decreases |a|
  {
    hide Enabled, Step;
    if a == [] {
      assert a + b == b;
    } else {
      assert (a + b)[1..] == a[1..] + b;
      RunConcat(c, Step(c, s, a[0]), a[1..], b);
    }
  }

  lemma RunOne(c: Config, s: State, e: Event)
    requires Enabled(c, s, e)
    ensures Run(c, s, [e]) && After(c, s, [e]) == Step(c, s, e)
  {
    assert [e][1..] == [];
  }

  /** A session with k tokens that were never taken out, and one waiting connection for all of these. */
  function LeakySession(k: nat): Session { Session(Acquiring, k, [], 0, k) }

  function LeakyState(ws: seq<Session>): State { State([0], 1, 0, 0, 1, |ws|, 0, ws, []) }

  /** None of these events can ask for a session. */
  predicate OnlyLeaks(events: seq<Event>) {
    forall i :: 0 <= i < |events| ==> events[i].Worker? && !events[i].move.Ask?
  }

  /** The connection is taken, its address cannot be sent, and it is sent back: one token is lost. */
  lemma LeakOnce(c: Config, ws: seq<Session>, i: nat, k: nat) returns (events: seq<Event>)
    requires i < |ws| && ws[i] == LeakySession(k) && k < c.muxCon && c.channelSize > 0
    ensures Run(c, LeakyState(ws), events)
    ensures After(c, LeakyState(ws), events) == LeakyState(ws[i := LeakySession(k + 1)])
    ensures OnlyLeaks(events)
  {
    hide Run, After;
    var s0 := LeakyState(ws);
    var s1 := s0.(sessions := ws[i := Session(Waiting, k + 1, [], 0, k)]);
    var s2 := s0.(queue := [], sessions := ws[i := Session(Holding(0), k + 1, [], 0, k)]);
    var s3 := s2.(sessions := ws[i := Session(Requeueing(0, false), k + 1, [], 0, k)]);
    var e0, e1, e2, e3 := Worker(i, Acquire), Worker(i, Take), Worker(i, AddressFails), Worker(i, Requeue);
    assert Step(c, s0, e0) == s1;
    assert Step(c, s1, e1) == s2;
    assert Step(c, s2, e2) == s3;
    assert Step(c, s3, e3) == LeakyState(ws[i := LeakySession(k + 1)]);
    RunOne(c, s0, e0);
    RunOne(c, s1, e1);
    RunOne(c, s2, e2);
    RunOne(c, s3, e3);
    RunConcat(c, s2, [e2], [e3]);
    RunConcat(c, s1, [e1], [e2] + [e3]);
    RunConcat(c, s0, [e0], [e1] + ([e2] + [e3]));
    events := [e0] + ([e1] + ([e2] + [e3]));
  }

  lemma {:induction false} LeakMany(c: Config, ws: seq<Session>, i: nat, k: nat) returns (events: seq<Event>)
    requires i < |ws| && ws[i] == LeakySession(0) && k <= c.muxCon && c.channelSize > 0
    ensures Run(c, LeakyState(ws), events) && After(c, LeakyState(ws), events) == LeakyState(ws[i := LeakySession(k)])
    ensures OnlyLeaks(events)
  {
    if k == 0 {
      events := [];
      assert ws[i := LeakySession(0)] == ws;
    } else {
      var before := LeakMany(c, ws, i, k - 1);
      var last := LeakOnce(c, ws[i := LeakySession(k - 1)], i, k - 1);
      RunConcat(c, LeakyState(ws), before, last);
      assert ws[i := LeakySession(k - 1)][i := LeakySession(k)] == ws[i := LeakySession(k)];
      events := before + last;
    }
  }

  /** One connection comes in while there are this many fresh sessions; the test does not ask. */
  lemma OneWaits(c: Config, ws: seq<Session>) returns (events: seq<Event>)
    requires forall i :: 0 <= i < |ws| ==> ws[i] == LeakySession(0)
    requires 1 < Wrap32(|ws| * c.muxCon) && c.channelSize > 0
    ensures Run(c, INIT, events) && After(c, INIT, events) == LeakyState(ws)
  {
    hide Run, After;
    var opens := OpenMany(c, ws);
    var s0 := INIT.(sessions := ws, sessionCounter := |ws|);
    var s1 := s0.(queue := [0], accepted := 1, pending := 1);
    var s2 := s1.(pending := 0, testing := 1, streamCounter := 1);
    assert Step(c, s0, Send) == s1;
    assert Step(c, s1, Count) == s2;
    assert Step(c, s2, Test) == LeakyState(ws);
    RunOne(c, s0, Send);
    RunOne(c, s1, Count);
    RunOne(c, s2, Test);
    RunConcat(c, s1, [Count], [Test]);
    RunConcat(c, s0, [Send], [Count] + [Test]);
    RunConcat(c, INIT, opens, [Send] + ([Count] + [Test]));
    events := opens + ([Send] + ([Count] + [Test]));
  }

  lemma {:induction false} OpenMany(c: Config, ws: seq<Session>) returns (events: seq<Event>)
    requires forall i :: 0 <= i < |ws| ==> ws[i] == LeakySession(0)
    ensures Run(c, INIT, events) && After(c, INIT, events) == INIT.(sessions := ws, sessionCounter := |ws|)
  {
    if ws == [] {
      events := [];
    } else {
      var front := ws[..|ws| - 1];
      var before := OpenMany(c, front);
      var s := INIT.(sessions := front, sessionCounter := |front|);
      assert front + [LeakySession(0)] == ws;
      assert Step(c, s, Open) == INIT.(sessions := ws, sessionCounter := |ws|);
      RunOne(c, s, Open);
      RunConcat(c, INIT, before, [Open]);
      events := before + [Open];
    }
  }

  /**
   * With failed address sends the test is not sound: for any MuxCon there is a run in which a
   * connection waits, no session has a slot for it or will have one, and no session was ever asked
   * for. It takes one session, or two when MuxCon is one.
   */
  lemma DemandUnsoundAfterFailures(c: Config) returns (events: seq<Event>)
    requires 1 <= c.muxCon < 0x8000_0000 && c.channelSize > 0
    ensures Run(c, INIT, events)
    ensures var s := After(c, INIT, events);
      && s.queue == [0] && s.requests == 0 && s.pending == 0 && s.testing == 0 && !WantsSession(c, s)
      && AllKept(c, s.sessions) && FreeSlots(c, s.sessions) == 0
  {
    hide Run, After, FreeSlots;
    var full := LeakySession(c.muxCon);
    if c.muxCon > 1 {
      events := OneLeaks(c);
      NothingFree(c, [full]);
    } else {
      events := TwoLeak(c);
      NothingFree(c, [full, full]);
    }
  }

  lemma OneLeaks(c: Config) returns (events: seq<Event>)
    requires 2 <= c.muxCon < 0x8000_0000 && c.channelSize > 0
    ensures Run(c, INIT, events) && After(c, INIT, events) == LeakyState([LeakySession(c.muxCon)])
  {
    hide Run, After;
    var ws := [LeakySession(0)];
    var opens := OneWaits(c, ws);
    var leaks := LeakMany(c, ws, 0, c.muxCon);
    RunConcat(c, INIT, opens, leaks);
    events := opens + leaks;
    assert ws[0 := LeakySession(c.muxCon)] == [LeakySession(c.muxCon)];
  }

  lemma TwoLeak(c: Config) returns (events: seq<Event>)
    requires c.muxCon == 1 && c.channelSize > 0
    ensures Run(c, INIT, events) && After(c, INIT, events) == LeakyState([LeakySession(1), LeakySession(1)])
  {
    hide Run, After;
    var ws, half := [LeakySession(0), LeakySession(0)], [LeakySession(1), LeakySession(0)];
    assert ws[0 := LeakySession(1)] == half && half[1 := LeakySession(1)] == [LeakySession(1), LeakySession(1)];
    var opens := OneWaits(c, ws);
    var first := LeakMany(c, ws, 0, 1);
    var second := LeakMany(c, half, 1, 1);
    RunConcat(c, LeakyState(ws), first, second);
    RunConcat(c, INIT, opens, first + second);
    events := opens + (first + second);
  }

  lemma {:induction false} NothingFree(c: Config, ws: seq<Session>)
    requires forall i :: 0 <= i < |ws| ==> ws[i] == LeakySession(c.muxCon)
    ensures AllKept(c, ws) && FreeSlots(c, ws) == 0
  {
    if ws != [] {
      NothingFree(c, ws[..|ws| - 1]);
    }
  }

  /** And such a session is lost: once MuxCon tokens have leaked it never does anything again. */
  lemma {:induction false} LeakedSessionIsStuck(c: Config, s: State, events: seq<Event>, i: nat)
    requires Inv(c, s) && Run(c, s, events) && i < |s.sessions|
    requires Live(s.sessions[i]) && s.sessions[i].leaked == c.muxCon
    ensures var t := After(c, s, events); i < |t.sessions| && t.sessions[i] == s.sessions[i]
    decreases |events|
  {
    if events != [] {
      var e := events[0];
      var next := Step(c, s, e);
      InvKept(c, s, e);
      assert SlotsKept(c, s.sessions[i]);
      assert i < |next.sessions| && next.sessions[i] == s.sessions[i];
      LeakedSessionIsStuck(c, next, events[1..], i);
    }
  }

  // ---- How many sessions are asked for ---------------------------------

  /** The events of a run that send one token to the request channel, which has room for it. */
  function Asked(c: Config, s: State, events: seq<Event>): nat
    requires Run(c, s, events)
    decreases |events|
  {
    if events == [] then 0
    else
      var asks :=
        && s.requests < c.channelSize
        && (events[0] == Test ==> s.streamCounter >= Wrap32(s.sessionCounter * c.muxCon))
        && (events[0] == Test || (events[0].Worker? && events[0].move == Ask));
      (if asks then 1 else 0) + Asked(c, Step(c, s, events[0]), events[1..])
  }

  function ServedRequests(events: seq<Event>): nat {
    if events == [] then 0 else (if events[0] == Serve then 1 else 0) + ServedRequests(events[1..])
  }

  /**
   * Every request comes from one test that found the sessions too few, or from one failed worker:
   * on every run the requests there are and the ones passed on to the client are exactly those.
   */
  lemma {:induction false} RequestsCounted(c: Config, s: State, events: seq<Event>)
    requires Run(c, s, events)
    ensures After(c, s, events).requests + ServedRequests(events) == s.requests + Asked(c, s, events)
    decreases |events|
  {
    if events != [] {
      StepRequests(c, s, events[0]);
      RequestsCounted(c, Step(c, s, events[0]), events[1..]);
    }
  }

  lemma StepRequests(c: Config, s: State, e: Event)
    requires Enabled(c, s, e)
    ensures Step(c, s, e).requests + ServedRequests([e]) == s.requests + Asked(c, s, [e])
  {
    hide Wrap32;
    assert [e][1..] == [];
  }
}
