/**
 * The stall of a full channel. A worker whose stream cannot be opened, or whose address cannot be
 * sent, sends its connection back: on a full channel it blocks there, before it has asked for
 * another session, and with all its slots lost it never takes a connection again. When all workers
 * are blocked or out like that, nobody is left to ask.
 */
module MuxStall {
  import opened MuxScheduler
  import opened MuxDemand

  /** All its slots were lost to failed address sends. */
  predicate LeakedOut(c: Config, w: Session) {
    w.phase.Acquiring? && w.slots >= c.muxCon && w.streams == [] && w.releasing == 0
  }

  predicate BlockedOrGone(c: Config, w: Session) { w.phase.Requeueing? || w.phase.Stopped? || LeakedOut(c, w) }

  /** The channel is full, no enqueuer is at work, and every worker is blocked on the channel, out or gone. */
  ghost predicate Stalled(c: Config, s: State) {
    && |s.queue| == c.channelSize && s.pending == 0 && s.testing == 0
    && forall i :: 0 <= i < |s.sessions| ==> BlockedOrGone(c, s.sessions[i])
  }

  /** The same but for one worker. */
  ghost predicate LastWorker(c: Config, s: State, i: nat) {
    && |s.queue| == c.channelSize && s.pending == 0 && s.testing == 0
    && forall k :: 0 <= k < |s.sessions| && k != i ==> BlockedOrGone(c, s.sessions[k])
  }

  predicate NoOpen(events: seq<Event>) { forall i :: 0 <= i < |events| ==> !events[i].Open? }

  lemma StalledStep(c: Config, s: State, e: Event)
    requires Stalled(c, s) && Enabled(c, s, e) && !e.Open?
    ensures Stalled(c, Step(c, s, e)) && Step(c, s, e).queue == s.queue && Step(c, s, e).requests <= s.requests
  {
  }

  /**
   * Without a new session a stall is permanent: the channel stays as it is, every further
   * connection is refused, and nobody ever asks for a session.
   */
  lemma {:induction false} StallIsPermanent(c: Config, s: State, events: seq<Event>)
    requires Stalled(c, s) && Run(c, s, events) && NoOpen(events)
    ensures var t := After(c, s, events);
      Stalled(c, t) && t.queue == s.queue && t.requests <= s.requests && !Enabled(c, t, Send)
    decreases |events|
  {
    hide Step;
    if events != [] {
      StalledStep(c, s, events[0]);
      assert forall i :: 0 <= i < |events[1..]| ==> events[1..][i] == events[i + 1];
      StallIsPermanent(c, Step(c, s, events[0]), events[1..]);
    }
  }

  // ---- When it happens with nobody ever asked --------------------------

  /** A step that asks for no session. */
  predicate QuietStep(c: Config, s: State, e: Event) {
    (e.Test? ==> !WantsSession(c, s)) && !(e.Worker? && e.move.Ask?)
  }

  /** A run on which no session was ever asked for. */
  predicate QuietRun(c: Config, s: State, events: seq<Event>)
    decreases |events|
  {
    events == []
    || (Enabled(c, s, events[0]) && QuietStep(c, s, events[0]) && QuietRun(c, Step(c, s, events[0]), events[1..]))
  }

  lemma {:induction false} QuietRunIsRun(c: Config, s: State, events: seq<Event>)
    requires QuietRun(c, s, events)
    ensures Run(c, s, events)
    decreases |events|
  {
    hide Enabled, Step, QuietStep;
    if events != [] {
      QuietRunIsRun(c, Step(c, s, events[0]), events[1..]);
    }
  }

  /**
   * No worker is gone, and enqueues that were tested found fewer streams than all the sessions
   * there have been can carry.
   */
  ghost predicate QuietInv(c: Config, s: State) {
    && Inv(c, s)
    && (forall i :: 0 <= i < |s.sessions| ==> !s.sessions[i].phase.Stopped?)
    && (s.streamCounter <= s.testing || s.streamCounter - s.testing < |s.sessions| * c.muxCon)
  }

  lemma Scales(a: nat, b: nat, m: nat)
    requires a <= b
    ensures 0 <= a * m <= b * m
  {
  }

  lemma {:induction false} LiveAtMost(ws: seq<Session>)
    ensures LiveCount(ws) <= |ws|
  {
    if ws != [] {
      LiveAtMost(ws[..|ws| - 1]);
    }
  }

  /** How many workers are blocked sending a connection back. */
  function Blocked(ws: seq<Session>): nat {
    if ws == [] then 0 else Blocked(ws[..|ws| - 1]) + One(ws[|ws| - 1].phase.Requeueing?)
  }

  lemma {:induction false} LoadsAtLeast(ws: seq<Session>)
    ensures Loads(ws) >= Blocked(ws)
  {
    if ws != [] {
      LoadsAtLeast(ws[..|ws| - 1]);
    }
  }

  lemma QuietTest(c: Config, s: State)
    requires Inv(c, s) && !WantsSession(c, s)
    ensures s.streamCounter < |s.sessions| * c.muxCon
  {
    LiveAtMost(s.sessions);
    Scales(LiveCount(s.sessions), |s.sessions|, c.muxCon);
    WrapOnlyLowers(s.sessionCounter * c.muxCon);
  }

  lemma QuietStepCounts(c: Config, s: State, e: Event)
    requires Enabled(c, s, e) && QuietStep(c, s, e)
    ensures var t := Step(c, s, e);
      && |t.sessions| >= |s.sessions|
      && (e.Test? ==> t.streamCounter == s.streamCounter && t.sessions == s.sessions)
      && (!e.Test? ==> t.streamCounter - t.testing <= s.streamCounter - s.testing)
    ensures (forall i :: 0 <= i < |s.sessions| ==> !s.sessions[i].phase.Stopped?) ==>
      forall i :: 0 <= i < |Step(c, s, e).sessions| ==> !Step(c, s, e).sessions[i].phase.Stopped?
  {
  }

  lemma QuietInvKept(c: Config, s: State, e: Event)
    requires QuietInv(c, s) && Enabled(c, s, e) && QuietStep(c, s, e)
    ensures QuietInv(c, Step(c, s, e))
  {
    hide Inv, Step, Enabled, WantsSession;
    InvKept(c, s, e);
    QuietStepCounts(c, s, e);
    Scales(|s.sessions|, |Step(c, s, e).sessions|, c.muxCon);
    if e.Test? {
      QuietTest(c, s);
      TestUncounts(c, s);
    }
  }

  lemma TestUncounts(c: Config, s: State)
    requires Enabled(c, s, Test)
    ensures Step(c, s, Test).testing == s.testing - 1
  {
  }

  lemma {:induction false} QuietInvAlways(c: Config, s: State, events: seq<Event>)
    requires QuietInv(c, s) && QuietRun(c, s, events) && Run(c, s, events)
    ensures QuietInv(c, After(c, s, events))
    decreases |events|
  {
    hide QuietInv, QuietStep, Enabled, Step;
    if events != [] {
      QuietInvKept(c, s, events[0]);
      QuietInvAlways(c, Step(c, s, events[0]), events[1..]);
    }
  }

  /** Where nobody ever asked, a stall means that the sessions can carry more than it holds. */
  lemma StallNeedsRoom(c: Config, events: seq<Event>)
    requires QuietRun(c, INIT, events) && Run(c, INIT, events)
    requires Stalled(c, After(c, INIT, events)) && c.channelSize > 0
    ensures var ws := After(c, INIT, events).sessions; c.channelSize + Blocked(ws) < |ws| * c.muxCon
  {
    hide QuietRun, Run, After;
    InvInit(c);
    assert INIT.sessions == [];
    QuietInvAlways(c, INIT, events);
    LoadsAtLeast(After(c, INIT, events).sessions);
  }

  // ---- And it does happen whenever they can -----------------------------

  lemma {:induction false} QuietConcat(c: Config, s: State, a: seq<Event>, t: State, b: seq<Event>)
    requires QuietLeads(c, s, a, t) && QuietRun(c, t, b)
    ensures QuietRun(c, s, a + b) && (Run(c, t, b) ==> Run(c, s, a + b) && After(c, s, a + b) == After(c, t, b))
    decreases |a|
  {
    hide Enabled, Step, QuietStep;
    if a == [] {
      assert a + b == b;
    } else {
      assert (a + b)[1..] == a[1..] + b;
      QuietConcat(c, Step(c, s, a[0]), a[1..], t, b);
    }
  }

  ghost predicate QuietLeads(c: Config, s: State, events: seq<Event>, t: State) {
    QuietRun(c, s, events) && Run(c, s, events) && After(c, s, events) == t
  }

  lemma LeadsTo(c: Config, s: State, a: seq<Event>, t: State, b: seq<Event>, u: State)
    requires QuietLeads(c, s, a, t) && QuietLeads(c, t, b, u)
    ensures QuietLeads(c, s, a + b, u)
  {
    QuietConcat(c, s, a, t, b);
  }

  lemma LeadsOne(c: Config, s: State, e: Event, t: State)
    requires Enabled(c, s, e) && QuietStep(c, s, e) && Step(c, s, e) == t
    ensures QuietLeads(c, s, [e], t)
  {
    assert [e][1..] == [];
  }

  lemma LeadsNone(c: Config, s: State)
    ensures QuietLeads(c, s, [], s)
  {
  }

  /** All n connections counted, none of them over, no session ever asked for. */
  function Busy(ws: seq<Session>, queue: seq<nat>, n: nat, live: nat): State {
    State(queue, n, 0, 0, n, live, 0, ws, [])
  }

  const IDLE := Session(Waiting, 1, [], 0, 0)

  function Has(i: nat): Session { Session(Holding(i), 1, [], 0, 0) }

  function Stuck(i: nat): Session { Session(Requeueing(i, true), 1, [], 0, 0) }

  function Fresh(n: nat): seq<Session> { seq(n, _ => LeakySession(0)) }

  /** The first i of n sessions have acquired a slot; then have taken connections; then have failed. */
  function Acquired(n: nat, i: nat): seq<Session> {
    seq(n, k requires 0 <= k < n => if k < i then IDLE else LeakySession(0))
  }

  function Served(n: nat, i: nat): seq<Session> { seq(n, k requires 0 <= k < n => if k < i then Has(k) else IDLE) }

  function Failed(n: nat, i: nat): seq<Session> { seq(n, k requires 0 <= k < n => if k < i then Stuck(k) else Has(k)) }

  function From(n: nat, j: nat): seq<nat> { seq(j, k requires 0 <= k < j => n + k) }

  /** Sessions that have lost all their slots. */
  function Out(c: Config, m: nat): seq<Session> { seq(m, _ => LeakySession(c.muxCon)) }

  lemma {:induction false} OnlyLeaksQuiet(c: Config, s: State, events: seq<Event>, t: State)
    requires OnlyLeaks(events) && Run(c, s, events) && After(c, s, events) == t
    ensures QuietLeads(c, s, events, t)
    decreases |events|
  {
    hide Enabled, Step;
    if events != [] {
      assert forall i :: 0 <= i < |events[1..]| ==> events[1..][i] == events[i + 1];
      OnlyLeaksQuiet(c, Step(c, s, events[0]), events[1..], t);
    }
  }

  lemma {:induction false} Opened(c: Config, b: nat) returns (events: seq<Event>)
    ensures QuietLeads(c, INIT, events, Busy(Fresh(b), [], 0, b))
  {
    hide QuietLeads;
    if b == 0 {
      events := [];
      LeadsNone(c, INIT);
      assert Fresh(0) == [];
    } else {
      var before := Opened(c, b - 1);
      var s, t := Busy(Fresh(b - 1), [], 0, b - 1), Busy(Fresh(b), [], 0, b);
      assert Fresh(b - 1) + [LeakySession(0)] == Fresh(b);
      LeadsOne(c, s, Open, t);
      LeadsTo(c, INIT, before, s, [Open], t);
      events := before + [Open];
    }
  }

  /** The last m of b sessions lose all their slots to one connection that never gets through. */
  lemma {:induction false} LostAll(c: Config, b: nat, m: nat) returns (events: seq<Event>)
    requires m <= b && c.channelSize > 0
    ensures QuietLeads(c, LeakyState(Fresh(b)), events, LeakyState(Fresh(b - m) + Out(c, m)))
    decreases m
  {
    hide QuietLeads;
    var start := LeakyState(Fresh(b));
    if m == 0 {
      events := [];
      LeadsNone(c, start);
      assert Fresh(b) + Out(c, 0) == Fresh(b);
    } else {
      var before := LostAll(c, b, m - 1);
      var ws, i := Fresh(b - m + 1) + Out(c, m - 1), b - m;
      var more := LeakMany(c, ws, i, c.muxCon);
      assert ws[i := LeakySession(c.muxCon)] == Fresh(b - m) + Out(c, m);
      OnlyLeaksQuiet(c, LeakyState(ws), more, LeakyState(ws[i := LeakySession(c.muxCon)]));
      LeadsTo(c, start, before, LeakyState(ws), more, LeakyState(Fresh(b - m) + Out(c, m)));
      events := before + more;
    }
  }

  /** The first n of the sessions acquire a slot each. */
  lemma {:induction false} AllAcquire(c: Config, n: nat, i: nat, out: seq<Session>, live: nat)
      returns (events: seq<Event>)
    requires i <= n && c.muxCon > 0
    ensures QuietLeads(c, Busy(Fresh(n) + out, [0], 1, live), events, Busy(Acquired(n, i) + out, [0], 1, live))
    decreases i
  {
    hide QuietLeads;
    var start := Busy(Fresh(n) + out, [0], 1, live);
    if i == 0 {
      events := [];
      LeadsNone(c, start);
      assert Acquired(n, 0) == Fresh(n);
    } else {
      var before := AllAcquire(c, n, i - 1, out, live);
      var s, t := Busy(Acquired(n, i - 1) + out, [0], 1, live), Busy(Acquired(n, i) + out, [0], 1, live);
      assert s.sessions[i - 1 := IDLE] == t.sessions;
      LeadsOne(c, s, Worker(i - 1, Acquire), t);
      LeadsTo(c, start, before, s, [Worker(i - 1, Acquire)], t);
      events := before + [Worker(i - 1, Acquire)];
    }
  }

  /** A connection comes in and the test does not ask. */
  lemma CameIn(c: Config, ws: seq<Session>, q: seq<nat>, n: nat, live: nat) returns (events: seq<Event>)
    requires |q| < c.channelSize && n + 1 < live * c.muxCon < 0x8000_0000
    ensures QuietLeads(c, Busy(ws, q, n, live), events, Busy(ws, q + [n], n + 1, live))
  {
    hide QuietLeads;
    var s, u := Busy(ws, q, n, live), Busy(ws, q + [n], n + 1, live);
    var s1 := s.(queue := q + [n], accepted := n + 1, pending := 1);
    var s2 := s1.(pending := 0, testing := 1, streamCounter := n + 1);
    WrapOfSmall(live, c.muxCon);
    LeadsOne(c, s, Send, s1);
    LeadsOne(c, s1, Count, s2);
    LeadsOne(c, s2, Test, u);
    LeadsTo(c, s1, [Count], s2, [Test], u);
    LeadsTo(c, s, [Send], s1, [Count] + [Test], u);
    events := [Send] + ([Count] + [Test]);
  }

  /** The next session takes the connection that waits. */
  lemma TakesIt(c: Config, n: nat, i: nat, out: seq<Session>, live: nat)
    requires i < n
    ensures QuietLeads(c, Busy(Served(n, i) + out, [i], i + 1, live), [Worker(i, Take)],
                       Busy(Served(n, i + 1) + out, [], i + 1, live))
  {
    hide QuietLeads;
    var s := Busy(Served(n, i) + out, [i], i + 1, live);
    assert s.sessions[i := Has(i)] == Served(n, i + 1) + out;
    assert s.queue[1..] == [];
    LeadsOne(c, s, Worker(i, Take), Busy(Served(n, i + 1) + out, [], i + 1, live));
  }

  /** Each of the first i sessions takes a connection, the first one the one that waits. */
  lemma {:induction false} TakenIn(c: Config, n: nat, i: nat, out: seq<Session>, live: nat) returns (events: seq<Event>)
    requires 0 < i <= n && n < live * c.muxCon < 0x8000_0000 && c.channelSize > 0
    ensures QuietLeads(c, Busy(Served(n, 0) + out, [0], 1, live), events, Busy(Served(n, i) + out, [], i, live))
    decreases i
  {
    hide QuietLeads;
    var start, u := Busy(Served(n, 0) + out, [0], 1, live), Busy(Served(n, i) + out, [], i, live);
    TakesIt(c, n, i - 1, out, live);
    if i == 1 {
      events := [Worker(0, Take)];
    } else {
      var before := TakenIn(c, n, i - 1, out, live);
      var s, t := Busy(Served(n, i - 1) + out, [], i - 1, live), Busy(Served(n, i - 1) + out, [i - 1], i, live);
      var more := CameIn(c, s.sessions, [], i - 1, live);
      assert [] + [i - 1] == [i - 1];
      LeadsTo(c, s, more, t, [Worker(i - 1, Take)], u);
      LeadsTo(c, start, before, s, more + [Worker(i - 1, Take)], u);
      events := before + (more + [Worker(i - 1, Take)]);
    }
  }

  /** More connections come in until j of them wait. */
  lemma {:induction false} QueuedUp(c: Config, ws: seq<Session>, n: nat, j0: nat, j: nat, live: nat)
      returns (events: seq<Event>)
    requires j0 <= j <= c.channelSize && n + j < live * c.muxCon < 0x8000_0000
    ensures QuietLeads(c, Busy(ws, From(n, j0), n + j0, live), events, Busy(ws, From(n, j), n + j, live))
    decreases j
  {
    hide QuietLeads;
    var start := Busy(ws, From(n, j0), n + j0, live);
    if j == j0 {
      events := [];
      LeadsNone(c, start);
    } else {
      var before := QueuedUp(c, ws, n, j0, j - 1, live);
      var more := CameIn(c, ws, From(n, j - 1), n + j - 1, live);
      assert From(n, j - 1) + [n + j - 1] == From(n, j);
      LeadsTo(c, start, before, Busy(ws, From(n, j - 1), n + j - 1, live), more, Busy(ws, From(n, j), n + j, live));
      events := before + more;
    }
  }

  /** The streams of the first i sessions cannot be opened. */
  lemma {:induction false} FailedAll(c: Config, n: nat, i: nat, out: seq<Session>, q: seq<nat>, count: nat, live: nat)
      returns (events: seq<Event>)
    requires i <= n <= live
    ensures QuietLeads(c, Busy(Served(n, n) + out, q, count, live), events,
                       Busy(Failed(n, i) + out, q, count, live - i))
    decreases i
  {
    hide QuietLeads;
    var start := Busy(Served(n, n) + out, q, count, live);
    if i == 0 {
      events := [];
      LeadsNone(c, start);
      assert Failed(n, 0) == Served(n, n);
    } else {
      var before := FailedAll(c, n, i - 1, out, q, count, live);
      var s := Busy(Failed(n, i - 1) + out, q, count, live - i + 1);
      var u := Busy(Failed(n, i) + out, q, count, live - i);
      var t := s.(sessions := s.sessions[i - 1 := Session(Failing(i - 1), 1, [], 0, 0)]);
      var e, f := Worker(i - 1, OpenFails), Worker(i - 1, UncountSession);
      LeadsOne(c, s, e, t);
      assert t.sessions[i - 1 := Stuck(i - 1)] == u.sessions;
      LeadsOne(c, t, f, u);
      LeadsTo(c, s, [e], t, [f], u);
      LeadsTo(c, start, before, s, [e] + [f], u);
      events := before + ([e] + [f]);
    }
  }

  /** One connection waits, n sessions have a slot each, and all others have lost theirs. */
  lemma SetUp(c: Config, b: nat, n: nat) returns (events: seq<Event>)
    requires n <= b && 1 < b * c.muxCon < 0x8000_0000 && c.channelSize > 0
    ensures QuietLeads(c, INIT, events, Busy(Served(n, 0) + Out(c, b - n), [0], 1, b))
  {
    hide QuietLeads;
    PositiveFactor(b, c.muxCon);
    var out := Out(c, b - n);
    var s1, s2, s3 := Busy(Fresh(b), [], 0, b), Busy(Fresh(b), [0], 1, b), Busy(Fresh(n) + out, [0], 1, b);
    var s4 := Busy(Acquired(n, n) + out, [0], 1, b);
    var x := Opened(c, b);
    var y := CameIn(c, Fresh(b), [], 0, b);
    assert [] + [0] == [0];
    var z := LostAll(c, b, b - n);
    var a := AllAcquire(c, n, n, out, b);
    assert Acquired(n, n) == Served(n, 0);
    LeadsTo(c, INIT, x, s1, y, s2);
    LeadsTo(c, INIT, x + y, s2, z, s3);
    LeadsTo(c, INIT, x + y + z, s3, a, s4);
    events := x + y + z + a;
  }

  lemma {:induction false} BlockedAre(c: Config, n: nat, m: nat)
    ensures Blocked(Failed(n, n) + Out(c, m)) == n
    decreases n + m
  {
    var ws := Failed(n, n) + Out(c, m);
    if m > 0 {
      assert ws[..|ws| - 1] == Failed(n, n) + Out(c, m - 1);
      BlockedAre(c, n, m - 1);
    } else if n > 0 {
      assert ws[..|ws| - 1] == Failed(n - 1, n - 1) + Out(c, 0);
      BlockedAre(c, n - 1, 0);
    }
  }

  lemma StallHappens(c: Config, b: nat, n: nat) returns (events: seq<Event>)
    requires n <= b && c.channelSize + n < b * c.muxCon < 0x8000_0000 && c.channelSize > 0
    ensures QuietRun(c, INIT, events) && Run(c, INIT, events)
    ensures var t := After(c, INIT, events); Stalled(c, t) && |t.sessions| == b && Blocked(t.sessions) == n
  {
    hide QuietRun, Run, After;
    var size, out := c.channelSize, Out(c, b - n);
    var start := SetUp(c, b, n);
    var s1, s2 := Busy(Served(n, 0) + out, [0], 1, b), Busy(Served(n, n) + out, [], n, b);
    var s3 := Busy(Served(n, n) + out, From(n, size), n + size, b);
    var s4 := Busy(Failed(n, n) + out, From(n, size), n + size, b - n);
    if n > 0 {
      var more := TakenIn(c, n, n, out, b);
      LeadsTo(c, INIT, start, s1, more, s2);
      start := start + more;
      assert From(n, 0) == [];
    } else {
      assert Served(0, 0) == [] && From(0, 1) == [0];
    }
    var e := QueuedUp(c, Served(n, n) + out, n, if n > 0 then 0 else 1, size, b);
    LeadsTo(c, INIT, start, if n > 0 then s2 else s1, e, s3);
    var f := FailedAll(c, n, n, out, From(n, size), n + size, b);
    LeadsTo(c, INIT, start + e, s3, f, s4);
    BlockedAre(c, n, b - n);
    events := start + e + f;
  }

  lemma PositiveFactor(b: nat, m: nat)
    requires b * m > 0
    ensures m > 0
  {
  }

  /**
   * Exactly when the stall can come without any session ever having been asked for: b workers, n of
   * them blocked and the others gone out, if and only if b sessions can carry the n and a full
   * channel, and one more.
   */
  lemma StallIff(c: Config, b: nat, n: nat)
    requires c.channelSize > 0 && n <= b && b * c.muxCon < 0x8000_0000
    ensures (exists events :: StallsQuietly(c, events, b, n)) <==> c.channelSize + n < b * c.muxCon
  {
    hide QuietRun, Run, After, Stalled;
    if events :| StallsQuietly(c, events, b, n) {
      StallNeedsRoom(c, events);
    }
    if c.channelSize + n < b * c.muxCon {
      var events := StallHappens(c, b, n);
      assert StallsQuietly(c, events, b, n);
    }
  }

  ghost predicate StallsQuietly(c: Config, events: seq<Event>, b: nat, n: nat) {
    && QuietRun(c, INIT, events) && Run(c, INIT, events)
    && var t := After(c, INIT, events); Stalled(c, t) && |t.sessions| == b && Blocked(t.sessions) == n
  }
}
