/**
 * The tcpmux server's scheduler as a step machine: every atomic action of enqueueInbound,
 * handleLoop, handleSession, handleSessionError and the stream goroutines is one step, and steps
 * of different goroutines interleave freely. One generation only: no Restart, no shutdown.
 */
module MuxScheduler {

  datatype Config = Config(muxCon: nat, channelSize: nat)

  /** Where a session's worker stands in handleSession. */
  datatype Phase =
    | Acquiring                            // about to put a token into its counter channel
    | Waiting                              // has a slot, selects on the local channel
    | Holding(conn: nat)                   // took a connection
    | Expiring(conn: nat)                  // closed it as too old, still counted
    | Expired                              // no longer counted, slot still taken
    | Failing(conn: nat)                   // OpenStream failed
    | Requeueing(conn: nat, fatal: bool)   // blocked on, or about to, send it back
    | Asking                               // sent back after OpenStream failed
    | Stopped

  /**
   * `slots` is the fill of the counter channel, `streams` the connections being copied,
   * `releasing` the finished streams that have not taken their token out yet, and `leaked` the
   * tokens nobody will take out.
   */
  datatype Session = Session(phase: Phase, slots: nat, streams: seq<nat>, releasing: nat, leaked: nat)

  /**
   * Connections are numbered in the order the local channel accepted them. `pending` enqueuers
   * have sent and not yet counted, `testing` ones have counted and not yet compared.
   */
  datatype State = State(
    queue: seq<nat>, accepted: nat, pending: nat, testing: nat, streamCounter: int, sessionCounter: int,
    requests: nat, sessions: seq<Session>, closed: seq<nat>)

  const INIT := State([], 0, 0, 0, 0, 0, 0, [], [])

  datatype Move =
    | Acquire | Take | Expire | ExpireCount | ExpireRelease | OpenFails | UncountSession
    | AddressFails | Requeue | Ask | Start | Finish(k: nat) | Release

  datatype Event = Send | Count | Test | Serve | Open | Worker(i: nat, move: Move)

  /** The value of int32 arithmetic: the low 32 bits, signed. */
  function Wrap32(n: int): (r: int)
    ensures -0x8000_0000 <= r < 0x8000_0000 && (n - r) % 0x1_0000_0000 == 0
  {
    var m := n % 0x1_0000_0000;
    if m < 0x8000_0000 then m else m - 0x1_0000_0000
  }

  /** The test of enqueueInbound: are there at least as many streams as the sessions can carry? */
  predicate WantsSession(c: Config, s: State) {
    s.streamCounter >= Wrap32(s.sessionCounter * c.muxCon)
  }

  function Request(c: Config, requests: nat): nat { if requests < c.channelSize then requests + 1 else requests }

  predicate MoveEnabled(c: Config, s: State, w: Session, m: Move) {
    match m
    case Acquire => w.phase.Acquiring? && w.slots < c.muxCon
    case Take => w.phase.Waiting? && s.queue != []
    case Expire => w.phase.Holding?
    case ExpireCount => w.phase.Expiring?
    case ExpireRelease => w.phase.Expired? && w.slots > 0
    case OpenFails => w.phase.Holding?
    case UncountSession => w.phase.Failing?
    case AddressFails => w.phase.Holding?
    case Requeue => w.phase.Requeueing? && |s.queue| < c.channelSize
    case Ask => w.phase.Asking?
    case Start => w.phase.Holding?
    case Finish(k) => k < |w.streams|
    case Release => w.releasing > 0 && w.slots > 0
  }

  predicate Enabled(c: Config, s: State, e: Event) {
    match e
    case Send => |s.queue| < c.channelSize
    case Count => s.pending > 0
    case Test => s.testing > 0
    case Serve => s.requests > 0
    case Open => true
    case Worker(i, m) => i < |s.sessions| && MoveEnabled(c, s, s.sessions[i], m)
  }

  function Moved(c: Config, s: State, i: nat, m: Move): State
    requires i < |s.sessions| && MoveEnabled(c, s, s.sessions[i], m)
  {
    var w := s.sessions[i];
    match m
    case Acquire => Put(s, i, w.(slots := w.slots + 1, phase := Waiting))
    case Take => Put(s, i, w.(phase := Holding(s.queue[0]))).(queue := s.queue[1..])
    case Expire => Put(s, i, w.(phase := Expiring(w.phase.conn)))
    case ExpireCount => Uncount(Put(s, i, w.(phase := Expired)), w.phase.conn)
    case ExpireRelease => Put(s, i, w.(slots := w.slots - 1, phase := Acquiring))
    case OpenFails => Put(s, i, w.(phase := Failing(w.phase.conn)))
    case UncountSession =>
      Put(s, i, w.(phase := Requeueing(w.phase.conn, true))).(sessionCounter := s.sessionCounter - 1)
    case AddressFails => Put(s, i, w.(phase := Requeueing(w.phase.conn, false)))
    case Requeue =>
      Put(s, i, if w.phase.fatal then w.(phase := Asking) else w.(phase := Acquiring, leaked := w.leaked + 1))
        .(queue := s.queue + [w.phase.conn])
    case Ask => Put(s, i, w.(phase := Stopped)).(requests := Request(c, s.requests))
    case Start => Put(s, i, w.(streams := w.streams + [w.phase.conn], phase := Acquiring))
    case Finish(k) =>
      Uncount(Put(s, i, w.(streams := w.streams[..k] + w.streams[k + 1..], releasing := w.releasing + 1)), w.streams[k])
    case Release => Put(s, i, w.(releasing := w.releasing - 1, slots := w.slots - 1))
  }

  function Put(s: State, i: nat, w: Session): State
    requires i < |s.sessions|
  {
    s.(sessions := s.sessions[i := w])
  }

  /** A connection is closed and AddInt32(&streamCounter, -1) done. */
  function Uncount(s: State, conn: nat): State {
    s.(streamCounter := s.streamCounter - 1, closed := s.closed + [conn])
  }

  function Step(c: Config, s: State, e: Event): State
    requires Enabled(c, s, e)
  {
    match e
    case Send => s.(queue := s.queue + [s.accepted], accepted := s.accepted + 1, pending := s.pending + 1)
    case Count => s.(pending := s.pending - 1, testing := s.testing + 1, streamCounter := s.streamCounter + 1)
    case Test =>
      s.(testing := s.testing - 1, requests := if WantsSession(c, s) then Request(c, s.requests) else s.requests)
    case Serve => s.(requests := s.requests - 1)
    case Open =>
      s.(sessions := s.sessions + [Session(Acquiring, 0, [], 0, 0)], sessionCounter := s.sessionCounter + 1)
    case Worker(i, m) => Moved(c, s, i, m)
  }

  predicate Run(c: Config, s: State, events: seq<Event>)
    decreases |events|
  {
    events == [] || (Enabled(c, s, events[0]) && Run(c, Step(c, s, events[0]), events[1..]))
  }

  function After(c: Config, s: State, events: seq<Event>): State
    requires Run(c, s, events)
    decreases |events|
  {
    if events == [] then s else After(c, Step(c, s, events[0]), events[1..])
  }

  // ---- Where the connections are ---------------------------------------

  function Held(p: Phase): seq<nat> {
    match p
    case Holding(c) => [c]
    case Expiring(c) => [c]
    case Failing(c) => [c]
    case Requeueing(c, _) => [c]
    case _ => []
  }

  /** How often x occurs. */
  function Count(q: seq<nat>, x: nat): nat {
    if q == [] then 0 else Count(q[..|q| - 1], x) + One(q[|q| - 1] == x)
  }

  function One(b: bool): nat { if b then 1 else 0 }

  function InSession(w: Session, x: nat): nat { Count(Held(w.phase), x) + Count(w.streams, x) }

  function Load(w: Session): nat { |Held(w.phase)| + |w.streams| }

  /** How often x is held by a worker or on a stream, over all sessions. */
  function InSessions(ws: seq<Session>, x: nat): nat {
    if ws == [] then 0 else InSessions(ws[..|ws| - 1], x) + InSession(ws[|ws| - 1], x)
  }

  /** How many connections the sessions have. */
  function Loads(ws: seq<Session>): nat {
    if ws == [] then 0 else Loads(ws[..|ws| - 1]) + Load(ws[|ws| - 1])
  }

  /** The worker counts as a session from the increment in handleLoop to the decrement in handleSessionError. */
  predicate Live(w: Session) {
    !(w.phase.Requeueing? && w.phase.fatal) && !w.phase.Asking? && !w.phase.Stopped?
  }

  function LiveCount(ws: seq<Session>): nat {
    if ws == [] then 0 else LiveCount(ws[..|ws| - 1]) + One(Live(ws[|ws| - 1]))
  }

  /** The tokens in a session's counter channel, and whom they belong to. */
  predicate SlotsKept(c: Config, w: Session) {
    && w.slots == |w.streams| + w.releasing + w.leaked + One(!w.phase.Acquiring?)
    && w.slots <= c.muxCon
  }

  /** Connection x is in one place if it was accepted and nowhere otherwise. */
  predicate Placed(s: State, x: nat) {
    Count(s.queue, x) + InSessions(s.sessions, x) + Count(s.closed, x) == One(x < s.accepted)
  }

  predicate Counted(c: Config, s: State) {
    && s.streamCounter + s.pending == |s.queue| + Loads(s.sessions)
    && s.sessionCounter == LiveCount(s.sessions)
    && |s.queue| <= c.channelSize
  }

  ghost predicate Inv(c: Config, s: State) {
    && (forall x :: Placed(s, x))
    && (forall i :: 0 <= i < |s.sessions| ==> SlotsKept(c, s.sessions[i]))
    && Counted(c, s)
  }

  // ---- One step --------------------------------------------------------

  lemma {:induction false} CountConcat(a: seq<nat>, b: seq<nat>, x: nat)
    ensures Count(a + b, x) == Count(a, x) + Count(b, x)
  {
    if b == [] {
      assert a + b == a;
    } else {
      assert (a + b)[..|a + b| - 1] == a + b[..|b| - 1];
      CountConcat(a, b[..|b| - 1], x);
    }
  }

  lemma CountNone(x: nat)
    ensures Count([], x) == 0
  {
  }

  lemma CountOne(y: nat, x: nat)
    ensures Count([y], x) == One(y == x)
  {
    assert [y][..0] == [];
  }

  lemma CountAdd(a: seq<nat>, y: nat, x: nat)
    ensures Count(a + [y], x) == Count(a, x) + One(y == x)
  {
    assert (a + [y])[..|a|] == a;
  }

  lemma CountRemove(a: seq<nat>, k: nat, x: nat)
    requires k < |a|
    ensures Count(a, x) == Count(a[..k] + a[k + 1..], x) + One(a[k] == x)
  {
    assert a == (a[..k] + [a[k]]) + a[k + 1..];
    CountConcat(a[..k] + [a[k]], a[k + 1..], x);
    CountAdd(a[..k], a[k], x);
    CountConcat(a[..k], a[k + 1..], x);
  }

  lemma {:induction false} UpdateSums(ws: seq<Session>, i: nat, w: Session, x: nat)
    requires i < |ws|
    ensures InSessions(ws[i := w], x) + InSession(ws[i], x) == InSessions(ws, x) + InSession(w, x)
    ensures Loads(ws[i := w]) + Load(ws[i]) == Loads(ws) + Load(w)
    ensures LiveCount(ws[i := w]) + One(Live(ws[i])) == LiveCount(ws) + One(Live(w))
  {
    hide InSession, Load, Live, One;
    var n := |ws| - 1;
    if i < n {
      UpdateSums(ws[..n], i, w, x);
      assert ws[i := w][..n] == ws[..n][i := w];
    } else {
      assert ws[i := w][..n] == ws[..n];
    }
  }

  /** The connection a move takes off the queue or out of its worker, if it does. */
  lemma MovePlaces(c: Config, s: State, i: nat, m: Move, x: nat)
    requires i < |s.sessions| && MoveEnabled(c, s, s.sessions[i], m)
    ensures var s' := Moved(c, s, i, m);
      Count(s'.queue, x) + InSession(s'.sessions[i], x) + Count(s'.closed, x)
        == Count(s.queue, x) + InSession(s.sessions[i], x) + Count(s.closed, x)
  {
    hide Count;
    var w := s.sessions[i];
    CountNone(x);
    match m {
      case Take =>
        CountOne(s.queue[0], x);
        assert s.queue == [s.queue[0]] + s.queue[1..];
        CountConcat([s.queue[0]], s.queue[1..], x);
      case ExpireCount =>
        CountOne(w.phase.conn, x);
        CountAdd(s.closed, w.phase.conn, x);
      case Requeue =>
        CountOne(w.phase.conn, x);
        CountAdd(s.queue, w.phase.conn, x);
      case Start =>
        CountOne(w.phase.conn, x);
        CountAdd(w.streams, w.phase.conn, x);
      case Finish(k) =>
        CountRemove(w.streams, k, x);
        CountAdd(s.closed, w.streams[k], x);
      case _ =>
    }
  }

  lemma MoveCounts(c: Config, s: State, i: nat, m: Move)
    requires i < |s.sessions| && MoveEnabled(c, s, s.sessions[i], m) && SlotsKept(c, s.sessions[i])
    ensures var s', w := Moved(c, s, i, m), s.sessions[i];
      && |s'.sessions| == |s.sessions| && s'.sessions == s.sessions[i := s'.sessions[i]]
      && SlotsKept(c, s'.sessions[i])
      && s'.streamCounter + |s.queue| + Load(w) == s.streamCounter + |s'.queue| + Load(s'.sessions[i])
      && s'.sessionCounter + One(Live(w)) == s.sessionCounter + One(Live(s'.sessions[i]))
      && s'.accepted == s.accepted && s'.pending == s.pending
      && (|s.queue| <= c.channelSize ==> |s'.queue| <= c.channelSize)
  {
  }

  /** A move carries connections between the queue, its worker and the closed ones, and loses none. */
  lemma MoveKeepsInv(c: Config, s: State, i: nat, m: Move)
    requires Inv(c, s) && i < |s.sessions| && MoveEnabled(c, s, s.sessions[i], m)
    ensures Inv(c, Moved(c, s, i, m))
  {
    hide Moved, InSession, Load, Live, Count, SlotsKept, MoveEnabled, One;
    MoveCounts(c, s, i, m);
    var s' := Moved(c, s, i, m);
    forall x ensures Placed(s', x) {
      assert Placed(s, x);
      MovePlaces(c, s, i, m, x);
      UpdateSums(s.sessions, i, s'.sessions[i], x);
    }
    UpdateSums(s.sessions, i, s'.sessions[i], 0);
  }

  lemma OpenKeepsInv(c: Config, s: State)
    requires Inv(c, s)
    ensures Inv(c, Step(c, s, Open))
  {
    hide MoveEnabled;
    var s', w := Step(c, s, Open), Session(Acquiring, 0, [], 0, 0);
    assert s'.sessions[..|s.sessions|] == s.sessions;
    forall x ensures Placed(s', x) {
      assert Placed(s, x);
      assert InSession(w, x) == 0;
    }
  }

  lemma SendKeepsInv(c: Config, s: State)
    requires Inv(c, s) && Enabled(c, s, Send)
    ensures Inv(c, Step(c, s, Send))
  {
    hide InSessions, Count, SlotsKept;
    var s' := Step(c, s, Send);
    forall x ensures Placed(s', x) {
      assert Placed(s, x);
      CountAdd(s.queue, s.accepted, x);
    }
  }

  lemma InvKept(c: Config, s: State, e: Event)
    requires Inv(c, s) && Enabled(c, s, e)
    ensures Inv(c, Step(c, s, e))
  {
    hide Moved, InSessions, Loads, LiveCount, SlotsKept, MoveEnabled, Count;
    match e {
      case Send => SendKeepsInv(c, s);
      case Open => OpenKeepsInv(c, s);
      case Worker(i, m) => MoveKeepsInv(c, s, i, m);
      case _ =>
        var s' := Step(c, s, e);
        forall x ensures Placed(s', x) {
          assert Placed(s, x);
        }
    }
  }

  // ---- Every run -------------------------------------------------------

  lemma InvInit(c: Config)
    ensures Inv(c, INIT)
  {
  }

  lemma {:induction false} InvAlways(c: Config, s: State, events: seq<Event>)
    requires Inv(c, s) && Run(c, s, events)
    ensures Inv(c, After(c, s, events))
    decreases |events|
  {
    hide Inv, Step, Enabled;
    if events != [] {
      InvKept(c, s, events[0]);
      InvAlways(c, Step(c, s, events[0]), events[1..]);
    }
  }

  /**
   * Conservation: at every moment each accepted connection is in exactly one place - queued, held
   * by one worker, on one stream, or closed - and the two counters agree with the places.
   */
  lemma ConnectionsConserved(c: Config, events: seq<Event>, x: nat)
    requires Run(c, INIT, events)
    ensures var s := After(c, INIT, events);
      && Count(s.queue, x) + InSessions(s.sessions, x) + Count(s.closed, x) == (if x < s.accepted then 1 else 0)
      && s.streamCounter + s.pending == |s.queue| + Loads(s.sessions)
      && s.sessionCounter == LiveCount(s.sessions)
  {
    InvInit(c);
    InvAlways(c, INIT, events);
    assert Placed(After(c, INIT, events), x);
  }

  /** No session ever carries more streams than MuxCon. */
  lemma StreamsBounded(c: Config, events: seq<Event>, i: nat)
    requires Run(c, INIT, events) && i < |After(c, INIT, events).sessions|
    ensures |After(c, INIT, events).sessions[i].streams| <= c.muxCon
  {
    InvInit(c);
    InvAlways(c, INIT, events);
  }
}
