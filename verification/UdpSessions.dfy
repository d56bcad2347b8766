/**
 * The UDP side of the tcp server as a step machine: one listener goroutine that looks up, stores
 * and replaces sessions, one dispatcher, and two goroutines and an epilogue per session. Every
 * critical section and every channel operation is one step; steps interleave freely.
 */
module UdpSessions {
  import opened Bytes

  const PAYLOAD_CAP := 100_000

  /** Where a session (LocalAcceptUDPConn) is; Finished is after close(udp.payload). */
  datatype Stage =
    | Stored
    | Dropped
    | Queued
    | Dispatching
    | Running(udpDone: bool, tcpDone: bool)
    | Finished

  /** Datagrams are numbered as they arrive; `payload` is the channel, `taken` what udpToTCP took. */
  datatype Session = Session(
    key: nat, stage: Stage, congested: bool, timedOut: bool, payload: seq<nat>, taken: seq<nat>)

  /** Where the listener goroutine is. */
  datatype Listener =
    | Reading
    | Creating(key: nat, id: nat)      // looked up, mutex released
    | Created(i: nat, id: nat)         // stored, before the send to udpChan
    | SendingFirst(i: nat, id: nat)    // sent to udpChan, before the send to payloadChan

  datatype Fate = InHand | Lost | Into(i: nat)

  datatype Received = Received(key: nat, fate: Fate)

  /** `log` records what became of each datagram; `panicked` is a send on a closed channel. */
  datatype State = State(
    listener: Listener, table: map<nat, nat>, sessions: seq<Session>, udpChan: seq<nat>,
    dispatching: Option<nat>, log: seq<Received>, panicked: bool)

  const INIT := State(Reading, map[], [], [], None, [], false)

  datatype Move = Flag | TcpEnds | Take(ok: bool) | Timeout | Finish

  datatype Event = Receive(key: nat) | Store | Enqueue | SendFirst | Dispatch | Assign | Handler(i: nat, move: Move)

  predicate Open(w: Session) { !w.stage.Finished? }

  /** The listener forwards to a session that is open and not flagged. */
  predicate Usable(w: Session) { Open(w) && !w.congested }

  predicate MoveEnabled(w: Session, m: Move) {
    match m
    case Flag => w.stage.Running? && !w.stage.tcpDone
    case TcpEnds => w.stage.Running? && !w.stage.tcpDone
    case Take(_) => w.stage.Running? && !w.stage.udpDone && w.payload != []
    case Timeout => w.stage.Running? && !w.stage.udpDone
    case Finish => w.stage == Running(true, true)
  }

  predicate Enabled(s: State, e: Event) {
    && !s.panicked
    && match e
       case Receive(_) => s.listener.Reading?
       case Store => s.listener.Creating?
       case Enqueue => s.listener.Created? && s.listener.i < |s.sessions|
       case SendFirst => s.listener.SendingFirst? && s.listener.i < |s.sessions|
       case Dispatch => s.dispatching.None? && s.udpChan != [] && s.udpChan[0] < |s.sessions|
       case Assign => s.dispatching.Some? && s.dispatching.value < |s.sessions|
       case Handler(i, m) => i < |s.sessions| && MoveEnabled(s.sessions[i], m)
  }

  function Moved(w: Session, m: Move): Session
    requires MoveEnabled(w, m)
  {
    match m
    case Flag => w.(congested := true)
    case TcpEnds => w.(stage := Running(w.stage.udpDone, true))
    case Take(ok) =>
      w.(payload := w.payload[1..], taken := w.taken + [w.payload[0]], stage := Running(!ok, w.stage.tcpDone))
    case Timeout => w.(stage := Running(true, w.stage.tcpDone), timedOut := true)
    case Finish => w.(stage := Finished)
  }

  function Put(s: State, i: nat, w: Session): State
    requires i < |s.sessions|
  {
    s.(sessions := s.sessions[i := w])
  }

  /** The select around `payload <- data`: a full channel drops the datagram, a closed one panics. */
  function Forwarded(s: State, i: nat, key: nat): State
    requires i < |s.sessions|
  {
    var w, id := s.sessions[i], |s.log|;
    if !Open(w) then s.(panicked := true, log := s.log + [Received(key, Lost)])
    else if |w.payload| < PAYLOAD_CAP then
      Put(s, i, w.(payload := w.payload + [id])).(log := s.log + [Received(key, Into(i))])
    else s.(log := s.log + [Received(key, Lost)])
  }

  function Settle(log: seq<Received>, id: nat, fate: Fate): seq<Received> {
    if id < |log| then log[id := log[id].(fate := fate)] else log
  }

  function Step(cap: nat, s: State, e: Event): State
    requires Enabled(s, e)
  {
    match e
    case Receive(key) =>
      if key in s.table && s.table[key] < |s.sessions| && !s.sessions[s.table[key]].congested then
        Forwarded(s, s.table[key], key)
      else s.(listener := Creating(key, |s.log|), log := s.log + [Received(key, InHand)])
    case Store =>
      var (key, i) := (s.listener.key, |s.sessions|);
      s.(sessions := s.sessions + [Session(key, Stored, false, false, [], [])],
         table := s.table[key := i],
         listener := Created(i, s.listener.id))
    case Enqueue =>
      var i, w := s.listener.i, s.sessions[s.listener.i];
      if |s.udpChan| < cap then
        Put(s, i, w.(stage := Queued)).(udpChan := s.udpChan + [i], listener := SendingFirst(i, s.listener.id))
      else
        Put(s, i, w.(stage := Dropped)).(listener := Reading, log := Settle(s.log, s.listener.id, Lost))
    case SendFirst =>
      var i, id, w := s.listener.i, s.listener.id, s.sessions[s.listener.i];
      if !Open(w) then s.(panicked := true, listener := Reading, log := Settle(s.log, id, Lost))
      else
        Put(s, i, w.(payload := w.payload + [id])).(listener := Reading, log := Settle(s.log, id, Into(i)))
    case Dispatch =>
      Put(s, s.udpChan[0], s.sessions[s.udpChan[0]].(stage := Dispatching))
        .(dispatching := Some(s.udpChan[0]), udpChan := s.udpChan[1..])
    case Assign =>
      Put(s, s.dispatching.value, s.sessions[s.dispatching.value].(stage := Running(false, false)))
        .(dispatching := None)
    case Handler(i, m) =>
      var w := s.sessions[i];
      Put(s, i, Moved(w, m)).(table := if m.Finish? && !w.congested then s.table - {w.key} else s.table)
  }

  predicate Run(cap: nat, s: State, events: seq<Event>)
    decreases |events|
  {
    events == [] || (Enabled(s, events[0]) && Run(cap, Step(cap, s, events[0]), events[1..]))
  }

  function After(cap: nat, s: State, events: seq<Event>): State
    requires Run(cap, s, events)
    decreases |events|
  {
    if events == [] then s else After(cap, Step(cap, s, events[0]), events[1..])
  }

  // ---- What every step keeps -------------------------------------------

  /** The datagrams that went into session i, in order of arrival. */
  function Ids(log: seq<Received>, i: nat): seq<nat> {
    if log == [] then []
    else Ids(log[..|log| - 1], i) + if log[|log| - 1].fate == Into(i) then [|log| - 1] else []
  }

  /** The session a key maps to is that client's latest one, and closed only if it was flagged. */
  ghost predicate TableInv(table: map<nat, nat>, sessions: seq<Session>) {
    && (forall k :: k in table ==> table[k] < |sessions|)
    && (forall k :: k in table ==> sessions[table[k]].key == k)
    && (forall k :: k in table && sessions[table[k]].stage.Finished? ==> sessions[table[k]].congested)
    && (forall k, j :: k in table && table[k] < j < |sessions| ==> sessions[j].key != k)
    && (forall i :: 0 <= i < |sessions| && Usable(sessions[i]) ==>
      sessions[i].key in table && table[sessions[i].key] == i)
  }

  /** The queue to the dispatcher holds each waiting session once. */
  ghost predicate QueueInv(s: State) {
    && (forall a :: 0 <= a < |s.udpChan| ==> s.udpChan[a] < |s.sessions| && s.sessions[s.udpChan[a]].stage.Queued?)
    && (forall a, b :: 0 <= a < b < |s.udpChan| ==> s.udpChan[a] != s.udpChan[b])
    && (s.dispatching.Some? ==>
      s.dispatching.value < |s.sessions| && s.sessions[s.dispatching.value].stage.Dispatching?)
  }

  ghost predicate InHandIs(log: seq<Received>, id: nat, key: nat) {
    |log| == id + 1 && log[id] == Received(key, InHand)
  }

  ghost predicate ListenerInv(s: State) {
    match s.listener
    case Reading => true
    case Creating(key, id) =>
      && InHandIs(s.log, id, key)
      && forall i :: 0 <= i < |s.sessions| && s.sessions[i].key == key ==> !Usable(s.sessions[i])
    case Created(i, id) =>
      && i + 1 == |s.sessions| && InHandIs(s.log, id, s.sessions[i].key)
      && s.sessions[i].stage.Stored? && s.sessions[i].payload == [] && s.sessions[i].taken == []
    case SendingFirst(i, id) =>
      && i + 1 == |s.sessions| && InHandIs(s.log, id, s.sessions[i].key)
      && !s.sessions[i].stage.Stored? && !s.sessions[i].stage.Dropped?
      && s.sessions[i].payload == [] && s.sessions[i].taken == []
      && (s.sessions[i].stage.Finished? || (s.sessions[i].stage.Running? && s.sessions[i].stage.udpDone) ==>
        s.sessions[i].timedOut)
  }

  /** Fates name sessions of the right client, and later datagrams of a client go to no older session. */
  ghost predicate LogInv(log: seq<Received>, sessions: seq<Session>) {
    && (forall a :: 0 <= a < |log| && log[a].fate.Into? ==>
      log[a].fate.i < |sessions| && sessions[log[a].fate.i].key == log[a].key)
    && (forall a, b :: 0 <= a < b < |log| && log[a].fate.Into? && log[b].fate.Into? && log[a].key == log[b].key ==>
      log[a].fate.i <= log[b].fate.i)
  }

  ghost predicate FlowInv(log: seq<Received>, sessions: seq<Session>) {
    forall i :: 0 <= i < |sessions| ==> sessions[i].taken + sessions[i].payload == Ids(log, i)
  }

  /** Only a running session is flagged or has packets taken from it. */
  ghost predicate StartInv(sessions: seq<Session>) {
    forall i :: 0 <= i < |sessions| && !sessions[i].stage.Running? && !sessions[i].stage.Finished? ==>
      !sessions[i].congested && sessions[i].taken == []
  }

  ghost predicate Inv(s: State) {
    && TableInv(s.table, s.sessions)
    && StartInv(s.sessions)
    && QueueInv(s)
    && ListenerInv(s)
    && LogInv(s.log, s.sessions)
    && FlowInv(s.log, s.sessions)
    && (s.listener.Reading? ==> forall a :: 0 <= a < |s.log| ==> !s.log[a].fate.InHand?)
    && (!s.listener.Reading? ==> forall a :: 0 <= a < |s.log| - 1 ==> !s.log[a].fate.InHand?)
  }

  // ---- One step --------------------------------------------------------

  lemma IdsSnoc(log: seq<Received>, r: Received, i: nat)
    ensures Ids(log + [r], i) == Ids(log, i) + if r.fate == Into(i) then [|log|] else []
  {
    assert (log + [r])[..|log|] == log;
  }

  lemma IdsSettle(log: seq<Received>, id: nat, key: nat, fate: Fate, i: nat)
    requires InHandIs(log, id, key)
    ensures Settle(log, id, fate) == log[..id] + [Received(key, fate)]
    ensures Ids(Settle(log, id, fate), i) == Ids(log, i) + if fate == Into(i) then [id] else []
  {
    var settled := Settle(log, id, fate);
    assert settled[..id] == log[..id];
    assert settled == log[..id] + [Received(key, fate)];
  }

  /** A session may move on in ways that do not make it usable again or finish it unflagged. */
  lemma TablePut(table: map<nat, nat>, sessions: seq<Session>, i: nat, w: Session)
    requires TableInv(table, sessions) && i < |sessions| && w.key == sessions[i].key
    requires Usable(w) ==> Usable(sessions[i])
    requires w.stage.Finished? ==> sessions[i].stage.Finished? || w.congested
    requires sessions[i].congested ==> w.congested
    ensures TableInv(table, sessions[i := w])
  {
  }

  /** Finishing unflagged: the entry that is deleted is the session's own. */
  lemma TableFinish(table: map<nat, nat>, sessions: seq<Session>, i: nat, w: Session)
    requires TableInv(table, sessions) && i < |sessions| && w.key == sessions[i].key
    requires Usable(sessions[i]) && !Usable(w)
    ensures w.key in table && table[w.key] == i
    ensures TableInv(table - {w.key}, sessions[i := w])
  {
  }

  lemma TableStore(table: map<nat, nat>, sessions: seq<Session>, w: Session)
    requires TableInv(table, sessions) && Usable(w)
    requires forall i :: 0 <= i < |sessions| && sessions[i].key == w.key ==> !Usable(sessions[i])
    ensures TableInv(table[w.key := |sessions|], sessions + [w])
  {
  }

  lemma FlowPut(log: seq<Received>, sessions: seq<Session>, i: nat, w: Session)
    requires FlowInv(log, sessions) && i < |sessions|
    requires w.taken + w.payload == sessions[i].taken + sessions[i].payload
    ensures FlowInv(log, sessions[i := w])
  {
    hide Ids;
  }

  lemma LogPut(log: seq<Received>, sessions: seq<Session>, i: nat, w: Session)
    requires LogInv(log, sessions) && i < |sessions| && w.key == sessions[i].key
    ensures LogInv(log, sessions[i := w])
  {
  }

  lemma MoveKeepsFlow(w: Session, m: Move)
    requires MoveEnabled(w, m)
    ensures Moved(w, m).taken + Moved(w, m).payload == w.taken + w.payload
  {
  }

  lemma HandlerKeeps(cap: nat, s: State, i: nat, m: Move)
    requires Inv(s) && Enabled(s, Handler(i, m))
    ensures Inv(Step(cap, s, Handler(i, m)))
  {
    hide TableInv, FlowInv, LogInv, Ids;
    var w := s.sessions[i];
    var w' := Moved(w, m);
    MoveKeepsFlow(w, m);
    FlowPut(s.log, s.sessions, i, w');
    LogPut(s.log, s.sessions, i, w');
    if m.Finish? && !w.congested {
      TableFinish(s.table, s.sessions, i, w');
    } else {
      TablePut(s.table, s.sessions, i, w');
    }
  }

  lemma DispatcherKeeps(cap: nat, s: State, e: Event)
    requires Inv(s) && Enabled(s, e) && (e.Dispatch? || e.Assign?)
    ensures Inv(Step(cap, s, e))
  {
    hide TableInv, FlowInv, LogInv, Ids;
    var i := if e.Dispatch? then s.udpChan[0] else s.dispatching.value;
    var w := s.sessions[i].(stage := if e.Dispatch? then Dispatching else Running(false, false));
    FlowPut(s.log, s.sessions, i, w);
    LogPut(s.log, s.sessions, i, w);
    TablePut(s.table, s.sessions, i, w);
  }

  lemma StoreKeeps(cap: nat, s: State)
    requires Inv(s) && Enabled(s, Store)
    ensures Inv(Step(cap, s, Store))
  {
    hide TableInv, Ids;
    var s' := Step(cap, s, Store);
    TableStore(s.table, s.sessions, Session(s.listener.key, Stored, false, false, [], []));
    IdsNew(s.log, s.sessions);
  }

  /** Nothing went into a session that does not exist yet. */
  lemma {:induction false} IdsNew(log: seq<Received>, sessions: seq<Session>)
    requires forall a :: 0 <= a < |log| && log[a].fate.Into? ==> log[a].fate.i < |sessions|
    ensures Ids(log, |sessions|) == []
  {
    if log != [] {
      IdsNew(log[..|log| - 1], sessions);
    }
  }

  /** One more datagram, for a session of its client that no later session of that client follows. */
  lemma LogAdd(log: seq<Received>, sessions: seq<Session>, r: Received)
    requires LogInv(log, sessions)
    requires r.fate.Into? ==> r.fate.i < |sessions| && sessions[r.fate.i].key == r.key
    requires r.fate.Into? ==> forall j :: r.fate.i < j < |sessions| ==> sessions[j].key != r.key
    ensures LogInv(log + [r], sessions)
  {
  }

  lemma FlowAdd(log: seq<Received>, sessions: seq<Session>, i: nat, r: Received, w: Session)
    requires FlowInv(log, sessions) && i < |sessions| && r.fate == Into(i)
    requires w == sessions[i].(payload := sessions[i].payload + [|log|])
    ensures FlowInv(log + [r], sessions[i := w])
  {
    hide Ids;
    forall j | 0 <= j < |sessions|
      ensures sessions[i := w][j].taken + sessions[i := w][j].payload == Ids(log + [r], j)
    {
      IdsSnoc(log, r, j);
    }
  }

  lemma FlowSkip(log: seq<Received>, sessions: seq<Session>, r: Received)
    requires FlowInv(log, sessions) && !r.fate.Into?
    ensures FlowInv(log + [r], sessions)
  {
    hide Ids;
    forall j | 0 <= j < |sessions| ensures sessions[j].taken + sessions[j].payload == Ids(log + [r], j) {
      IdsSnoc(log, r, j);
    }
  }

  lemma ReceiveKeeps(cap: nat, s: State, key: nat)
    requires Inv(s) && Enabled(s, Receive(key))
    ensures Inv(Step(cap, s, Receive(key)))
    ensures !Step(cap, s, Receive(key)).panicked
  {
    hide Ids, FlowInv, LogInv;
    var s' := Step(cap, s, Receive(key));
    var r := s'.log[|s.log|];
    assert s'.log == s.log + [r];
    if r.fate.Into? {
      var i, w := r.fate.i, s'.sessions[r.fate.i];
      hide TableInv;
      ForwardsToLatest(s, key);
      LogAdd(s.log, s.sessions, r);
      FlowAdd(s.log, s.sessions, i, r, w);
      LogPut(s'.log, s.sessions, i, w);
      TablePut(s.table, s.sessions, i, w);
    } else {
      LogAdd(s.log, s.sessions, r);
      FlowSkip(s.log, s.sessions, r);
    }
  }

  lemma ForwardsToLatest(s: State, key: nat)
    requires TableInv(s.table, s.sessions) && key in s.table
    ensures s.table[key] < |s.sessions| && s.sessions[s.table[key]].key == key
    ensures forall j :: s.table[key] < j < |s.sessions| ==> s.sessions[j].key != key
    ensures !s.sessions[s.table[key]].congested ==> Open(s.sessions[s.table[key]])
  {
  }

  lemma InHandCut(log: seq<Received>, sessions: seq<Session>, id: nat, key: nat)
    requires InHandIs(log, id, key)
    ensures LogInv(log, sessions) ==> LogInv(log[..id], sessions)
    ensures FlowInv(log, sessions) ==> FlowInv(log[..id], sessions)
  {
    hide Ids;
    assert log == log[..id] + [Received(key, InHand)];
    forall j ensures Ids(log, j) == Ids(log[..id], j) {
      IdsSnoc(log[..id], Received(key, InHand), j);
    }
  }

  lemma EnqueueKeeps(cap: nat, s: State)
    requires Inv(s) && Enabled(s, Enqueue)
    ensures Inv(Step(cap, s, Enqueue))
  {
    hide TableInv, FlowInv, LogInv, Ids;
    var i, id, w := s.listener.i, s.listener.id, Step(cap, s, Enqueue).sessions[s.listener.i];
    var key := w.key;
    if |s.udpChan| >= cap {
      IdsSettle(s.log, id, key, Lost, 0);
      InHandCut(s.log, s.sessions, id, key);
      LogAdd(s.log[..id], s.sessions, Received(key, Lost));
      FlowSkip(s.log[..id], s.sessions, Received(key, Lost));
    }
    var log := Step(cap, s, Enqueue).log;
    FlowPut(log, s.sessions, i, w);
    LogPut(log, s.sessions, i, w);
    TablePut(s.table, s.sessions, i, w);
  }

  lemma SendFirstKeeps(cap: nat, s: State)
    requires Inv(s) && Enabled(s, SendFirst)
    ensures Inv(Step(cap, s, SendFirst))
  {
    hide TableInv, FlowInv, LogInv, Ids;
    var i, id, w := s.listener.i, s.listener.id, s.sessions[s.listener.i];
    var fate := if Open(w) then Into(i) else Lost;
    var r := Received(w.key, fate);
    var w' := Step(cap, s, SendFirst).sessions[i];
    IdsSettle(s.log, id, w.key, fate, 0);
    InHandCut(s.log, s.sessions, id, w.key);
    LogAdd(s.log[..id], s.sessions, r);
    LogPut(s.log[..id] + [r], s.sessions, i, w');
    TablePut(s.table, s.sessions, i, w');
    if Open(w) {
      FlowAdd(s.log[..id], s.sessions, i, r, w');
    } else {
      FlowSkip(s.log[..id], s.sessions, r);
    }
  }

  lemma InvKept(cap: nat, s: State, e: Event)
    requires Inv(s) && Enabled(s, e)
    ensures Inv(Step(cap, s, e))
  {
    hide Inv, Step;
    match e {
      case Receive(key) => ReceiveKeeps(cap, s, key);
      case Store => StoreKeeps(cap, s);
      case Enqueue => EnqueueKeeps(cap, s);
      case SendFirst => SendFirstKeeps(cap, s);
      case Dispatch => DispatcherKeeps(cap, s, e);
      case Assign => DispatcherKeeps(cap, s, e);
      case Handler(i, m) => HandlerKeeps(cap, s, i, m);
    }
  }

  lemma {:induction false} InvAlways(cap: nat, s: State, events: seq<Event>)
    requires Inv(s) && Run(cap, s, events)
    ensures Inv(After(cap, s, events))
    decreases |events|
  {
    hide Inv, Step, Enabled;
    if events != [] {
      InvKept(cap, s, events[0]);
      InvAlways(cap, Step(cap, s, events[0]), events[1..]);
    }
  }

  lemma InvReached(cap: nat, events: seq<Event>)
    requires Run(cap, INIT, events)
    ensures Inv(After(cap, INIT, events))
  {
    hide Step, Enabled;
    assert Inv(INIT);
    InvAlways(cap, INIT, events);
  }

  // ---- Every run -------------------------------------------------------

  /** A client has at most one session that is open and not flagged, and the table maps to it. */
  lemma OneSessionPerClient(cap: nat, events: seq<Event>, i: nat, j: nat)
    requires Run(cap, INIT, events)
    requires var sessions := After(cap, INIT, events).sessions;
      && i < |sessions| && j < |sessions| && sessions[i].key == sessions[j].key
      && Usable(sessions[i]) && Usable(sessions[j])
    ensures i == j
    ensures var s := After(cap, INIT, events); s.sessions[i].key in s.table && s.table[s.sessions[i].key] == i
  {
    hide Step, Enabled, After, Run, FlowInv, LogInv, ListenerInv, QueueInv;
    InvReached(cap, events);
  }

  /** The listener's branch for an existing connection never meets a closed payload channel. */
  lemma ExistingBranchIsSafe(cap: nat, events: seq<Event>, key: nat)
    requires Run(cap, INIT, events) && Enabled(After(cap, INIT, events), Receive(key))
    ensures !Step(cap, After(cap, INIT, events), Receive(key)).panicked
  {
    hide Step, After, Run, Inv;
    InvReached(cap, events);
    ReceiveKeeps(cap, After(cap, INIT, events), key);
  }

  /** A finishing handler deletes the entry of its client only while that entry is its own. */
  lemma FinishDeletesOwnEntry(cap: nat, events: seq<Event>, i: nat)
    requires Run(cap, INIT, events) && Enabled(After(cap, INIT, events), Handler(i, Finish))
    ensures var s := After(cap, INIT, events);
      var table := Step(cap, s, Handler(i, Finish)).table;
      && (forall k :: k in table <==> k in s.table && (s.table[k] != i || s.sessions[i].congested))
      && (forall k :: k in table ==> table[k] == s.table[k])
  {
    hide After, Run, FlowInv, LogInv, ListenerInv, QueueInv;
    InvReached(cap, events);
  }

  // ---- Datagrams -------------------------------------------------------

  lemma {:induction false} IdsAre(log: seq<Received>, i: nat)
    ensures forall x :: x in Ids(log, i) <==> 0 <= x < |log| && log[x].fate == Into(i)
    ensures forall a, b :: 0 <= a < b < |Ids(log, i)| ==> Ids(log, i)[a] < Ids(log, i)[b]
  {
    if log != [] {
      var n := |log| - 1;
      IdsAre(log[..n], i);
      var front := Ids(log[..n], i);
      assert forall a :: 0 <= a < |front| ==> front[a] in front;
    }
  }

  /** The client of each datagram, in order of arrival. */
  function Keys(log: seq<Received>): seq<nat> { seq(|log|, a requires 0 <= a < |log| => log[a].key) }

  function Arrivals(events: seq<Event>): seq<nat> {
    if events == [] then []
    else (if events[0].Receive? then [events[0].key] else []) + Arrivals(events[1..])
  }

  lemma {:induction false} LogIsArrivals(cap: nat, s: State, events: seq<Event>)
    requires Run(cap, s, events)
    ensures Keys(After(cap, s, events).log) == Keys(s.log) + Arrivals(events)
    decreases |events|
  {
    if events != [] {
      var s' := Step(cap, s, events[0]);
      LogIsArrivals(cap, s', events[1..]);
      StepLogs(cap, s, events[0]);
    }
  }

  lemma StepLogs(cap: nat, s: State, e: Event)
    requires Enabled(s, e)
    ensures Keys(Step(cap, s, e).log) == Keys(s.log) + if e.Receive? then [e.key] else []
  {
  }

  /**
   * Datagrams of one session: what was taken from its payload channel and what still waits there
   * are datagrams its own client sent, in the order they arrived, none twice; no other session has
   * any of them, and a later session of the client only has later ones.
   */
  lemma DatagramsKept(cap: nat, events: seq<Event>, i: nat, j: nat)
    requires Run(cap, INIT, events)
    requires i < |After(cap, INIT, events).sessions| && j < |After(cap, INIT, events).sessions|
    ensures var sessions := After(cap, INIT, events).sessions;
      var flow, other := sessions[i].taken + sessions[i].payload, sessions[j].taken + sessions[j].payload;
      && (forall a, b :: 0 <= a < b < |flow| ==> flow[a] < flow[b])
      && (forall x :: x in flow ==> x < |Arrivals(events)| && Arrivals(events)[x] == sessions[i].key)
      && (i != j ==> forall x :: x in flow ==> x !in other)
      && (i < j && sessions[i].key == sessions[j].key ==> forall x, y :: x in flow && y in other ==> x < y)
  {
    hide Step, Enabled, After, Run, TableInv, ListenerInv, QueueInv, Ids, Arrivals;
    InvReached(cap, events);
    LogIsArrivals(cap, INIT, events);
    var s := After(cap, INIT, events);
    IdsAre(s.log, i);
    IdsAre(s.log, j);
    assert Keys(INIT.log) == [];
    assert forall x :: 0 <= x < |s.log| ==> Keys(s.log)[x] == s.log[x].key;
  }

  /** Between two datagrams every one that arrived either was dropped or is with exactly one session. */
  lemma DatagramsAccounted(cap: nat, events: seq<Event>, x: nat)
    requires Run(cap, INIT, events) && After(cap, INIT, events).listener.Reading? && x < |Arrivals(events)|
    ensures x < |After(cap, INIT, events).log|
    ensures var s := After(cap, INIT, events);
      || (s.log[x].fate.Lost?
          && forall i :: 0 <= i < |s.sessions| ==> x !in s.sessions[i].taken + s.sessions[i].payload)
      || (s.log[x].fate.Into? && s.log[x].fate.i < |s.sessions|
          && x in s.sessions[s.log[x].fate.i].taken + s.sessions[s.log[x].fate.i].payload)
  {
    hide Step, Enabled, After, Run, TableInv, ListenerInv, QueueInv, Ids, Arrivals;
    InvReached(cap, events);
    LogIsArrivals(cap, INIT, events);
    var s := After(cap, INIT, events);
    assert Keys(INIT.log) == [];
    forall i ensures x in Ids(s.log, i) <==> s.log[x].fate == Into(i) {
      IdsAre(s.log, i);
    }
  }

  // ---- The first packet ------------------------------------------------

  /**
   * The first packet of a session meets a closed channel exactly when its handler has finished
   * already; then that handler's idle timeout fired although no packet had ever been queued.
   */
  lemma FirstPacketPanics(cap: nat, events: seq<Event>)
    requires Run(cap, INIT, events) && Enabled(After(cap, INIT, events), SendFirst)
    ensures var s := After(cap, INIT, events);
      var w := s.sessions[s.listener.i];
      && (Step(cap, s, SendFirst).panicked <==> w.stage.Finished?)
      && (w.stage.Finished? ==> w.timedOut && w.taken == [] && w.payload == [])
  {
    hide After, Run, TableInv, FlowInv, LogInv, QueueInv;
    InvReached(cap, events);
  }

  predicate IsFinished(s: State, i: nat) { i < |s.sessions| && s.sessions[i].stage.Finished? }

  lemma FinishedStep(cap: nat, s: State, e: Event, i: nat)
    requires Inv(s) && Enabled(s, e)
    ensures IsFinished(Step(cap, s, e), i) <==> IsFinished(s, i) || e == Handler(i, Finish)
  {
    hide TableInv, FlowInv, LogInv, StartInv;
  }

  /** A session is finished exactly if the end of its handler is among the events. */
  lemma {:induction false} FinishedIff(cap: nat, s: State, events: seq<Event>, i: nat)
    requires Inv(s) && Run(cap, s, events)
    ensures IsFinished(After(cap, s, events), i) <==> IsFinished(s, i) || Handler(i, Finish) in events
    decreases |events|
  {
    hide Inv, Step, Enabled, IsFinished;
    if events != [] {
      FinishedStep(cap, s, events[0], i);
      InvKept(cap, s, events[0]);
      FinishedIff(cap, Step(cap, s, events[0]), events[1..], i);
      assert events == [events[0]] + events[1..];
    }
  }

  lemma OnlyFirstSendPanics(cap: nat, s: State, e: Event)
    requires Inv(s) && Enabled(s, e)
    ensures Step(cap, s, e).panicked <==> e.SendFirst? && IsFinished(s, s.listener.i)
  {
    hide FlowInv, LogInv, QueueInv, StartInv;
  }

  /**
   * Exactly when a run panics: at the send of a session's first packet, if and only if the handler
   * of that session has ended before - which it can only do between the listener's two sends.
   */
  lemma RunPanicsIff(cap: nat, events: seq<Event>, e: Event)
    requires Run(cap, INIT, events) && Enabled(After(cap, INIT, events), e)
    ensures var s := After(cap, INIT, events);
      Step(cap, s, e).panicked <==> e.SendFirst? && Handler(s.listener.i, Finish) in events
  {
    hide Inv, Step, Enabled, Run, After;
    InvReached(cap, events);
    var s := After(cap, INIT, events);
    OnlyFirstSendPanics(cap, s, e);
    if e.SendFirst? {
      SendsFirst(s);
      assert Inv(INIT) by { NothingYet(); }
      FinishedIff(cap, INIT, events, s.listener.i);
    }
  }

  lemma NothingYet()
    ensures Inv(INIT) && forall i: nat :: !IsFinished(INIT, i)
  {
  }

  lemma SendsFirst(s: State)
    requires Enabled(s, SendFirst)
    ensures s.listener.SendingFirst?
  {
  }

  predicate NoTimeouts(events: seq<Event>) {
    forall a :: 0 <= a < |events| ==> !(events[a].Handler? && events[a].move.Timeout?)
  }

  ghost predicate NoneTimedOut(s: State) { forall i :: 0 <= i < |s.sessions| ==> !s.sessions[i].timedOut }

  lemma StepWithoutTimeout(cap: nat, s: State, e: Event)
    requires Inv(s) && Enabled(s, e) && NoneTimedOut(s) && !(e.Handler? && e.move.Timeout?)
    ensures NoneTimedOut(Step(cap, s, e)) && !Step(cap, s, e).panicked
  {
    hide FlowInv, LogInv, QueueInv;
  }

  /** A run in which no handler is idle for 60 seconds never sends on a closed channel. */
  lemma {:induction false} NoTimeoutNoPanic(cap: nat, s: State, events: seq<Event>)
    requires Inv(s) && NoneTimedOut(s) && !s.panicked && Run(cap, s, events) && NoTimeouts(events)
    ensures !After(cap, s, events).panicked
    decreases |events|
  {
    hide Inv, Step, Enabled, NoneTimedOut;
    if events != [] {
      StepWithoutTimeout(cap, s, events[0]);
      InvKept(cap, s, events[0]);
      NoTimeoutNoPanic(cap, Step(cap, s, events[0]), events[1..]);
    }
  }

  const LATE_FIRST_SEND := [Receive(7), Store, Enqueue, Dispatch, Assign,
    Handler(0, Timeout), Handler(0, TcpEnds), Handler(0, Finish), SendFirst]

  /** The state after the first k of these. */
  function LateState(k: nat): State {
    var held, settled := [Received(7, InHand)], [Received(7, Lost)];
    var w, t := Session(7, Stored, false, false, [], []), map[7 := 0];
    if k == 0 then INIT
    else if k == 1 then State(Creating(7, 0), map[], [], [], None, held, false)
    else if k == 2 then State(Created(0, 0), t, [w], [], None, held, false)
    else if k == 3 then State(SendingFirst(0, 0), t, [w.(stage := Queued)], [0], None, held, false)
    else if k == 4 then State(SendingFirst(0, 0), t, [w.(stage := Dispatching)], [], Some(0), held, false)
    else if k == 5 then State(SendingFirst(0, 0), t, [w.(stage := Running(false, false))], [], None, held, false)
    else
      var v := w.(timedOut := true);
      if k == 6 then State(SendingFirst(0, 0), t, [v.(stage := Running(true, false))], [], None, held, false)
      else if k == 7 then State(SendingFirst(0, 0), t, [v.(stage := Running(true, true))], [], None, held, false)
      else if k == 8 then State(SendingFirst(0, 0), map[], [v.(stage := Finished)], [], None, held, false)
      else State(Reading, map[], [v.(stage := Finished)], [], None, settled, true)
  }

  lemma LateStep(cap: nat, k: nat)
    requires cap > 0 && k < 9
    ensures Enabled(LateState(k), LATE_FIRST_SEND[k])
    ensures Step(cap, LateState(k), LATE_FIRST_SEND[k]) == LateState(k + 1)
  {
    hide LateState, Step, Enabled;
    if k < 3 { LateCreation(cap, k); } else if k < 5 { LateDispatch(cap, k); } else { LateEnd(cap, k); }
  }

  lemma LateCreation(cap: nat, k: nat)
    requires cap > 0 && k < 3
    ensures Enabled(LateState(k), LATE_FIRST_SEND[k])
    ensures Step(cap, LateState(k), LATE_FIRST_SEND[k]) == LateState(k + 1)
  {
  }

  lemma LateDispatch(cap: nat, k: nat)
    requires 3 <= k < 5
    ensures Enabled(LateState(k), LATE_FIRST_SEND[k])
    ensures Step(cap, LateState(k), LATE_FIRST_SEND[k]) == LateState(k + 1)
  {
    assert LateState(3).udpChan[1..] == [];
  }

  lemma LateEnd(cap: nat, k: nat)
    requires 5 <= k < 9
    ensures Enabled(LateState(k), LATE_FIRST_SEND[k])
    ensures Step(cap, LateState(k), LATE_FIRST_SEND[k]) == LateState(k + 1)
  {
    assert LateState(7).table - {7} == map[];
  }

  lemma {:induction false} LateRun(cap: nat, k: nat)
    requires cap > 0 && k <= 9
    ensures Run(cap, LateState(k), LATE_FIRST_SEND[k..])
    ensures After(cap, LateState(k), LATE_FIRST_SEND[k..]) == LateState(9)
    decreases 9 - k
  {
    hide LateState, Step, Enabled;
    if k < 9 {
      LateStep(cap, k);
      LateRun(cap, k + 1);
    }
  }

  /** It does happen: the listener stalls between its two sends while the handler times out. */
  lemma LateFirstSendPanics(cap: nat)
    requires cap > 0
    ensures Run(cap, INIT, LATE_FIRST_SEND) && After(cap, INIT, LATE_FIRST_SEND).panicked
  {
    hide Step, Enabled, Run, After;
    LateRun(cap, 0);
    assert LATE_FIRST_SEND[0..] == LATE_FIRST_SEND;
  }

  // ---- A full dispatcher queue -----------------------------------------

  /** The client's session that was stored but never queued, and that will never be dispatched. */
  ghost predicate Stranded(s: State, key: nat, i: nat) {
    && i < |s.sessions| && s.sessions[i].key == key && s.sessions[i].stage.Dropped?
    && key in s.table && s.table[key] == i
  }

  lemma StrandedStays(cap: nat, s: State, e: Event, key: nat, i: nat)
    requires Inv(s) && Enabled(s, e) && Stranded(s, key, i)
    ensures Stranded(Step(cap, s, e), key, i)
  {
    hide FlowInv, LogInv;
  }

  lemma {:induction false} StrandedAlways(cap: nat, s: State, events: seq<Event>, key: nat, i: nat)
    requires Inv(s) && Run(cap, s, events) && Stranded(s, key, i)
    ensures Stranded(After(cap, s, events), key, i) && Inv(After(cap, s, events))
    decreases |events|
  {
    hide Inv, Step, Enabled, Stranded;
    if events != [] {
      StrandedStays(cap, s, events[0], key, i);
      InvKept(cap, s, events[0]);
      StrandedAlways(cap, Step(cap, s, events[0]), events[1..], key, i);
    }
  }

  /** From datagram number `from` on, this client's datagrams went to session i or a later one. */
  ghost predicate OnlyFrom(log: seq<Received>, key: nat, i: nat, from: nat) {
    && from <= |log|
    && forall x :: from <= x < |log| && log[x].key == key && log[x].fate.Into? ==> log[x].fate.i >= i
  }

  lemma StrandedFlows(s: State, key: nat, i: nat, from: nat)
    requires Inv(s) && Stranded(s, key, i)
    requires OnlyFrom(s.log, key, i, from)
    ensures s.sessions[i].taken == []
    ensures forall x :: from <= x < |s.log| && s.log[x].key == key ==> s.log[x].fate == Lost || s.log[x].fate == Into(i)
  {
    hide FlowInv, QueueInv;
  }

  /**
   * When the queue to the dispatcher is full the new session stays in the table all the same: from
   * then on, whatever happens, every datagram of that client is dropped or put into its payload
   * channel, from which nothing is ever taken, and no other session is made for it.
   */
  lemma FullQueueStrandsClient(cap: nat, s: State, later: seq<Event>)
    requires Inv(s) && Enabled(s, Enqueue) && |s.udpChan| >= cap
    requires Run(cap, Step(cap, s, Enqueue), later)
    ensures var i, s1 := s.listener.i, After(cap, Step(cap, s, Enqueue), later);
      && i < |s.sessions| && i < |s1.sessions| && s1.sessions[i].taken == [] && Usable(s1.sessions[i])
      && var key := s.sessions[i].key;
         && key in s1.table && s1.table[key] == i
         && forall x :: |s.log| <= x < |s1.log| && s1.log[x].key == key ==>
              s1.log[x].fate == Lost || s1.log[x].fate == Into(i)
  {
    hide FlowInv, LogInv, After, Run;
    var s0, i := Step(cap, s, Enqueue), s.listener.i;
    var key := s.sessions[i].key;
    InvKept(cap, s, Enqueue);
    assert Stranded(s0, key, i);
    StrandedAlways(cap, s0, later, key, i);
    LaterFates(cap, s0, later, key, i, |s.log|);
    StrandedFlows(After(cap, s0, later), key, i, |s.log|);
  }

  lemma StrandedFate(cap: nat, s: State, e: Event, key: nat, i: nat, from: nat)
    requires Inv(s) && Enabled(s, e) && Stranded(s, key, i)
    requires OnlyFrom(s.log, key, i, from)
    ensures OnlyFrom(Step(cap, s, e).log, key, i, from)
  {
    hide FlowInv, LogInv, QueueInv;
  }

  lemma {:induction false} LaterFates(cap: nat, s: State, events: seq<Event>, key: nat, i: nat, from: nat)
    requires Inv(s) && Run(cap, s, events) && Stranded(s, key, i)
    requires OnlyFrom(s.log, key, i, from)
    ensures OnlyFrom(After(cap, s, events).log, key, i, from)
    decreases |events|
  {
    hide Inv, Step, Enabled, Stranded, OnlyFrom;
    if events != [] {
      StrandedFate(cap, s, events[0], key, i, from);
      StrandedStays(cap, s, events[0], key, i);
      InvKept(cap, s, events[0]);
      LaterFates(cap, Step(cap, s, events[0]), events[1..], key, i, from);
    }
  }
}
