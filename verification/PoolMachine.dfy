/**
 * The tcp client's pool control as a step machine: the maintainer that fills and resizes the pool,
 * the handler of the server's signals, and the dialers. One step per atomic operation.
 */
module PoolMachine {

  /** controlFlow is made with room for 100 tokens. */
  const TOKENS := 100

  datatype Config = Config(connPoolSize: nat, aggressive: bool)

  /** The factors a, b, x and y of the two tests. */
  function A(c: Config): int { if c.aggressive then 1 else 4 }
  function B(c: Config): int { if c.aggressive then 2 else 5 }
  function X(c: Config): int { if c.aggressive then 0 else 3 }
  function Y(c: Config): real { if c.aggressive then 0.75 else 4.0 }

  predicate Grows(c: Config, load: nat, pool: nat) { load + A(c) > pool * B(c) }

  predicate Shrinks(c: Config, load: nat, pool: nat) { (load + X(c)) as real < (pool as real) * Y(c) }

  /** Ten readings averaged, rounded up. */
  function Average(sum: nat): (r: nat)
    ensures sum <= 10 * r < sum + 10
  {
    (sum + 9) / 10
  }

  /**
   * Where poolMaintainer is. Measured holds the two averages of a load tick, LoadRead only the
   * load, which is not reset yet; Blocked is the send on a full controlFlow.
   */
  datatype Maintainer = Filling(i: nat) | Selecting | LoadRead(load: nat) | Measured(load: nat, pool: nat) | Blocked

  /**
   * `dials` counts the tunnelDialer goroutines started; `dialing`, `connected` and `ended` where
   * they are beside the ones in the pool. `signals` counts the SG_Chan messages served, `seen` the
   * ones added to loadConnections, `measured` and `missed` the ones later read or reset unread.
   */
  datatype State = State(
    maintainer: Maintainer, newPoolSize: int, poolConnectionsSum: nat, poolConnections: int, loadConnections: nat,
    tokens: nat, serving: bool, dials: nat, signals: nat, seen: nat, measured: nat, missed: nat,
    dialing: nat, connected: nat, waiting: nat, ended: nat)

  function Init(c: Config): State {
    State(Filling(0), c.connPoolSize, 0, 0, 0, 0, false, 0, 0, 0, 0, 0, 0, 0, 0, 0)
  }

  datatype Event =
    | Fill | PoolTick | ReadLoad | ResetLoad | Decide | SendToken
    | Signal | Serve
    | Connect(ok: bool) | Join | Leave

  predicate Enabled(s: State, e: Event) {
    match e
    case Fill => s.maintainer.Filling?
    case PoolTick => s.maintainer.Selecting? && s.poolConnections >= 0
    case ReadLoad => s.maintainer.Selecting?
    case ResetLoad => s.maintainer.LoadRead?
    case Decide => s.maintainer.Measured?
    case SendToken => s.maintainer.Blocked? && s.tokens < TOKENS
    case Signal => !s.serving
    case Serve => s.serving
    case Connect(_) => s.dialing > 0
    case Join => s.connected > 0
    case Leave => s.waiting > 0
  }

  function Excess(a: nat, b: nat): nat { if a >= b then a - b else 0 }

  /** go c.tunnelDialer() */
  function Dial(s: State): State { s.(dials := s.dials + 1, dialing := s.dialing + 1) }

  function Step(c: Config, s: State, e: Event): State
    requires Enabled(s, e)
  {
    match e
    case Fill =>
      if s.maintainer.i < c.connPoolSize then Dial(s.(maintainer := Filling(s.maintainer.i + 1)))
      else s.(maintainer := Selecting)
    case PoolTick => s.(poolConnectionsSum := s.poolConnectionsSum + s.poolConnections)
    case ReadLoad => s.(maintainer := LoadRead(s.loadConnections))
    case ResetLoad =>
      s.(maintainer := Measured(Average(s.maintainer.load), Average(s.poolConnectionsSum)),
         measured := s.measured + s.maintainer.load,
         missed := s.missed + Excess(s.loadConnections, s.maintainer.load),
         loadConnections := 0, poolConnectionsSum := 0)
    case Decide =>
      var load, pool := s.maintainer.load, s.maintainer.pool;
      if Grows(c, load, pool) then Dial(s.(newPoolSize := s.newPoolSize + 1, maintainer := Selecting))
      else if Shrinks(c, load, pool) && s.newPoolSize > c.connPoolSize then
        if s.tokens < TOKENS then
          s.(newPoolSize := s.newPoolSize - 1, tokens := s.tokens + 1, maintainer := Selecting)
        else s.(newPoolSize := s.newPoolSize - 1, maintainer := Blocked)
      else s.(maintainer := Selecting)
    case SendToken => s.(tokens := s.tokens + 1, maintainer := Selecting)
    case Signal => s.(serving := true, seen := s.seen + 1, loadConnections := s.loadConnections + 1)
    case Serve =>
      if s.tokens > 0 then s.(serving := false, signals := s.signals + 1, tokens := s.tokens - 1)
      else Dial(s.(serving := false, signals := s.signals + 1))
    case Connect(ok) =>
      if ok then s.(dialing := s.dialing - 1, connected := s.connected + 1)
      else s.(dialing := s.dialing - 1, ended := s.ended + 1)
    case Join => s.(connected := s.connected - 1, waiting := s.waiting + 1, poolConnections := s.poolConnections + 1)
    case Leave => s.(waiting := s.waiting - 1, ended := s.ended + 1, poolConnections := s.poolConnections - 1)
  }

  predicate Run(c: Config, s: State, events: seq<Event>)
    decreases |events|
  {
    events == [] || (Enabled(s, events[0]) && Run(c, Step(c, s, events[0]), events[1..]))
  }

  function After(c: Config, s: State, events: seq<Event>): State
    requires Run(c, s, events)
    decreases |events|
  {
    if events == [] then s else After(c, Step(c, s, events[0]), events[1..])
  }

  // ---- The two tests ---------------------------------------------------

  /** For both sets of factors a reading never asks for growing and shrinking at once. */
  lemma GrowOrShrink(c: Config, load: nat, pool: nat)
    ensures !(Grows(c, load, pool) && Shrinks(c, load, pool))
  {
    TestsExactly(c, load, pool);
  }

  /** Both tests as comparisons of whole numbers. */
  lemma TestsExactly(c: Config, load: nat, pool: nat)
    ensures Grows(c, load, pool) <==> if c.aggressive then 2 * pool < load + 1 else 5 * pool < load + 4
    ensures Shrinks(c, load, pool) <==> if c.aggressive then 4 * load < 3 * pool else load + 3 < 4 * pool
  {
    assert (pool as real) * 4.0 == (4 * pool) as real;
    assert (4 * load) as real == 4.0 * (load as real) && (3 * pool) as real == 3.0 * (pool as real);
  }

  /** More load or a smaller pool never turns growing into not growing, nor the reverse for shrinking. */
  lemma TestsAreMonotone(c: Config, load: nat, pool: nat, more: nat, less: nat)
    requires load <= more && less <= pool
    ensures Grows(c, load, pool) ==> Grows(c, more, less)
    ensures Shrinks(c, more, less) ==> Shrinks(c, load, pool)
  {
    TestsExactly(c, load, pool);
    TestsExactly(c, more, less);
  }

  // ---- What every step keeps -------------------------------------------

  function Pending(s: State): nat { if s.maintainer.Blocked? then 1 else 0 }

  function Filled(c: Config, s: State): int {
    if s.maintainer.Filling? then s.maintainer.i else c.connPoolSize
  }

  predicate Inv(c: Config, s: State) {
    && s.dials + c.connPoolSize == Filled(c, s) + s.newPoolSize + s.signals + s.tokens + Pending(s)
    && s.newPoolSize >= c.connPoolSize
    && Filled(c, s) <= c.connPoolSize
    && (s.maintainer.Filling? ==> s.newPoolSize == c.connPoolSize)
    && s.tokens <= TOKENS
    && s.dials == s.dialing + s.connected + s.waiting + s.ended
    && s.poolConnections == s.waiting
    && s.seen == s.signals + (if s.serving then 1 else 0)
    && s.seen == s.measured + s.missed + s.loadConnections
    && (s.maintainer.LoadRead? ==> s.maintainer.load <= s.loadConnections)
  }

  lemma InvKept(c: Config, s: State, e: Event)
    requires Inv(c, s) && Enabled(s, e)
    ensures Inv(c, Step(c, s, e))
  {
    hide Grows, Shrinks, Average;
  }

  lemma {:induction false} InvAlways(c: Config, s: State, events: seq<Event>)
    requires Inv(c, s) && Run(c, s, events)
    ensures Inv(c, After(c, s, events))
    decreases |events|
  {
    hide Inv, Step, Enabled;
    if events != [] {
      InvKept(c, s, events[0]);
      InvAlways(c, Step(c, s, events[0]), events[1..]);
    }
  }

  /**
   * Accounting over every run once the pool is filled: the dials are the pool size, one for every
   * signal and one for every shrink token not used yet - waiting or still to be sent. So tokens
   * never cost a dial that a signal or the configured size needs.
   */
  lemma DialsAccounted(c: Config, events: seq<Event>)
    requires Run(c, Init(c), events) && !After(c, Init(c), events).maintainer.Filling?
    ensures var s := After(c, Init(c), events);
      && s.dials == s.newPoolSize + s.signals + s.tokens + (if s.maintainer.Blocked? then 1 else 0)
      && s.newPoolSize >= c.connPoolSize
      && s.dials >= c.connPoolSize + s.signals
      && s.tokens <= 100
  {
    hide Run, After;
    InvAlways(c, Init(c), events);
  }

  /** Every dial is under way, in the pool or over, and the counter is the number in the pool. */
  lemma DialersAccounted(c: Config, events: seq<Event>)
    requires Run(c, Init(c), events)
    ensures var s := After(c, Init(c), events);
      s.dials == s.dialing + s.connected + s.waiting + s.ended && s.poolConnections == s.waiting >= 0
  {
    hide Run, After;
    InvAlways(c, Init(c), events);
  }

  // ---- The load reading ------------------------------------------------

  /** Signals counted by a stretch of events. */
  function Signals(events: seq<Event>): nat {
    if events == [] then 0 else (if events[0].Signal? then 1 else 0) + Signals(events[1..])
  }

  predicate NoReset(events: seq<Event>) { forall i :: 0 <= i < |events| ==> !events[i].ResetLoad? }

  lemma {:induction false} LoadGrows(c: Config, s: State, events: seq<Event>)
    requires Run(c, s, events) && NoReset(events)
    requires s.maintainer.LoadRead?
    ensures After(c, s, events).maintainer == s.maintainer
    ensures After(c, s, events).loadConnections == s.loadConnections + Signals(events)
    ensures After(c, s, events).missed == s.missed && After(c, s, events).measured == s.measured
    decreases |events|
  {
    if events != [] {
      assert forall i :: 0 <= i < |events[1..]| ==> events[1..][i] == events[i + 1];
      StepWhileReading(c, s, events[0]);
      LoadGrows(c, Step(c, s, events[0]), events[1..]);
    }
  }

  lemma StepWhileReading(c: Config, s: State, e: Event)
    requires Enabled(s, e) && s.maintainer.LoadRead? && !e.ResetLoad?
    ensures var t := Step(c, s, e);
      && t.maintainer == s.maintainer && t.missed == s.missed && t.measured == s.measured
      && t.loadConnections == s.loadConnections + if e.Signal? then 1 else 0
  {
    hide Grows, Shrinks, Average;
  }

  /**
   * The load is read and set to zero in two operations. A load tick accounts for every signal so
   * far exactly if none arrives between the two; each one that does is never measured.
   */
  lemma LoadReadExactlyIff(c: Config, s: State, between: seq<Event>)
    requires Inv(c, s) && Enabled(s, ReadLoad) && Run(c, Step(c, s, ReadLoad), between) && NoReset(between)
    ensures var t := After(c, Step(c, s, ReadLoad), between);
      && Enabled(t, ResetLoad)
      && var u := Step(c, t, ResetLoad);
         && u.loadConnections == 0
         && u.missed == s.missed + Signals(between)
         && (u.measured == u.seen - s.missed <==> Signals(between) == 0)
  {
    hide Grows, Shrinks, Average;
    var r := Step(c, s, ReadLoad);
    InvKept(c, s, ReadLoad);
    LoadGrows(c, r, between);
    InvAlways(c, r, between);
    InvKept(c, After(c, r, between), ResetLoad);
  }

  // ---- A full token channel --------------------------------------------

  predicate NoServe(events: seq<Event>) { forall i :: 0 <= i < |events| ==> !events[i].Serve? }

  /**
   * A maintainer blocked on its token stays blocked, starts no dial and measures nothing until the
   * server sends a signal: the pool cannot grow by itself again.
   */
  lemma {:induction false} BlockedUntilServed(c: Config, s: State, events: seq<Event>)
    requires s.maintainer.Blocked? && s.tokens == 100 && Run(c, s, events) && NoServe(events)
    ensures var t := After(c, s, events);
      t.maintainer.Blocked? && t.tokens == 100 && t.dials == s.dials && t.newPoolSize == s.newPoolSize
    decreases |events|
  {
    if events != [] {
      assert forall i :: 0 <= i < |events[1..]| ==> events[1..][i] == events[i + 1];
      BlockedUntilServed(c, Step(c, s, events[0]), events[1..]);
    }
  }

  /** Ticks add the number of waiting tunnels each; ten of them average to it again. */
  lemma {:induction false} TicksAdd(c: Config, s: State, n: nat)
    requires Inv(c, s) && s.maintainer.Selecting?
    decreases n
    ensures var ticks := seq(n, _ => PoolTick);
      && Run(c, s, ticks)
      && After(c, s, ticks) == s.(poolConnectionsSum := s.poolConnectionsSum + n * s.waiting)
    ensures n == 10 && s.poolConnectionsSum == 0 ==>
      Average(After(c, s, seq(n, _ => PoolTick)).poolConnectionsSum) == s.waiting
  {
    if n > 0 {
      var next := Step(c, s, PoolTick);
      InvKept(c, s, PoolTick);
      TicksAdd(c, next, n - 1);
      assert seq(n, _ => PoolTick)[1..] == seq(n - 1, _ => PoolTick);
      assert s.waiting + (n - 1) * s.waiting == n * s.waiting;
    }
  }
}
