/**
 * The code of poolMaintainer and of channelHandler's SG_Chan branch as each runs in its goroutine:
 * its actions are steps of the machine in PoolMachine, in this order and on these branches.
 */
module ClientPool {
  import opened PoolMachine

  ghost predicate Leads(c: Config, s: State, trace: seq<Event>, t: State) {
    Run(c, s, trace) && After(c, s, trace) == t
  }

  lemma {:induction false} LeadsOn(c: Config, s: State, trace: seq<Event>, t: State, e: Event)
    requires Leads(c, s, trace, t) && Enabled(t, e)
    ensures Leads(c, s, trace + [e], Step(c, t, e))
    decreases |trace|
  {
    hide Enabled, Step;
    if trace == [] {
      assert trace + [e] == [e] && [e][1..] == [];
      LeadsNowhere(c, Step(c, t, e));
    } else {
      LeadsOn(c, Step(c, s, trace[0]), trace[1..], t, e);
      assert (trace + [e])[1..] == trace[1..] + [e];
    }
  }

  lemma LeadsNowhere(c: Config, s: State)
    ensures Leads(c, s, [], s)
  {
  }

  /** The books of the pool: every dial is one of the pool, one for a signal or one for a token. */
  ghost predicate Balanced(c: Config, s: State) {
    && s.newPoolSize >= c.connPoolSize
    && s.dials == s.newPoolSize + s.signals + s.tokens + Pending(s)
    && s.dials >= c.connPoolSize + s.signals
    && s.poolConnections == s.waiting
  }

  lemma LeadsKeepsInv(c: Config, s: State, trace: seq<Event>, t: State)
    requires Leads(c, s, trace, t) && Inv(c, s)
    ensures Inv(c, t)
    ensures !t.maintainer.Filling? ==> Balanced(c, t)
  {
    hide Run, After;
    InvAlways(c, s, trace);
  }

  class TcpTransport {
    const config: Config
    var newPoolSize: int
    var poolConnectionsSum: nat
    var poolConnections: int
    var loadConnections: nat
    /** The fill of controlFlow. */
    var controlFlow: nat
    /** The goroutines started so far with `go c.tunnelDialer()`. */
    var dials: nat
    var maintainer: Maintainer
    ghost var serving: bool
    ghost var signals: nat
    ghost var seen: nat
    ghost var measured: nat
    ghost var missed: nat
    ghost var dialing: nat
    ghost var connected: nat
    ghost var waiting: nat
    ghost var ended: nat

    constructor (config: Config)
      ensures this.config == config && Snapshot() == Init(config)
    {
      this.config, newPoolSize, maintainer := config, config.connPoolSize, Filling(0);
      poolConnectionsSum, poolConnections, loadConnections, controlFlow, dials := 0, 0, 0, 0, 0;
      serving, signals, seen, measured, missed := false, 0, 0, 0, 0;
      dialing, connected, waiting, ended := 0, 0, 0, 0;
    }

    ghost function Snapshot(): State
      reads this
    {
      State(maintainer, newPoolSize, poolConnectionsSum, poolConnections, loadConnections, controlFlow, serving,
            dials, signals, seen, measured, missed, dialing, connected, waiting, ended)
    }

    /** go c.tunnelDialer() */
    method GoTunnelDialer()
      modifies this`dials, this`dialing
      ensures dials == old(dials) + 1 && dialing == old(dialing) + 1
    {
      dials := dials + 1;
      dialing := dialing + 1;
    }

    /** The first loop of poolMaintainer. */
    method FillPool() returns (ghost trace: seq<Event>)
      requires maintainer == Filling(0) && Inv(config, Snapshot())
      modifies this`dials, this`dialing, this`maintainer
      ensures Leads(config, old(Snapshot()), trace, Snapshot())
      ensures trace == seq(config.connPoolSize + 1, _ => Fill)
      ensures Inv(config, Snapshot()) && Balanced(config, Snapshot())
      ensures maintainer == Selecting && dials == old(dials) + config.connPoolSize
    {
      hide Run, After, Inv, Balanced;
      ghost var start := Snapshot();
      LeadsNowhere(config, start);
      trace := [];
      for i := 0 to config.connPoolSize
        invariant Leads(config, start, trace, Snapshot()) && trace == seq(i, _ => Fill)
        invariant maintainer == Filling(i) && dials == old(dials) + i
      {
        LeadsOn(config, start, trace, Snapshot(), Fill);
        GoTunnelDialer();
        maintainer := Filling(i + 1);
        trace := trace + [Fill];
      }
      LeadsOn(config, start, trace, Snapshot(), Fill);
      maintainer := Selecting;
      trace := trace + [Fill];
      LeadsKeepsInv(config, start, trace, Snapshot());
    }

    /** One load tick that no signal interrupts: both averages, the resets and the decision. */
    method LoadTick() returns (ghost trace: seq<Event>)
      requires maintainer == Selecting && Inv(config, Snapshot())
      modifies this
      ensures Leads(config, old(Snapshot()), trace, Snapshot()) && trace == [ReadLoad, ResetLoad, Decide]
      ensures Inv(config, Snapshot()) && Balanced(config, Snapshot())
      ensures var load, pool := Average(old(loadConnections)), Average(old(poolConnectionsSum));
        var shrinks := Shrinks(config, load, pool) && old(newPoolSize) > config.connPoolSize;
        && newPoolSize == old(newPoolSize) + (if Grows(config, load, pool) then 1 else 0) - (if shrinks then 1 else 0)
        && dials == old(dials) + (if Grows(config, load, pool) then 1 else 0)
        && controlFlow == old(controlFlow) + (if shrinks && old(controlFlow) < 100 then 1 else 0)
        && maintainer == (if shrinks && old(controlFlow) >= 100 then Blocked else Selecting)
      ensures loadConnections == 0 && poolConnectionsSum == 0 && missed == old(missed)
      ensures measured == old(seen) - old(missed)
    {
      hide Run, After, Grows, Shrinks, Average, Balanced;
      ghost var start := Snapshot();
      LeadsNowhere(config, start);
      LeadsOn(config, start, [], start, ReadLoad);
      maintainer := LoadRead(loadConnections);
      LeadsOn(config, start, [] + [ReadLoad], Snapshot(), ResetLoad);
      var loadConnectionsAvg, poolConnectionsAvg := Average(loadConnections), Average(poolConnectionsSum);
      measured := measured + loadConnections;
      loadConnections, poolConnectionsSum := 0, 0;
      maintainer := Measured(loadConnectionsAvg, poolConnectionsAvg);
      trace := [] + [ReadLoad] + [ResetLoad];
      LeadsOn(config, start, trace, Snapshot(), Decide);
      trace := trace + [Decide];
      Resize(loadConnectionsAvg, poolConnectionsAvg);
      LeadsKeepsInv(config, start, trace, Snapshot());
    }

    /** The decision of a load tick: one connection more, one token more, or nothing. */
    method Resize(load: nat, pool: nat)
      requires maintainer == Measured(load, pool)
      modifies this`newPoolSize, this`dials, this`dialing, this`controlFlow, this`maintainer
      ensures Snapshot() == Step(config, old(Snapshot()), Decide)
      ensures var shrinks := Shrinks(config, load, pool) && old(newPoolSize) > config.connPoolSize;
        && newPoolSize == old(newPoolSize) + (if Grows(config, load, pool) then 1 else 0) - (if shrinks then 1 else 0)
        && dials == old(dials) + (if Grows(config, load, pool) then 1 else 0)
        && controlFlow == old(controlFlow) + (if shrinks && old(controlFlow) < 100 then 1 else 0)
        && maintainer == (if shrinks && old(controlFlow) >= 100 then Blocked else Selecting)
    {
      hide Grows, Shrinks;
      GrowOrShrink(config, load, pool);
      maintainer := Selecting;
      if Grows(config, load, pool) {
        newPoolSize := newPoolSize + 1;
        GoTunnelDialer();
      } else if Shrinks(config, load, pool) && newPoolSize > config.connPoolSize {
        newPoolSize := newPoolSize - 1;
        if controlFlow < TOKENS {
          controlFlow := controlFlow + 1;
        } else {
          maintainer := Blocked;
        }
      }
    }

    /** The SG_Chan branch of channelHandler: a token is used up, or a dial started. */
    method HandleChan() returns (ghost trace: seq<Event>)
      requires !serving && Inv(config, Snapshot())
      modifies this
      ensures Leads(config, old(Snapshot()), trace, Snapshot()) && trace == [Signal, Serve]
      ensures Inv(config, Snapshot()) && (!maintainer.Filling? ==> Balanced(config, Snapshot()))
      ensures signals == old(signals) + 1 && loadConnections == old(loadConnections) + 1
      ensures dials + old(controlFlow) == old(dials) + controlFlow + 1
      ensures dials == old(dials) <==> old(controlFlow) > 0
    {
      hide Run, After, Inv, Balanced;
      ghost var start := Snapshot();
      LeadsNowhere(config, start);
      LeadsOn(config, start, [], start, Signal);
      loadConnections := loadConnections + 1;
      seen, serving := seen + 1, true;
      LeadsOn(config, start, [] + [Signal], Snapshot(), Serve);
      trace := [] + [Signal] + [Serve];
      signals, serving := signals + 1, false;
      if controlFlow > 0 {
        controlFlow := controlFlow - 1;
      } else {
        GoTunnelDialer();
      }
      LeadsKeepsInv(config, start, trace, Snapshot());
    }
  }
}
