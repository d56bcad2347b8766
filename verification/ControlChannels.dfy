/**
 * The control channels of the tcpmux server: new-connection signals go round robin over the
 * channels that still work, heartbeats prune the extra ones that do not.
 */
module ControlChannels {
  import opened Bytes

  const SG_HB: byte := 0
  const SG_CHAN: byte := 1

  // ---- Choosing a channel ----------------------------------------------

  /** How many entries are true. */
  function Live(flags: seq<bool>): nat {
    if flags == [] then 0 else Live(flags[..|flags| - 1]) + if flags[|flags| - 1] then 1 else 0
  }

  /** The first true position at or after i, or -1. */
  function NextFrom(flags: seq<bool>, i: nat): (r: int)
    requires i <= |flags|
    ensures r == -1 || (i <= r < |flags| && flags[r])
    ensures forall k :: i <= k < |flags| && (r == -1 || k < r) ==> !flags[k]
    decreases |flags| - i
  {
    if i == |flags| then -1 else if flags[i] then i else NextFrom(flags, i + 1)
  }

  /** The first true position at or after `start`, going round once, or -1. */
  function Pick(flags: seq<bool>, start: nat): (r: int)
    requires start < |flags|
    ensures r == -1 <==> forall k :: 0 <= k < |flags| ==> !flags[k]
    ensures r != -1 ==> 0 <= r < |flags| && flags[r]
    ensures r != -1 ==>
      forall k :: 0 <= k < |flags| && (if start <= r then start <= k < r else start <= k || k < r) ==> !flags[k]
  {
    var r := NextFrom(flags, start);
    if r >= 0 then r else NextFrom(flags, 0)
  }

  /** The index behind p, going round: (p + 1) % n. */
  function Behind(p: nat, n: nat): nat
    requires p < n
  {
    if p + 1 == n then 0 else p + 1
  }

  /** The position i places on, going round: (start + i) % n. */
  function Onward(start: nat, i: nat, n: nat): (p: nat)
    requires start < n && i < n
    ensures p < n
  {
    if start + i < n then start + i else start + i - n
  }

  lemma OnwardIs(start: nat, i: nat, n: nat)
    requires start < n && i < n
    ensures Onward(start, i, n) == (start + i) % n
  {
    RoundTheEnd(start, i, n);
  }

  lemma SignalBytes()
    ensures SG_HB == 0 && SG_CHAN == 1
  {
  }

  lemma BehindIs(p: nat, n: nat)
    requires p < n
    ensures Behind(p, n) == (p + 1) % n
  {
    if p + 1 == n {
      assert n % n == 0;
    }
  }

  lemma BehindInRange(p: nat, n: nat)
    requires p < n
    ensures Behind(p, n) % n == Behind(p, n)
  {
  }

  lemma IndexStart(flags: seq<bool>, start: nat)
    requires start < |flags| && Live(flags) > 0
    ensures IndexAfter(flags, start, 0) == start
  {
  }

  lemma OnceRound(r: nat, n: nat)
    requires r < n
    ensures (r + n) % n == r
  {
    var q, m := (r + n) / n, (r + n) % n;
    assert q * n + m == r + n;
    InOrder(q, 0, n);
    InOrder(2, q, n);
  }

  lemma InOrder(a: int, b: int, n: nat)
    ensures a <= b ==> a * n <= b * n
  {
  }

  lemma RoundTheEnd(a: nat, b: nat, n: nat)
    requires a < n && b <= n
    ensures (a + b) % n == if a + b < n then a + b else a + b - n
  {
    if a + b >= n {
      OnceRound(a + b - n, n);
    }
  }

  /** Which channel the t-th of several signals goes to when nothing else changes. */
  function Target(flags: seq<bool>, start: nat, t: nat): int
    requires start < |flags| && Live(flags) > 0
    ensures 0 <= Target(flags, start, t) < |flags| && flags[Target(flags, start, t)]
    decreases t
  {
    SomeLive(flags);
    if t == 0 then Pick(flags, start) else Target(flags, Behind(Pick(flags, start), |flags|), t - 1)
  }

  /** The index after t signals. */
  function IndexAfter(flags: seq<bool>, start: nat, t: nat): nat
    requires start < |flags| && Live(flags) > 0
    ensures IndexAfter(flags, start, t) < |flags|
    decreases t
  {
    SomeLive(flags);
    if t == 0 then start else IndexAfter(flags, Behind(Pick(flags, start), |flags|), t - 1)
  }

  lemma {:induction false} TargetIsPick(flags: seq<bool>, start: nat, t: nat)
    requires start < |flags| && Live(flags) > 0
    ensures Target(flags, start, t) == Pick(flags, IndexAfter(flags, start, t))
    ensures IndexAfter(flags, start, t + 1) == Behind(Target(flags, start, t), |flags|)
    decreases t
  {
    hide Pick, Live;
    SomeLive(flags);
    if t > 0 {
      TargetIsPick(flags, Behind(Pick(flags, start), |flags|), t - 1);
    }
  }

  lemma {:induction false} SomeLive(flags: seq<bool>)
    ensures Live(flags) > 0 <==> exists k :: 0 <= k < |flags| && flags[k]
  {
    if flags != [] {
      var n := |flags| - 1;
      SomeLive(flags[..n]);
      if k :| 0 <= k < |flags| && flags[k] && k < n {
        assert flags[..n][k];
      }
      if k :| 0 <= k < n && flags[..n][k] {
        assert flags[k];
      }
    }
  }

  // ---- Fairness --------------------------------------------------------

  lemma LiveNext(flags: seq<bool>, i: nat)
    requires i < |flags|
    ensures Live(flags[..i + 1]) == Live(flags[..i]) + if flags[i] then 1 else 0
  {
    assert flags[..i + 1][..i] == flags[..i];
  }

  /** Ranks - the number of live channels before one - grow strictly over the live channels. */
  lemma {:induction false} LiveMonotone(flags: seq<bool>, i: nat, j: nat)
    requires i <= j <= |flags|
    ensures Live(flags[..i]) <= Live(flags[..j])
    ensures i < j && flags[i] ==> Live(flags[..i]) < Live(flags[..j])
    ensures (forall k :: i <= k < j ==> !flags[k]) ==> Live(flags[..i]) == Live(flags[..j])
    decreases j - i
  {
    if i < j {
      LiveNext(flags, i);
      LiveMonotone(flags, i + 1, j);
    }
  }

  /** The rank a start position leads to: that of the next live channel, going round. */
  function Rank(flags: seq<bool>, start: nat): nat
    requires start <= |flags| && Live(flags) > 0
  {
    if Live(flags[..start]) == Live(flags) then 0 else Live(flags[..start])
  }

  lemma PickHasRank(flags: seq<bool>, start: nat)
    requires start < |flags| && Live(flags) > 0
    ensures var p := Pick(flags, start); 0 <= p < |flags| && Live(flags[..p]) == Rank(flags, start)
  {
    hide Live, NextFrom;
    SomeLive(flags);
    var n, p := |flags|, Pick(flags, start);
    assert flags[..n] == flags;
    LiveNone(flags);
    if NextFrom(flags, start) >= 0 {
      LiveMonotone(flags, start, p);
      LiveMonotone(flags, p, n);
    } else {
      LiveMonotone(flags, start, n);
      LiveMonotone(flags, 0, p);
    }
  }

  lemma LiveNone(flags: seq<bool>)
    ensures Live(flags[..0]) == 0
  {
  }

  lemma RankBehind(flags: seq<bool>, p: nat)
    requires p < |flags| && flags[p] && Live(flags) > 0
    ensures Live(flags[..p]) < Live(flags)
    ensures Rank(flags, Behind(p, |flags|)) == if Live(flags[..p]) + 1 == Live(flags) then 0 else Live(flags[..p]) + 1
  {
    hide Live;
    var n := |flags|;
    assert flags[..n] == flags;
    LiveNone(flags);
    LiveNext(flags, p);
    LiveMonotone(flags, p + 1, n);
  }

  function Around(r: nat, t: nat, k: nat): int { if r + t < k then r + t else r + t - k }

  lemma {:induction false} TargetHasRank(flags: seq<bool>, start: nat, t: nat)
    requires start < |flags| && 0 <= t < Live(flags)
    ensures Live(flags[..Target(flags, start, t)]) == Around(Rank(flags, start), t, Live(flags))
    ensures Rank(flags, start) < Live(flags)
    decreases t
  {
    hide Live, Pick, Rank;
    SomeLive(flags);
    PickHasRank(flags, start);
    RankBehind(flags, Pick(flags, start));
    if t > 0 {
      TargetHasRank(flags, Behind(Pick(flags, start), |flags|), t - 1);
    }
  }

  lemma SameRank(flags: seq<bool>, a: nat, b: nat)
    requires a < |flags| && b < |flags| && flags[a] && flags[b] && Live(flags[..a]) == Live(flags[..b])
    ensures a == b
  {
    if a < b { LiveMonotone(flags, a, b); } else { LiveMonotone(flags, b, a); }
  }

  /**
   * Fairness: with a fixed set of k working channels, any k consecutive signals reach each of
   * them exactly once, whatever the index was before.
   */
  lemma EachLiveOnce(flags: seq<bool>, start: nat, channel: nat) returns (t: nat)
    requires start < |flags| && channel < |flags| && flags[channel]
    ensures t < Live(flags) && Target(flags, start, t) == channel
    ensures forall u: nat :: u < Live(flags) && u != t ==> Target(flags, start, u) != channel
  {
    hide Live, Rank, Target;
    SomeLive(flags);
    RankBehind(flags, channel);
    TargetHasRank(flags, start, 0);
    var k, rank, r := Live(flags), Live(flags[..channel]), Rank(flags, start);
    t := if rank >= r then rank - r else rank + k - r;
    TargetHasRank(flags, start, t);
    SameRank(flags, Target(flags, start, t), channel);
    forall u: nat | u < k && u != t ensures Target(flags, start, u) != channel {
      TargetHasRank(flags, start, u);
    }
  }

  // ---- The channels ----------------------------------------------------

  function Filter<T>(s: seq<T>, keep: set<T>): seq<T> {
    if s == [] then []
    else Filter(s[..|s| - 1], keep) + if s[|s| - 1] in keep then [s[|s| - 1]] else []
  }

  function Flags<T>(s: seq<T>, live: set<T>): (r: seq<bool>)
    ensures |r| == |s| && forall i :: 0 <= i < |s| ==> r[i] == (s[i] in live)
  {
    seq(|s|, i requires 0 <= i < |s| => s[i] in live)
  }

  /** Only channels that did not work were closed. */
  ghost predicate MoreClosed<T>(closed: set<T>, before: set<T>, live: set<T>) {
    before <= closed && (closed - before) !! live
  }

  /** None of the `count` positions from `start` on, going round, is true. */
  ghost predicate NoneIn(flags: seq<bool>, start: nat, count: nat) {
    forall k :: 0 <= k < |flags| && (start <= k < start + count || k < start + count - |flags|) ==> !flags[k]
  }

  lemma PickIs(flags: seq<bool>, start: nat, count: nat)
    requires start < |flags| && count < |flags| && NoneIn(flags, start, count)
    requires flags[Onward(start, count, |flags|)]
    ensures Pick(flags, start) == Onward(start, count, |flags|)
  {
    hide NextFrom;
    var a, b := NextFrom(flags, start), NextFrom(flags, 0);
  }

  lemma AllTried<T>(channels: seq<T>, works: set<T>, start: nat)
    requires start < |channels| && NoneIn(Flags(channels, works), start, |channels|)
    ensures forall ch :: ch in channels ==> ch !in works
  {
    forall ch | ch in channels ensures ch !in works {
      var k :| 0 <= k < |channels| && channels[k] == ch;
      assert !Flags(channels, works)[k];
    }
  }

  /** One heartbeat for each channel that works, in order. */
  function Heartbeats<T>(channels: seq<T>, works: set<T>): seq<(T, byte)> {
    if channels == [] then []
    else
      var last := channels[|channels| - 1];
      Heartbeats(channels[..|channels| - 1], works) + if last in works then [(last, SG_HB)] else []
  }

  lemma FilterNext<T>(s: seq<T>, keep: set<T>, i: nat)
    requires i < |s|
    ensures Filter(s[..i + 1], keep) == if s[i] in keep then Filter(s[..i], keep) + [s[i]] else Filter(s[..i], keep)
    ensures Heartbeats(s[..i + 1], keep)
      == if s[i] in keep then Heartbeats(s[..i], keep) + [(s[i], 0)] else Heartbeats(s[..i], keep)
  {
    assert s[..i + 1][..i] == s[..i];
  }

  lemma {:induction false} FilterDistinct<T>(s: seq<T>, keep: set<T>)
    ensures forall x :: x in Filter(s, keep) <==> x in s && x in keep
    ensures Distinct(s) ==> Distinct(Filter(s, keep))
  {
    if s != [] {
      var n := |s| - 1;
      FilterDistinct(s[..n], keep);
      assert s == s[..n] + [s[n]];
      if Distinct(s) {
        assert s[n] !in Filter(s[..n], keep);
      }
    }
  }

  lemma FilterNone<T>(s: seq<T>, keep: set<T>)
    ensures Filter(s[..0], keep) == [] && Heartbeats(s[..0], keep) == [] && Elems(s[..0]) == {}
  {
  }

  function Elems<T>(s: seq<T>): set<T> { set x | x in s }

  lemma ElemsAre<T>(s: seq<T>)
    ensures forall x :: x in s ==> x in Elems(s)
    ensures forall x :: x in Elems(s) ==> x in s
  {
  }

  /** The channels at the first `count` positions from `start` on, going round. */
  function Tried<T>(channels: seq<T>, start: nat, count: nat): set<T>
    requires start < |channels| && count <= |channels|
  {
    if count == 0 then {}
    else Tried(channels, start, count - 1) + {channels[Onward(start, count - 1, |channels|)]}
  }

  /** Position k is among these. */
  predicate Reached(n: nat, start: nat, count: nat, k: nat) { start <= k < start + count || k < start + count - n }

  lemma {:induction false} TriedIs<T>(channels: seq<T>, start: nat, count: nat)
    requires start < |channels| && count <= |channels|
    ensures forall k :: 0 <= k < |channels| && Reached(|channels|, start, count, k) ==>
      channels[k] in Tried(channels, start, count)
    ensures forall x :: x in Tried(channels, start, count) ==>
      exists k :: 0 <= k < |channels| && channels[k] == x && Reached(|channels|, start, count, k)
  {
    if count > 0 {
      TriedIs(channels, start, count - 1);
      assert channels[Onward(start, count - 1, |channels|)] in Tried(channels, start, count);
    }
  }

  lemma ElemsNext<T>(s: seq<T>, i: nat)
    requires i < |s|
    ensures Elems(s[..i + 1]) == Elems(s[..i]) + {s[i]}
    ensures Distinct(s) ==> s[i] !in Elems(s[..i])
  {
    assert s[..i + 1] == s[..i] + [s[i]];
  }

  lemma NothingTried<T>(channels: seq<T>, flags: seq<bool>, start: nat)
    requires start < |channels| == |flags|
    ensures Tried(channels, start, 0) == {} && NoneIn(flags, start, 0)
  {
  }

  lemma TriedNext<T>(channels: seq<T>, before: set<T>, start: nat, i: nat)
    requires start < |channels| && i < |channels|
    ensures before + Tried(channels, start, i) + {channels[Onward(start, i, |channels|)]}
      == before + Tried(channels, start, i + 1)
  {
  }

  lemma NoneNext(flags: seq<bool>, start: nat, i: nat)
    requires start < |flags| && i < |flags| && NoneIn(flags, start, i) && !flags[Onward(start, i, |flags|)]
    ensures NoneIn(flags, start, i + 1)
  {
  }

  lemma NoElems<T>(s: seq<T>)
    requires s == []
    ensures Elems(s) == {}
  {
  }

  lemma TriedAll<T>(channels: seq<T>, start: nat)
    requires start < |channels|
    ensures Tried(channels, start, |channels|) == Elems(channels)
  {
    hide Tried, Elems;
    TriedIs(channels, start, |channels|);
    ElemsAre(channels);
    forall x | x in channels ensures x in Tried(channels, start, |channels|) {
      var k :| 0 <= k < |channels| && channels[k] == x;
      assert Reached(|channels|, start, |channels|, k);
    }
    var a, b := Tried(channels, start, |channels|), Elems(channels);
    assert forall x :: x in b ==> x in a;
    assert b <= a;
    forall x | x in a ensures x in b {
      assert x in channels;
    }
    assert a <= b;
  }

  predicate Distinct<T(==)>(s: seq<T>) { forall i, j :: 0 <= i < j < |s| ==> s[i] != s[j] }

  lemma AppendLast<T>(a: seq<T>, b: seq<T>, x: T)
    ensures a + (b + [x]) == a + b + [x]
  {
  }

  lemma AllDistinct<T>(main: Option<T>, extras: seq<T>)
    requires Distinct(extras) && (main.Some? ==> main.value !in extras)
    ensures main.Some? ==> Distinct([main.value] + extras)
    ensures Distinct([] + extras)
  {
  }

  /** The extra channels that work are the channels that work without the main one. */
  lemma {:induction false} FilterBehind<T>(main: T, extras: seq<T>, keep: set<T>)
    requires main !in extras
    ensures Filter([main] + extras, keep - {main}) == Filter(extras, keep)
  {
    var n := |extras|;
    if extras == [] {
      assert [main] + extras == [main] && [main][..0] == [];
    } else {
      FilterBehind(main, extras[..n - 1], keep);
      assert ([main] + extras)[..n] == [main] + extras[..n - 1];
    }
  }

  /** A write to a channel works when it is among `live` and was not closed here. */
  class ControlSet<T(==)> {
    var main: Option<T>
    var extras: seq<T>
    var rrControlIdx: nat
    var closed: set<T>
    /** The bytes sent, in order, with the channel each went to. */
    var sent: seq<(T, byte)>

    constructor (main: Option<T>)
      ensures this.main == main && extras == [] && rrControlIdx == 0 && closed == {} && sent == []
    {
      this.main, extras, rrControlIdx, closed, sent := main, [], 0, {}, [];
    }

    ghost predicate Valid()
      reads this
    {
      && Distinct(extras)
      && (main.Some? ==> main.value !in extras)
    }

    function Channels(): seq<T>
      reads this
    {
      (if main.Some? then [main.value] else []) + extras
    }

    method SendByte(ch: T, b: byte, live: set<T>) returns (err: bool)
      modifies this`sent
      ensures err <==> ch !in live || ch in closed
      ensures sent == if err then old(sent) else old(sent) + [(ch, b)]
    {
      if ch !in live || ch in closed {
        return true;
      }
      sent := sent + [(ch, b)];
      return false;
    }

    /**
     * sendNewConnSignalRoundRobin: at most one attempt per channel, from the current index on; it
     * fails exactly when no channel works, and otherwise signals the first that does and moves on
     * behind it. The index is brought into range first, so pruning cannot leave it dangling.
     */
    method SendNewConnSignalRoundRobin(live: set<T>) returns (err: bool, ghost attempts: nat)
      modifies this`rrControlIdx, this`closed, this`sent
      ensures attempts <= |Channels()|
      ensures err <==> forall ch :: ch in Channels() ==> ch !in live - old(closed)
      ensures err ==> sent == old(sent) && rrControlIdx == old(rrControlIdx)
      ensures !err ==>
        var n := |Channels()|;
        var p := Pick(Flags(Channels(), live - old(closed)), old(rrControlIdx) % n);
        && 0 <= p < n && sent == old(sent) + [(Channels()[p], SG_CHAN)] && rrControlIdx == Behind(p, n)
        && attempts > 0 && p == Onward(old(rrControlIdx) % n, attempts - 1, n)
        && closed == old(closed) + Tried(Channels(), old(rrControlIdx) % n, attempts - 1)
      ensures err ==> attempts == |Channels()| && closed == old(closed) + Elems(Channels())
      ensures MoreClosed(closed, old(closed), live)
    {
      hide Pick, Flags, Behind, Elems, Tried, NoneIn;
      attempts := 0;
      var channels := Channels();
      if |channels| == 0 {
        NoElems(channels);
        return true, 0;
      }
      var n := |channels|;
      var start := rrControlIdx % n;
      ghost var flags := Flags(channels, live - closed);
      NothingTried(channels, flags, start);
      for i := 0 to n
        invariant attempts == i
        invariant sent == old(sent) && rrControlIdx == old(rrControlIdx)
        invariant NoneIn(flags, start, i)
        invariant MoreClosed(closed, old(closed), live)
        invariant closed == old(closed) + Tried(channels, start, i)
      {
        RoundTheEnd(start, i, n);
        TriedNext(channels, old(closed), start, i);
        var idx := (start + i) % n;
        var e := SendByte(channels[idx], SG_CHAN, live);
        attempts := attempts + 1;
        if !e {
          PickIs(flags, start, i);
          assert idx == Onward(start, i, n);
          BehindIs(idx, n);
          rrControlIdx := (idx + 1) % n;
          return false, attempts;
        }
        NoneNext(flags, start, i);
        closed := closed + {channels[idx]};
      }
      AllTried(channels, live - old(closed), start);
      TriedAll(channels, start);
      return true, attempts;
    }

    /**
     * channelHandler serving `count` requests in a row while the same channels work: none fails,
     * and the t-th goes to the t-th target of the round.
     */
    method ServeSignals(count: nat, live: set<T>) returns (err: bool)
      requires Live(Flags(Channels(), live - closed)) > 0
      modifies this`rrControlIdx, this`closed, this`sent
      ensures !err && |sent| == |old(sent)| + count && sent[..|old(sent)|] == old(sent)
      ensures |Channels()| == |old(Channels())| > 0
      ensures var channels := old(Channels());
        var flags := Flags(channels, live - old(closed));
        var start := old(rrControlIdx) % |channels|;
        forall t :: 0 <= t < count ==> sent[|old(sent)| + t] == (channels[Target(flags, start, t)], SG_CHAN)
      ensures MoreClosed(closed, old(closed), live)
    {
      hide Live, Flags, Pick, Target, IndexAfter, Behind;
      ghost var channels, works := Channels(), live - closed;
      ghost var flags := Flags(channels, works);
      SomeLive(flags);
      ghost var n := |channels|;
      ghost var start := rrControlIdx % n;
      IndexStart(flags, start);
      for i := 0 to count
        invariant Channels() == channels && live - closed == works && MoreClosed(closed, old(closed), live)
        invariant rrControlIdx % n == IndexAfter(flags, start, i)
        invariant |sent| == |old(sent)| + i && sent[..|old(sent)|] == old(sent)
        invariant forall t :: 0 <= t < i ==> sent[|old(sent)| + t] == (channels[Target(flags, start, t)], SG_CHAN)
      {
        TargetIsPick(flags, start, i);
        BehindInRange(Target(flags, start, i), n);
        var e, _ := SendNewConnSignalRoundRobin(live);
        if e {
          assert false;
        }
      }
      return false;
    }

    /**
     * broadcastHeartbeat: afterwards the extra channels are exactly those that work, in their old
     * order; it fails exactly when there is no channel or the main one does not work.
     */
    method BroadcastHeartbeat(live: set<T>) returns (err: bool)
      requires Valid()
      modifies this`extras, this`closed, this`sent
      ensures Valid()
      ensures extras == Filter(old(extras), live - old(closed))
      ensures err <==> if main.Some? then main.value !in live - old(closed) else old(extras) == []
      ensures closed == old(closed) + (Elems(old(Channels())) - live)
      ensures sent == old(sent) + Heartbeats(old(Channels()), live - old(closed))
    {
      hide Filter, Heartbeats, Elems, Distinct;
      var channels := Channels();
      FilterNone(channels, live);
      if |channels| == 0 {
        assert channels[..0] == channels && extras[..0] == extras;
        FilterNone(extras, live - closed);
        FilterNone(channels, live - closed);
        return true;
      }
      ghost var works := live - closed;
      ghost var others := if main.Some? then works - {main.value} else works;
      var aliveExtras: seq<T>, mainAlive := [], true;
      FilterNone(channels, others);
      FilterNone(channels, works);
      AllDistinct(main, extras);
      for i := 0 to |channels|
        invariant extras == old(extras)
        invariant closed == old(closed) + (Elems(channels[..i]) - live)
        invariant mainAlive <==> main.None? || i == 0 || main.value in works
        invariant aliveExtras == Filter(channels[..i], others)
        invariant sent == old(sent) + Heartbeats(channels[..i], works)
      {
        var ch := channels[i];
        FilterNext(channels, works, i);
        FilterNext(channels, others, i);
        ElemsNext(channels, i);
        AppendLast(old(sent), Heartbeats(channels[..i], works), (ch, SG_HB));
        var e := SendByte(ch, SG_HB, live);
        if e {
          if main.Some? && ch == main.value {
            mainAlive := false;
          }
          closed := closed + {ch};
          continue;
        }
        if main.None? || ch != main.value {
          aliveExtras := aliveExtras + [ch];
        }
      }
      assert channels[..|channels|] == channels;
      if main.Some? {
        FilterBehind(main.value, extras, works);
      }
      FilterDistinct(extras, works);
      extras := aliveExtras;
      return !mainAlive;
    }
  }
}
