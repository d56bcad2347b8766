/**
 * Saving while traffic keeps arriving: saveUsageData reads the file at one moment, empties the store
 * at a later one and rewrites the file at a still later one, and the ticker starts each save in its
 * own goroutine.
 */
module UsageRuns {
  import opened UsageStore

  /** A save that has read the file and then, maybe, taken the store, and has not written yet. */
  datatype Save = Opened(existing: seq<PortUsage>) | Collected(existing: seq<PortUsage>, current: map<int, u64>)

  function Current(save: Save): map<int, u64> { if save.Collected? then save.current else map[] }

  datatype State = State(file: seq<PortUsage>, memory: map<int, u64>, saving: seq<Save>)

  datatype Event =
    | Add(port: int, usage: u64)
    | Begin
    | Collect(which: nat)
    | Finish(which: nat, merged: seq<PortUsage>, written: bool)

  ghost predicate Enabled(s: State, e: Event) {
    && (e.Collect? ==> e.which < |s.saving| && s.saving[e.which].Opened?)
    && (e.Finish? ==>
        && e.which < |s.saving| && s.saving[e.which].Collected?
        && Lists(e.merged, Merge(LastWins(s.saving[e.which].existing), s.saving[e.which].current)))
  }

  ghost function Step(s: State, e: Event): State
    requires Enabled(s, e)
  {
    match e
    case Add(p, n) => s.(memory := AddTo(s.memory, p, n))
    case Begin => s.(saving := s.saving + [Opened(s.file)])
    case Collect(i) => s.(memory := map[], saving := s.saving[i := Collected(s.saving[i].existing, s.memory)])
    case Finish(i, merged, written) =>
      s.(file := if written then merged else s.file, saving := s.saving[..i] + s.saving[i + 1..])
  }

  ghost predicate Run(s: State, events: seq<Event>)
    decreases |events|
  {
    events == [] || (Enabled(s, events[0]) && Run(Step(s, events[0]), events[1..]))
  }

  ghost function After(s: State, events: seq<Event>): State
    requires Run(s, events)
    decreases |events|
  {
    if events == [] then s else After(Step(s, events[0]), events[1..])
  }

  function Taken(saving: seq<Save>, p: int): u64 {
    if saving == [] then 0 else Add64(At(Current(saving[0]), p), Taken(saving[1..], p))
  }

  /** What the program still knows of a port: on file, taken by a save, in memory. */
  function Ledger(s: State, p: int): u64 {
    Add64(Add64(Reported(s.file, p), Taken(s.saving, p)), At(s.memory, p))
  }

  function Counts(e: Event, p: int): u64 { if e.Add? && e.port == p then e.usage else 0 }

  function Added(events: seq<Event>, p: int): u64 {
    if events == [] then 0 else Add64(Counts(events[0], p), Added(events[1..], p))
  }

  /** No save begins while another is under way, and every write succeeds. */
  ghost predicate Orderly(s: State, events: seq<Event>)
    requires Run(s, events)
    decreases |events|
  {
    events == [] || (
      && (events[0].Begin? ==> s.saving == [])
      && (events[0].Finish? ==> events[0].written)
      && Orderly(Step(s, events[0]), events[1..]))
  }

  // ---- One step --------------------------------------------------------

  lemma {:induction false} TakenWithout(saving: seq<Save>, i: nat, p: int)
    requires i < |saving|
    ensures Taken(saving, p) == Add64(At(Current(saving[i]), p), Taken(saving[..i] + saving[i + 1..], p))
  {
    if i == 0 {
      assert saving[..0] + saving[1..] == saving[1..];
    } else {
      TakenWithout(saving[1..], i - 1, p);
      var less := saving[..i] + saving[i + 1..];
      assert less[1..] == saving[1..][..i - 1] + saving[1..][i..];
      Swap(At(Current(saving[0]), p), At(Current(saving[i]), p), Taken(less[1..], p));
    }
  }

  lemma {:induction false} TakenSnoc(saving: seq<Save>, x: Save, p: int)
    ensures Taken(saving + [x], p) == Add64(Taken(saving, p), At(Current(x), p))
  {
    TakenWithout(saving + [x], |saving|, p);
    assert (saving + [x])[..|saving|] + (saving + [x])[|saving| + 1..] == saving;
  }

  /**
   * Exactly when finishing a save keeps the books of a port: for a written save, the last entry it
   * read for the port must report what the file reports now; a failed one must have taken nothing.
   */
  lemma FinishConserves(s: State, e: Event, p: int)
    requires e.Finish? && Enabled(s, e)
    ensures Ledger(Step(s, e), p) == Ledger(s, p) <==>
      if e.written then Reported(s.file, p) == At(LastWins(s.saving[e.which].existing), p)
      else At(s.saving[e.which].current, p) == 0
  {
    var save := s.saving[e.which];
    var rest := Taken(s.saving[..e.which] + s.saving[e.which + 1..], p);
    var cur := At(save.current, p);
    TakenWithout(s.saving, e.which, p);
    MergedReports(save.existing, save.current, e.merged, p);
    if e.written {
      WrittenBooks(Reported(s.file, p), At(LastWins(save.existing), p), cur, rest, At(s.memory, p));
    } else {
      LostBooks(Reported(s.file, p), cur, rest, At(s.memory, p));
    }
  }

  lemma WrittenBooks(file: u64, was: u64, cur: u64, rest: u64, mem: u64)
    ensures Add64(Add64(Add64(was, cur), rest), mem) == Add64(Add64(file, Add64(cur, rest)), mem)
       <==> file == was
  {
    var both := Add64(cur, rest);
    Add64Assoc(was, cur, rest);
    Cancel(Add64(was, both), Add64(file, both), mem);
    Cancel(was, file, both);
  }

  lemma LostBooks(file: u64, cur: u64, rest: u64, mem: u64)
    ensures Add64(Add64(file, rest), mem) == Add64(Add64(file, Add64(cur, rest)), mem) <==> cur == 0
  {
    var both := Add64(cur, rest);
    Cancel(Add64(file, rest), Add64(file, both), mem);
    assert Add64(file, rest) == Add64(rest, file) && Add64(file, both) == Add64(both, file);
    Cancel(rest, both, file);
    Cancel(0, cur, rest);
  }

  lemma AddCounts(s: State, port: int, usage: u64, p: int)
    ensures Ledger(Step(s, Add(port, usage)), p)
         == if p == port then Add64(Ledger(s, p), usage) else Ledger(s, p)
  {
    Add64Assoc(Add64(Reported(s.file, p), Taken(s.saving, p)), At(s.memory, p), usage);
  }

  lemma BeginConserves(s: State, p: int)
    ensures Ledger(Step(s, Begin), p) == Ledger(s, p)
  {
    TakenSnoc(s.saving, Opened(s.file), p);
  }

  lemma CollectConserves(s: State, i: nat, p: int)
    requires Enabled(s, Collect(i))
    ensures Ledger(Step(s, Collect(i)), p) == Ledger(s, p)
  {
    var more := Step(s, Collect(i)).saving;
    TakenWithout(s.saving, i, p);
    TakenWithout(more, i, p);
    assert more[..i] + more[i + 1..] == s.saving[..i] + s.saving[i + 1..];
    Add64Assoc(Reported(s.file, p), Taken(s.saving, p), At(s.memory, p));
  }

  // ---- Whole runs ------------------------------------------------------

  ghost predicate Ordered(s: State) {
    NoRepeats(s.file) && (s.saving == [] || (|s.saving| == 1 && s.saving[0].existing == s.file))
  }

  lemma StepConserves(s: State, e: Event, p: int)
    requires Ordered(s) && Enabled(s, e)
    requires e.Begin? ==> s.saving == []
    requires e.Finish? ==> e.written
    ensures Ledger(Step(s, e), p) == Add64(Ledger(s, p), Counts(e, p))
    ensures Ordered(Step(s, e))
  {
    match e {
      case Add(port, n) => AddCounts(s, port, n, p);
      case Begin => BeginConserves(s, p);
      case Collect(i) => CollectConserves(s, i, p);
      case Finish(i, merged, written) =>
        LastWinsIsReported(s.file, p);
        FinishConserves(s, e, p);
    }
  }

  /**
   * Whatever the order in which maps are ranged over and however traffic and saves interleave,
   * every byte counted for a port is on file, in a pending save or in memory.
   */
  lemma {:induction false} UsageConserved(s: State, events: seq<Event>, p: int)
    requires Ordered(s) && Run(s, events) && Orderly(s, events)
    ensures Ledger(After(s, events), p) == Add64(Ledger(s, p), Added(events, p))
    ensures Ordered(After(s, events))
    decreases |events|
  {
    if events != [] {
      StepConserves(s, events[0], p);
      UsageConserved(Step(s, events[0]), events[1..], p);
      Add64Assoc(Ledger(s, p), Counts(events[0], p), Added(events[1..], p));
    }
  }

  lemma Prepend(s: State, e: Event, events: seq<Event>)
    requires Enabled(s, e) && Run(Step(s, e), events)
    ensures Run(s, [e] + events) && After(s, [e] + events) == After(Step(s, e), events)
    ensures forall p :: Added([e] + events, p) == Add64(Counts(e, p), Added(events, p))
  {
    assert ([e] + events)[1..] == events;
  }

  lemma OneEntry(p: int, n: u64)
    ensures Lists([PortUsage(p, n)], Merge(map[], map[p := n]))
    ensures Reported([PortUsage(p, n)], p) == n
  {
    var one := [PortUsage(p, n)];
    assert one[..0] == [];
    assert LastWins(one) == map[p := n];
    MergeIntoNothing(p, n);
  }

  lemma MergeIntoNothing(p: int, n: u64)
    ensures Merge(map[], map[p := n]) == map[p := n]
  {
    var a: map<int, u64>, b: map<int, u64> := map[], map[p := n];
    var m := Merge(a, b);
    assert a.Keys + b.Keys == {p};
    assert m.Keys == {p} && m[p] == Add64(At(a, p), At(b, p)) == n;
  }

  /** Two saves that overlap lose what the first one wrote: 12 bytes counted, 7 left. */
  lemma OverlappingSavesLose() returns (s: State, events: seq<Event>)
    ensures Ordered(s) && Ledger(s, 80) == 0
    ensures Run(s, events) && Added(events, 80) == 12
    ensures After(s, events).saving == [] && Ledger(After(s, events), 80) == 7
  {
    OneEntry(80, 7);
    events := FinishBoth();
    events := BeginBoth(events);
    s := State([], map[], []);
  }

  const SAVE5 := Collected([], map[80 := 5])
  const SAVE7 := Collected([], map[80 := 7])

  /** One save: what has arrived is counted, the file is read and the store taken. */
  lemma BeginOne(s: State, n: u64, end: seq<Event>) returns (events: seq<Event>)
    requires s.memory == map[] && s.file == []
    requires Run(s.(saving := s.saving + [Collected([], map[80 := n])]), end)
    ensures Run(s, events) && Added(events, 80) == Add64(n, Added(end, 80))
    ensures After(s, events) == After(s.(saving := s.saving + [Collected([], map[80 := n])]), end)
  {
    var k := |s.saving|;
    var s1 := s.(memory := map[80 := n]);
    var s2 := s1.(saving := s.saving + [Opened([])]);
    assert Step(s2, Collect(k)) == s.(saving := s.saving + [Collected([], map[80 := n])]);
    Prepend(s2, Collect(k), end);
    events := [Collect(k)] + end;
    assert Step(s1, Begin) == s2;
    Prepend(s1, Begin, events);
    events := [Begin] + events;
    assert Step(s, Add(80, n)) == s1;
    Prepend(s, Add(80, n), events);
    events := [Add(80, n)] + events;
  }

  /** Its beginning: each save takes what has arrived since the one before. */
  lemma BeginBoth(end: seq<Event>) returns (events: seq<Event>)
    requires Run(State([], map[], [SAVE5, SAVE7]), end) && Added(end, 80) == 0
    ensures Run(State([], map[], []), events) && Added(events, 80) == 12
    ensures After(State([], map[], []), events) == After(State([], map[], [SAVE5, SAVE7]), end)
  {
    assert [SAVE5] + [SAVE7] == [SAVE5, SAVE7] && [] + [SAVE5] == [SAVE5];
    events := BeginOne(State([], map[], [SAVE5]), 7, end);
    events := BeginOne(State([], map[], []), 5, events);
  }

  /** The end of that run: both saves are written, each over the file it had read. */
  lemma FinishBoth() returns (events: seq<Event>)
    ensures var s := State([], map[], [SAVE5, SAVE7]);
      && Run(s, events) && Added(events, 80) == 0
      && After(s, events) == State([PortUsage(80, 7)], map[], [])
  {
    OneEntry(80, 5);
    OneEntry(80, 7);
    var s4 := State([], map[], [SAVE5, SAVE7]);
    var s5 := State([PortUsage(80, 5)], map[], [SAVE7]);
    var s6 := State([PortUsage(80, 7)], map[], []);
    var f5, f7 := Finish(0, s5.file, true), Finish(0, s6.file, true);
    assert Step(s4, f5) == s5;
    assert Step(s5, f7) == s6;
    Prepend(s5, f7, []);
    Prepend(s4, f5, [f7] + []);
    events := [f5] + ([f7] + []);
  }
}
