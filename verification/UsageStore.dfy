/** Traffic accounting per port: the in-memory store, the log file and the periodic merge of one into the other. */
module UsageStore {

  const TWO64: nat := 0x1_0000_0000_0000_0000
  type u64 = x: int | 0 <= x < TWO64

  /** uint64 addition wraps. */
  function Add64(a: u64, b: u64): u64 { if a + b < TWO64 then a + b else a + b - TWO64 }

  lemma Wraps(a: u64, b: u64)
    ensures Add64(a, b) as int == (a as int + b as int) % 18446744073709551616
  {
  }

  datatype PortUsage = PortUsage(port: int, usage: u64)

  /** What the log file holds when saveUsageData opens it. */
  datatype Log = Missing | Unreadable | Entries(list: seq<PortUsage>)

  function At(m: map<int, u64>, p: int): u64 { if p in m then m[p] else 0 }

  ghost predicate NoRepeats(list: seq<PortUsage>) {
    forall i, j :: 0 <= i < j < |list| ==> list[i].port != list[j].port
  }

  /** All traffic a list of entries reports for one port. */
  function Reported(list: seq<PortUsage>, p: int): u64 {
    if list == [] then 0
    else
      var rest := Reported(list[..|list| - 1], p);
      if list[|list| - 1].port == p then Add64(rest, list[|list| - 1].usage) else rest
  }

  function Total(list: seq<PortUsage>): u64 {
    if list == [] then 0 else Add64(Total(list[..|list| - 1]), list[|list| - 1].usage)
  }

  /** The map that a list builds when later entries overwrite earlier ones. */
  function LastWins(list: seq<PortUsage>): map<int, u64> {
    if list == [] then map[]
    else LastWins(list[..|list| - 1])[list[|list| - 1].port := list[|list| - 1].usage]
  }

  function AddTo(m: map<int, u64>, p: int, n: u64): map<int, u64> { m[p := Add64(At(m, p), n)] }

  function Merge(a: map<int, u64>, b: map<int, u64>): map<int, u64> {
    map p | p in a.Keys + b.Keys :: Add64(At(a, p), At(b, p))
  }

  /** `list` enumerates `m`, each port once, in whatever order the map was ranged over. */
  ghost predicate Lists(list: seq<PortUsage>, m: map<int, u64>) {
    NoRepeats(list) && LastWins(list) == m
  }

  lemma {:induction false} LastWinsKeys(list: seq<PortUsage>)
    ensures forall p :: p in LastWins(list) <==> exists i :: 0 <= i < |list| && list[i].port == p
  {
    if list != [] {
      var n := |list| - 1;
      LastWinsKeys(list[..n]);
      forall p ensures p in LastWins(list) <==> exists i :: 0 <= i < |list| && list[i].port == p {
        if p in LastWins(list[..n]) {
          var i :| 0 <= i < n && list[..n][i].port == p;
          assert list[i].port == p;
        }
        if i :| 0 <= i < |list| && list[i].port == p && i < n {
          assert list[..n][i].port == p;
        }
      }
    }
  }

  /** Without repeated ports, overwriting loses nothing: the map holds what the list reports. */
  lemma {:induction false} LastWinsIsReported(list: seq<PortUsage>, p: int)
    requires NoRepeats(list)
    ensures At(LastWins(list), p) == Reported(list, p)
  {
    if list != [] {
      var n := |list| - 1;
      LastWinsIsReported(list[..n], p);
      LastWinsKeys(list[..n]);
    }
  }

  /** Sums modulo 2^64 can be cancelled. */
  lemma Cancel(a: u64, b: u64, c: u64)
    ensures Add64(a, c) == Add64(b, c) <==> a == b
  {
  }

  /** Reading the file into a map loses nothing of this port: its last entry reports all of it. */
  predicate KeepsPort(list: seq<PortUsage>, p: int) { At(LastWins(list), p) == Reported(list, p) }

  /** A file that repeats a port may lose what the earlier entries report. */
  lemma RepeatedPortLoses(p: int, lost: u64, n: u64)
    ensures KeepsPort([PortUsage(p, lost), PortUsage(p, n)], p) <==> lost == 0
  {
    var two := [PortUsage(p, lost), PortUsage(p, n)];
    var one := [PortUsage(p, lost)];
    assert two[..1] == one && one[..0] == [];
    assert Reported(one, p) == lost;
    assert Reported(two, p) == Add64(lost, n);
    assert At(LastWins(two), p) == n;
  }

  /** Ranging over a map: `list` holds what was visited and `rest` what was not. */
  ghost predicate Visited(list: seq<PortUsage>, rest: map<int, u64>, all: map<int, u64>) {
    && NoRepeats(list)
    && LastWins(list).Keys !! rest.Keys
    && LastWins(list) + rest == all
  }

  lemma VisitNone(all: map<int, u64>)
    ensures Visited([], all, all)
  {
    assert map[] + all == all;
  }

  /** Once nothing is left, the list enumerates the map. */
  lemma VisitedAll(list: seq<PortUsage>, rest: map<int, u64>, all: map<int, u64>)
    requires Visited(list, rest, all) && rest.Keys == {}
    ensures Lists(list, all)
  {
    assert LastWins(list) + rest == LastWins(list);
  }

  lemma Visit(list: seq<PortUsage>, rest: map<int, u64>, all: map<int, u64>, p: int)
    requires Visited(list, rest, all) && p in rest
    ensures Visited(list + [PortUsage(p, rest[p])], rest - {p}, all)
  {
    var longer := list + [PortUsage(p, rest[p])];
    LastWinsKeys(list);
    assert longer[..|list|] == list;
    assert LastWins(longer) == LastWins(list)[p := rest[p]];
    assert LastWins(longer) + (rest - {p}) == LastWins(list) + rest;
    forall i, j | 0 <= i < j < |longer| ensures longer[i].port != longer[j].port {
      if j == |list| { assert list[i].port in LastWins(list); }
    }
  }

  lemma Removed<V>(m: map<int, V>, p: int)
    requires p in m
    ensures |m - {p}| < |m|
  {
    assert m.Keys == (m - {p}).Keys + {p};
    assert |m.Keys| == |m| && |(m - {p}).Keys| == |m - {p}|;
  }

  /** The next key a range over a map visits: any one of them. */
  method SomeKey<V>(m: map<int, V>) returns (k: int)
    requires m.Keys != {}
    ensures k in m
  {
    assert (forall x :: x !in m.Keys) ==> m.Keys == {};
    k :| k in m.Keys;
  }

  lemma Add64Assoc(a: u64, b: u64, c: u64)
    ensures Add64(a, Add64(b, c)) == Add64(Add64(a, b), c)
  {
  }

  lemma Swap(a: u64, b: u64, c: u64)
    ensures Add64(a, Add64(b, c)) == Add64(b, Add64(a, c))
  {
    Add64Assoc(a, b, c);
    Add64Assoc(b, a, c);
  }

  // ---- What the sums mean ----------------------------------------------

  lemma {:induction false} TotalAppends(a: seq<PortUsage>, b: seq<PortUsage>)
    ensures Total(a + b) == Add64(Total(a), Total(b))
  {
    if b == [] {
      assert a + b == a;
    } else {
      var n := |b| - 1;
      TotalAppends(a, b[..n]);
      assert (a + b)[..|a + b| - 1] == a + b[..n];
      Add64Assoc(Total(a), Total(b[..n]), b[n].usage);
    }
  }

  /** The total adds every entry once. */
  lemma TotalAdds(a: seq<PortUsage>, b: seq<PortUsage>, e: PortUsage)
    ensures Total([]) == 0 && Total([e]) == e.usage
    ensures Total(a + b) == Add64(Total(a), Total(b))
  {
    assert [e][..0] == [];
    TotalAppends(a, b);
  }

  lemma TotalWithout(list: seq<PortUsage>, i: nat)
    requires i < |list|
    ensures Total(list) == Add64(list[i].usage, Total(list[..i] + list[i + 1..]))
  {
    hide Total, Add64;
    var front, back := list[..i], list[i + 1..];
    assert list == front + ([list[i]] + back);
    TotalAppends(front, [list[i]] + back);
    TotalAppends([list[i]], back);
    TotalAppends(front, back);
    TotalAdds(front, back, list[i]);
    Swap(Total(front), list[i].usage, Total(back));
  }

  lemma TakenOut(s: seq<PortUsage>, i: nat)
    requires i < |s|
    ensures multiset(s) == multiset(s[..i] + s[i + 1..]) + multiset{s[i]}
  {
    assert s == s[..i] + ([s[i]] + s[i + 1..]);
  }

  lemma SameRest(a: multiset<PortUsage>, b: multiset<PortUsage>, x: PortUsage)
    requires a + multiset{x} == b + multiset{x}
    ensures a == b
  {
    assert a == (a + multiset{x}) - multiset{x};
    assert b == (b + multiset{x}) - multiset{x};
  }

  /** The order in which a map was ranged over does not change the total. */
  lemma {:induction false} TotalForgetsOrder(a: seq<PortUsage>, b: seq<PortUsage>)
    requires multiset(a) == multiset(b)
    ensures Total(a) == Total(b)
    decreases |a|
  {
    hide Total, Add64;
    if a == [] {
      assert |b| == |multiset(b)| == 0;
    } else {
      assert a[0] in multiset(b);
      var i :| 0 <= i < |b| && b[i] == a[0];
      var less := b[..i] + b[i + 1..];
      assert a[1..] == a[..0] + a[1..];
      TakenOut(a, 0);
      TakenOut(b, i);
      SameRest(multiset(a[1..]), multiset(less), a[0]);
      TotalForgetsOrder(a[1..], less);
      TotalWithout(a, 0);
      assert a[..0] + a[1..] == a[1..];
      TotalWithout(b, i);
    }
  }

  lemma {:induction false} ReportedAppends(a: seq<PortUsage>, b: seq<PortUsage>, p: int)
    ensures Reported(a + b, p) == Add64(Reported(a, p), Reported(b, p))
  {
    if b == [] {
      assert a + b == a;
    } else {
      var n := |b| - 1;
      ReportedAppends(a, b[..n], p);
      assert (a + b)[..|a + b| - 1] == a + b[..n];
      Add64Assoc(Reported(a, p), Reported(b[..n], p), b[n].usage);
    }
  }

  /** What a list reports for a port: every entry of that port once and no other. */
  lemma ReportedAdds(a: seq<PortUsage>, b: seq<PortUsage>, e: PortUsage, p: int)
    ensures Reported([], p) == 0
    ensures e.port == p ==> Reported([e], p) == e.usage
    ensures e.port != p ==> Reported([e], p) == 0
    ensures Reported(a + b, p) == Add64(Reported(a, p), Reported(b, p))
  {
    assert [e][..0] == [];
    ReportedAppends(a, b, p);
  }

  /** The last entry of a port stands; the ones before it are gone. */
  lemma LastEntryStands(before: seq<PortUsage>, e: PortUsage, after: seq<PortUsage>)
    requires forall i :: 0 <= i < |after| ==> after[i].port != e.port
    ensures e.port in LastWins(before + [e] + after) && LastWins(before + [e] + after)[e.port] == e.usage
  {
    LastEntryKept(before + [e], after, e.port);
    assert (before + [e])[..|before|] == before;
  }

  lemma {:induction false} LastEntryKept(front: seq<PortUsage>, after: seq<PortUsage>, p: int)
    requires p in LastWins(front) && forall i :: 0 <= i < |after| ==> after[i].port != p
    ensures p in LastWins(front + after) && LastWins(front + after)[p] == LastWins(front)[p]
  {
    if after == [] {
      assert front + after == front;
    } else {
      var n := |after| - 1;
      LastEntryKept(front, after[..n], p);
      assert (front + after)[..|front + after| - 1] == front + after[..n];
    }
  }

  /** The merge knows exactly the ports of both sides and adds what they say. */
  lemma MergeAdds(a: map<int, u64>, b: map<int, u64>, p: int)
    ensures p in Merge(a, b) <==> p in a || p in b
    ensures p in a && p in b ==> Merge(a, b)[p] == Add64(a[p], b[p])
    ensures p in a && p !in b ==> Merge(a, b)[p] == a[p]
    ensures p !in a && p in b ==> Merge(a, b)[p] == b[p]
  {
  }

  /** Entries are stored under their own port. */
  ghost predicate Keyed(store: map<int, PortUsage>) { forall p :: p in store ==> store[p].port == p }

  ghost function Usages(store: map<int, PortUsage>): map<int, u64> { map p | p in store :: store[p].usage }

  lemma UsagesRemoved(store: map<int, PortUsage>, p: int)
    requires Keyed(store) && p in store
    ensures Keyed(store - {p}) && Usages(store - {p}) == Usages(store) - {p}
    ensures store[p] == PortUsage(p, Usages(store)[p])
  {
  }

  // ---- The store -------------------------------------------------------

  class Usage {
    var dataStore: map<int, PortUsage>
    var totalTraffic: u64
    var log: Log

    constructor (log: Log)
      ensures dataStore == map[] && totalTraffic == 0 && this.log == log
    {
      dataStore, totalTraffic, this.log := map[], 0, log;
    }

    ghost predicate Valid()
      reads this
    {
      Keyed(dataStore)
    }

    ghost function Memory(): map<int, u64>
      reads this
    {
      Usages(dataStore)
    }

    /** What is known of a port, on file and in memory. */
    ghost function Known(p: int): u64
      reads this
    {
      Add64(if log.Entries? then Reported(log.list, p) else 0, At(Memory(), p))
    }

    method AddOrUpdatePort(port: int, usage: u64)
      requires Valid()
      modifies this`dataStore
      ensures Valid()
      ensures Memory() == AddTo(old(Memory()), port, usage)
      ensures old(port in dataStore) ==>
        dataStore == old(dataStore)[port := PortUsage(port, Add64(old(dataStore)[port].usage, usage))]
      ensures old(port !in dataStore) ==> dataStore == old(dataStore)[port := PortUsage(port, usage)]
    {
      ghost var was := Memory();
      if port in dataStore {
        var portUsage := dataStore[port];
        dataStore := dataStore[port := portUsage.(usage := Add64(portUsage.usage, usage))];
      } else {
        dataStore := dataStore[port := PortUsage(port, usage)];
      }
      assert Memory() == AddTo(was, port, usage);
    }

    /** collectUsageDataFromSyncMap: ranges over the store in no particular order, emptying it. */
    method Collect() returns (data: seq<PortUsage>)
      requires Valid()
      modifies this`dataStore
      ensures dataStore == map[]
      ensures Lists(data, old(Memory()))
    {
      data := [];
      ghost var all := Memory();
      VisitNone(all);
      while dataStore.Keys != {}
        invariant Keyed(dataStore) && Visited(data, Usages(dataStore), all)
        decreases |dataStore|
      {
        var key := SomeKey(dataStore);
        Visit(data, Usages(dataStore), all, key);
        Removed(dataStore, key);
        UsagesRemoved(dataStore, key);
        data := data + [dataStore[key]];
        dataStore := dataStore - {key};
      }
      VisitedAll(data, Usages(dataStore), all);
    }

    /**
     * saveUsageData, with nothing else running. On an undecodable file nothing happens; otherwise
     * the file becomes the merge, in any order, unless writing it fails.
     */
    method SaveUsageData(writes: bool)
      requires Valid()
      modifies this
      ensures Valid()
      ensures old(log).Unreadable? ==> log == old(log) && Memory() == old(Memory()) && totalTraffic == old(totalTraffic)
      ensures !old(log).Unreadable? ==> Memory() == map[]
      ensures !old(log).Unreadable? && !writes ==> log == old(log)
      ensures !old(log).Unreadable? && writes ==>
        && log.Entries?
        && Lists(log.list, Merge(if old(log).Entries? then LastWins(old(log).list) else map[], old(Memory())))
        && totalTraffic == Total(log.list)
      ensures writes && (old(log).Entries? ==> NoRepeats(old(log).list)) ==> forall p :: Known(p) == old(Known(p))
      ensures !old(log).Unreadable? && writes ==>
        forall p :: Known(p) == old(Known(p)) <==> KeepsPort(if old(log).Entries? then old(log).list else [], p)
    {
      if log.Unreadable? {
        return;
      }
      var existing: seq<PortUsage> := if log.Entries? then log.list else [];
      var current := Collect();
      var usageMap := MergeLists(existing, current);
      var merged, total := ToList(usageMap);
      totalTraffic := total;
      if writes {
        log := Entries(merged);
        forall p
          ensures Known(p) == old(Known(p)) <==> KeepsPort(existing, p)
          ensures NoRepeats(existing) ==> KeepsPort(existing, p)
        {
          if NoRepeats(existing) {
            LastWinsIsReported(existing, p);
          }
          MergedReports(existing, old(Memory()), merged, p);
          Cancel(At(LastWins(existing), p), Reported(existing, p), At(old(Memory()), p));
        }
      }
    }
  }

  /** Adding the next current entry to the merge touches only its own port. */
  lemma MergeNext(onFile: map<int, u64>, done: seq<PortUsage>, entry: PortUsage)
    requires NoRepeats(done + [entry])
    ensures Merge(onFile, LastWins(done + [entry]))
         == Merge(onFile, LastWins(done))[entry.port := Add64(At(onFile, entry.port), entry.usage)]
    ensures At(Merge(onFile, LastWins(done)), entry.port) == At(onFile, entry.port)
  {
    LastWinsKeys(done);
    var more := done + [entry];
    assert forall i :: 0 <= i < |done| ==> more[i] == done[i] && more[i].port != more[|done|].port;
    assert (done + [entry])[..|done|] == done;
  }

  /** The merge in a map: later entries of the file win, current ones are added. */
  method MergeLists(existing: seq<PortUsage>, current: seq<PortUsage>) returns (usageMap: map<int, u64>)
    requires NoRepeats(current)
    ensures usageMap == Merge(LastWins(existing), LastWins(current))
  {
    usageMap := map[];
    for i := 0 to |existing|
      invariant usageMap == LastWins(existing[..i])
    {
      assert existing[..i + 1][..i] == existing[..i];
      usageMap := usageMap[existing[i].port := existing[i].usage];
    }
    assert existing[..|existing|] == existing;
    usageMap := AddCurrent(usageMap, current);
  }

  method AddCurrent(onFile: map<int, u64>, current: seq<PortUsage>) returns (usageMap: map<int, u64>)
    requires NoRepeats(current)
    ensures usageMap == Merge(onFile, LastWins(current))
  {
    usageMap := onFile;
    assert Merge(onFile, map[]) == onFile;
    assert current[..0] == [];
    for i := 0 to |current|
      invariant usageMap == Merge(onFile, LastWins(current[..i]))
    {
      var entry := current[i];
      assert current[..i + 1] == current[..i] + [entry];
      MergeNext(onFile, current[..i], entry);
      if entry.port in usageMap {
        usageMap := usageMap[entry.port := Add64(usageMap[entry.port], entry.usage)];
      } else {
        usageMap := usageMap[entry.port := entry.usage];
      }
    }
    assert current[..|current|] == current;
  }

  lemma MergedReports(existing: seq<PortUsage>, memory: map<int, u64>, merged: seq<PortUsage>, p: int)
    requires Lists(merged, Merge(LastWins(existing), memory))
    ensures Reported(merged, p) == Add64(At(LastWins(existing), p), At(memory, p))
    ensures NoRepeats(existing) ==> Reported(merged, p) == Add64(Reported(existing, p), At(memory, p))
  {
    LastWinsIsReported(merged, p);
    if NoRepeats(existing) {
      LastWinsIsReported(existing, p);
    }
  }

  /** Ranging over the merged map: builds the list and the total as it goes. */
  method ToList(m: map<int, u64>) returns (list: seq<PortUsage>, total: u64)
    ensures Lists(list, m)
    ensures total == Total(list)
  {
    list, total := [], 0;
    VisitNone(m);
    var rest := m;
    while rest.Keys != {}
      invariant Visited(list, rest, m)
      invariant total == Total(list)
      decreases |rest|
    {
      var p := SomeKey(rest);
      Visit(list, rest, m, p);
      Removed(rest, p);
      assert (list + [PortUsage(p, rest[p])])[..|list|] == list;
      list, total, rest := list + [PortUsage(p, rest[p])], Add64(total, rest[p]), rest - {p};
    }
    VisitedAll(list, rest, m);
  }
}
