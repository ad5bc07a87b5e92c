/**
 `apply` as it really runs: a load and a later store, each atomic on its own,
 with one goroutine per event. An apply is finished when it found its record
 stale at the load, or when it has stored it.
 */
module ApplyRace {
  import opened Tenants
  import opened LastWriter

  datatype Micro = Load(r: Record) | Store(r: Record)

  datatype Race = Race(cells: Cells, done: multiset<Record>)

  const Start := Race(Cells(map[], multiset{}), multiset{})

  predicate Enabled(s: Race, m: Micro) {
    m.Store? ==> m.r in s.cells.writing
  }

  function Step(s: Race, m: Micro): Race
    requires Enabled(s, m)
  {
    match m
    case Load(r) => Race(LoadCells(s.cells, r), if Stale(s.cells.entries, r) then s.done + multiset{r} else s.done)
    case Store(r) => Race(StoreCells(s.cells, r), s.done + multiset{r})
  }

  predicate Runs(s: Race, ms: seq<Micro>)
    decreases |ms|
  {
    ms == [] || (Enabled(s, ms[0]) && Runs(Step(s, ms[0]), ms[1..]))
  }

  function After(s: Race, ms: seq<Micro>): Race
    requires Runs(s, ms)
    decreases |ms|
  {
    if ms == [] then s else After(Step(s, ms[0]), ms[1..])
  }

  /** The entries are finished records, and no finished record is newer than its tenant's entry. */
  ghost predicate Greatest(s: Race) {
    && (forall id :: id in s.cells.entries ==> Record(id, s.cells.entries[id].banned, s.cells.entries[id].at) in s.done)
    && (forall r :: r in s.done ==> r.id in s.cells.entries && r.at <= s.cells.entries[r.id].at)
  }

  /** The store about to happen replaces something strictly newer: the check that only the load makes. */
  predicate Regresses(s: Race, m: Micro) {
    m.Store? && Stale(s.cells.entries, m.r)
  }

  ghost predicate AlwaysGreatest(s: Race, ms: seq<Micro>)
    requires Runs(s, ms)
    decreases |ms|
  {
    Greatest(s) && (ms != [] ==> AlwaysGreatest(Step(s, ms[0]), ms[1..]))
  }

  predicate NeverRegresses(s: Race, ms: seq<Micro>)
    requires Runs(s, ms)
    decreases |ms|
  {
    ms != [] ==> !Regresses(s, ms[0]) && NeverRegresses(Step(s, ms[0]), ms[1..])
  }

  lemma LoadGreatest(s: Race, r: Record)
    requires Greatest(s)
    ensures Greatest(Step(s, Load(r)))
  {
  }

  lemma StoreGreatest(s: Race, r: Record)
    requires Greatest(s) && r in s.cells.writing
    ensures Greatest(Step(s, Store(r))) <==> !Stale(s.cells.entries, r)
  {
    var s' := Step(s, Store(r));
    if Stale(s.cells.entries, r) {
      var e := s.cells.entries[r.id];
      var newer := Record(r.id, e.banned, e.at);
      assert newer in s.done;
      assert newer in s'.done && s'.cells.entries[r.id].at < newer.at;
    } else {
      forall id | id in s'.cells.entries
        ensures Record(id, s'.cells.entries[id].banned, s'.cells.entries[id].at) in s'.done
      {
        assert id == r.id || s'.cells.entries[id] == s.cells.entries[id];
      }
      forall o | o in s'.done
        ensures o.id in s'.cells.entries && o.at <= s'.cells.entries[o.id].at
      {
        assert o == r || o in s.done;
      }
    }
  }

  lemma StepGreatest(s: Race, m: Micro)
    requires Greatest(s) && Enabled(s, m)
    ensures Greatest(Step(s, m)) <==> !Regresses(s, m)
  {
    match m
    case Load(r) => LoadGreatest(s, r);
    case Store(r) => StoreGreatest(s, r);
  }

  /** Last-writer-wins holds at every point of a run exactly when no store overwrites something newer. */
  lemma {:induction false} GreatestUnlessRegression(s: Race, ms: seq<Micro>)
    requires Runs(s, ms) && Greatest(s)
    ensures AlwaysGreatest(s, ms) <==> NeverRegresses(s, ms)
    decreases |ms|
  {
    if ms == [] {
    } else {
      StepGreatest(s, ms[0]);
      if !Regresses(s, ms[0]) {
        GreatestUnlessRegression(Step(s, ms[0]), ms[1..]);
      }
    }
  }

  // ---- The same condition, read off the schedule ----

  /** Two stores of one tenant, the later one with the smaller timestamp. */
  predicate OutOfOrder(ms: seq<Micro>, j: nat, k: nat) {
    && j < k < |ms| && ms[j].Store? && ms[k].Store?
    && ms[j].r.id == ms[k].r.id && ms[j].r.at > ms[k].r.at
  }

  /** The record loaded at i and stored at k is overtaken in between by the store of a newer one. */
  predicate Overtaken(ms: seq<Micro>, i: nat, j: nat, k: nat) {
    i < j && OutOfOrder(ms, j, k) && ms[i] == Load(ms[k].r)
  }

  lemma OutOfOrderTail(m: Micro, rest: seq<Micro>)
    ensures (exists j: nat, k: nat :: OutOfOrder([m] + rest, j, k)) <==>
            || (exists j: nat, k: nat :: OutOfOrder(rest, j, k))
            || (m.Store? &&
                exists k :: 0 <= k < |rest| && rest[k].Store? && rest[k].r.id == m.r.id && m.r.at > rest[k].r.at)
  {
    var ms := [m] + rest;
    if j: nat, k: nat :| OutOfOrder(ms, j, k) {
      if j > 0 {
        assert OutOfOrder(rest, j - 1, k - 1);
      } else {
        assert rest[k - 1] == ms[k];
      }
    }
    if j: nat, k: nat :| OutOfOrder(rest, j, k) {
      assert OutOfOrder(ms, j + 1, k + 1);
    }
    if m.Store? {
      if k :| 0 <= k < |rest| && rest[k].Store? && rest[k].r.id == m.r.id && m.r.at > rest[k].r.at {
        assert OutOfOrder(ms, 0, k + 1);
      }
    }
  }

  /** Every store of the schedule is at least as new as what the entries hold at its start. */
  predicate NoneStale(entries: Entries, ms: seq<Micro>) {
    forall k :: 0 <= k < |ms| && ms[k].Store? ==> !Stale(entries, ms[k].r)
  }

  lemma {:induction false} RegressionIsDisorder(s: Race, ms: seq<Micro>)
    requires Runs(s, ms)
    ensures NeverRegresses(s, ms) <==> NoneStale(s.cells.entries, ms) && !exists j: nat, k: nat :: OutOfOrder(ms, j, k)
    decreases |ms|
  {
    if ms == [] {
    } else {
      var m, rest := ms[0], ms[1..];
      assert ms == [m] + rest;
      var s1 := Step(s, m);
      RegressionIsDisorder(s1, rest);
      OutOfOrderTail(m, rest);
      NoneStaleTail(s.cells.entries, m, rest);
    }
  }

  lemma NoneStaleTail(entries: Entries, m: Micro, rest: seq<Micro>)
    ensures NoneStale(entries, [m] + rest) <==> (m.Store? ==> !Stale(entries, m.r)) && NoneStale(entries, rest)
  {
    var ms := [m] + rest;
    assert ms[0] == m;
    assert forall k :: 0 <= k < |rest| ==> ms[k + 1] == rest[k];
  }

  /** While nothing regresses, a record that is stale and not being written stays so. */
  lemma {:induction false} StaleStaysOut(s: Race, ms: seq<Micro>, r: Record)
    requires Runs(s, ms) && NeverRegresses(s, ms)
    requires Stale(s.cells.entries, r) && r !in s.cells.writing
    ensures r !in After(s, ms).cells.writing
    decreases |ms|
  {
    if ms == [] {
    } else {
      StaleStaysOut(Step(s, ms[0]), ms[1..], r);
    }
  }

  /** What is being written was loaded. */
  lemma {:induction false} WritingWasLoaded(s: Race, ms: seq<Micro>, r: Record)
    requires Runs(s, ms) && r in After(s, ms).cells.writing
    ensures r in s.cells.writing || Load(r) in ms
    decreases |ms|
  {
    if ms == [] {
    } else {
      WritingWasLoaded(Step(s, ms[0]), ms[1..], r);
      assert ms == [ms[0]] + ms[1..];
    }
  }

  lemma {:induction false} Compose(s: Race, a: seq<Micro>, b: seq<Micro>)
    requires Runs(s, a + b)
    ensures Runs(s, a) && Runs(After(s, a), b) && After(s, a + b) == After(After(s, a), b)
    ensures NeverRegresses(s, a + b) ==> NeverRegresses(After(s, a), b)
    decreases |a|
  {
    if a == [] {
      assert a + b == b;
    } else {
      assert (a + b)[0] == a[0] && (a + b)[1..] == a[1..] + b;
      Compose(Step(s, a[0]), a[1..], b);
    }
  }

  /** A record that is being written although a store has made it stale was loaded before that store. */
  lemma LoadedBefore(a: seq<Micro>, mid: seq<Micro>, r: Record)
    requires Runs(Start, a + mid) && NeverRegresses(Start, a + mid)
    requires r in After(Start, a + mid).cells.writing
    requires Runs(Start, a) && Stale(After(Start, a).cells.entries, r)
    ensures Load(r) in a
  {
    Compose(Start, a, mid);
    if r in After(Start, a).cells.writing {
      WritingWasLoaded(Start, a, r);
    } else {
      StaleStaysOut(After(Start, a), mid, r);
    }
  }

  lemma StoreMakesStale(a: seq<Micro>, newer: Record, r: Record)
    requires Runs(Start, a + [Store(newer)]) && newer.id == r.id && newer.at > r.at
    ensures Stale(After(Start, a + [Store(newer)]).cells.entries, r)
  {
    Compose(Start, a, [Store(newer)]);
    assert [Store(newer)][1..] == [];
  }

  lemma StoreWasWriting(a: seq<Micro>, r: Record, rest: seq<Micro>)
    requires Runs(Start, a + ([Store(r)] + rest))
    ensures Runs(Start, a) && r in After(Start, a).cells.writing
  {
    Compose(Start, a, [Store(r)] + rest);
  }

  /** The first store that comes too late belongs to a record loaded before the newer one was stored. */
  lemma FirstLateStore(ms: seq<Micro>, j: nat, k: nat)
    requires Runs(Start, ms) && OutOfOrder(ms, j, k)
    requires !exists i: nat, l: nat :: OutOfOrder(ms[..k], i, l)
    ensures exists i: nat :: Overtaken(ms, i, j, k)
  {
    var r := ms[k].r;
    assert ms == ms[..k] + ([Store(r)] + ms[k + 1..]);
    StoreWasWriting(ms[..k], r, ms[k + 1..]);
    RegressionIsDisorder(Start, ms[..k]);
    var a, mid := ms[..j] + [Store(ms[j].r)], ms[j + 1..k];
    assert ms[..k] == a + mid;
    Compose(Start, a, mid);
    StoreMakesStale(ms[..j], ms[j].r, r);
    LoadedBefore(a, mid, r);
    var i :| 0 <= i < |a| && a[i] == Load(r);
    assert Overtaken(ms, i, j, k);
  }

  lemma {:induction false} DisorderIsOvertaking(ms: seq<Micro>, n: nat)
    requires Runs(Start, ms) && n <= |ms|
    requires exists j: nat, k: nat :: OutOfOrder(ms[..n], j, k)
    ensures exists i: nat, j: nat, k: nat :: Overtaken(ms, i, j, k)
    decreases n
  {
    var j: nat, k: nat :| OutOfOrder(ms[..n], j, k);
    if exists i: nat, l: nat :: OutOfOrder(ms[..k], i, l) {
      DisorderIsOvertaking(ms, k);
    } else {
      assert OutOfOrder(ms, j, k);
      FirstLateStore(ms, j, k);
    }
  }

  /**
   Last-writer-wins holds at every point of a run exactly when no record is
   overtaken: loaded, then a newer one of its tenant stored, then stored itself.
   */
  lemma RaceCondition(ms: seq<Micro>)
    requires Runs(Start, ms)
    ensures AlwaysGreatest(Start, ms) <==> !exists i: nat, j: nat, k: nat :: Overtaken(ms, i, j, k)
  {
    GreatestUnlessRegression(Start, ms);
    RegressionIsDisorder(Start, ms);
    if exists j: nat, k: nat :: OutOfOrder(ms, j, k) {
      assert ms[..|ms|] == ms;
      DisorderIsOvertaking(ms, |ms|);
    }
  }

  /** Two overlapping applies of one tenant can leave the older record, which no serial order does. */
  lemma StaleRecordCanWin(id: TenantId)
    ensures var older, newer := Record(id, true, 1), Record(id, false, 2);
            var ms := [Load(older), Load(newer), Store(newer), Store(older)];
            && Runs(Start, ms)
            && newer in After(Start, ms).done
            && Lookup(After(Start, ms).cells.entries, id)
            && !Lookup(MergeAll(map[], [older, newer]), id)
            && !Lookup(MergeAll(map[], [newer, older]), id)
  {
    var older, newer := Record(id, true, 1), Record(id, false, 2);
    var ms := [Load(older), Load(newer), Store(newer), Store(older)];
    var s1 := Step(Start, ms[0]);
    var s2 := Step(s1, ms[1]);
    assert s2.cells.writing == multiset{older, newer};
    var s3 := Step(s2, ms[2]);
    assert s3.cells.writing == multiset{older};
    var s4 := Step(s3, ms[3]);
    assert Runs(s4, []) && After(s4, []) == s4;
    RunCons(s3, Store(older), []);
    RunCons(s2, Store(newer), [Store(older)] + []);
    RunCons(s1, Load(newer), [Store(newer)] + ([Store(older)] + []));
    RunCons(Start, Load(older), [Load(newer)] + ([Store(newer)] + ([Store(older)] + [])));
    assert ms == [Load(older)] + ([Load(newer)] + ([Store(newer)] + ([Store(older)] + [])));
    SerialPair(older, newer);
    SerialPair(newer, older);
  }

  lemma RunCons(s: Race, m: Micro, rest: seq<Micro>)
    requires Enabled(s, m) && Runs(Step(s, m), rest)
    ensures Runs(s, [m] + rest) && After(s, [m] + rest) == After(Step(s, m), rest)
  {
    assert ([m] + rest)[1..] == rest;
  }

  lemma SerialPair(a: Record, b: Record)
    ensures MergeAll(map[], [a, b]) == Merge(Merge(map[], a), b)
  {
    assert [a, b][..1] == [a] && [a][..0] == [];
    assert MergeAll(map[], [a]) == Merge(map[], a);
  }

  // ---- Applies of one tenant that do not overlap ----

  predicate NonOverlapping(s: Race, ms: seq<Micro>)
    requires Runs(s, ms)
    decreases |ms|
  {
    ms != [] ==> (ms[0].Load? ==> Alone(s.cells, ms[0].r.id)) && NonOverlapping(Step(s, ms[0]), ms[1..])
  }

  ghost predicate AllExclusive(c: Cells) {
    forall id :: Exclusive(c, id)
  }

  lemma LoadAloneExclusive(s: Race, m: Micro)
    requires Enabled(s, m) && AllExclusive(s.cells)
    requires m.Load? ==> Alone(s.cells, m.r.id)
    ensures AllExclusive(Step(s, m).cells) && !Regresses(s, m)
  {
    assert Exclusive(s.cells, m.r.id);
    forall id
      ensures Exclusive(Step(s, m).cells, id)
    {
      assert Exclusive(s.cells, id);
    }
  }

  lemma {:induction false} NonOverlappingNeverRegresses(s: Race, ms: seq<Micro>)
    requires Runs(s, ms) && NonOverlapping(s, ms) && AllExclusive(s.cells)
    ensures NeverRegresses(s, ms)
    decreases |ms|
  {
    if ms == [] {
    } else {
      LoadAloneExclusive(s, ms[0]);
      NonOverlappingNeverRegresses(Step(s, ms[0]), ms[1..]);
    }
  }

  /** Non-overlapping applies keep last-writer-wins, whatever order the goroutines run in. */
  lemma NonOverlappingIsSafe(ms: seq<Micro>)
    requires Runs(Start, ms) && NonOverlapping(Start, ms)
    ensures AlwaysGreatest(Start, ms)
  {
    NonOverlappingNeverRegresses(Start, ms);
    GreatestUnlessRegression(Start, ms);
  }

  // ---- No apply is forgotten ----

  /** The records whose apply has begun. */
  function Begun(ms: seq<Micro>): multiset<Record> {
    if ms == [] then multiset{} else Loads(ms[0]) + Begun(ms[1..])
  }

  function Loads(m: Micro): multiset<Record> {
    if m.Load? then multiset{m.r} else multiset{}
  }

  lemma StepAccounted(s: Race, m: Micro)
    requires Enabled(s, m)
    ensures Step(s, m).done + Step(s, m).cells.writing == s.done + s.cells.writing + Loads(m)
  {
    if m.Store? {
      assert s.cells.writing == (s.cells.writing - multiset{m.r}) + multiset{m.r};
    }
  }

  lemma Regroup(a: multiset<Record>, b: multiset<Record>, c: multiset<Record>)
    ensures (a + b) + c == a + (b + c)
  {
  }

  /** Every apply that has begun is finished or being written, exactly once. */
  lemma {:induction false} AppliesAccounted(s: Race, ms: seq<Micro>)
    requires Runs(s, ms)
    ensures After(s, ms).done + After(s, ms).cells.writing == s.done + s.cells.writing + Begun(ms)
    decreases |ms|
  {
    if ms == [] {
    } else {
      var s1 := Step(s, ms[0]);
      AppliesAccounted(s1, ms[1..]);
      StepAccounted(s, ms[0]);
      Regroup(s.done + s.cells.writing, Loads(ms[0]), Begun(ms[1..]));
    }
  }

  /** Once all applies of a run without overtaking have ended, each tenant's entry is its greatest record of all. */
  lemma AllDoneIsGreatest(ms: seq<Micro>, r: Record)
    requires Runs(Start, ms) && After(Start, ms).cells.writing == multiset{}
    requires !exists i: nat, j: nat, k: nat :: Overtaken(ms, i, j, k)
    requires r in Begun(ms)
    ensures var entries := After(Start, ms).cells.entries;
            && r.id in entries && r.at <= entries[r.id].at
            && Record(r.id, entries[r.id].banned, entries[r.id].at) in Begun(ms)
  {
    RaceCondition(ms);
    DoneIsGreatest(ms, r);
  }

  lemma DoneIsGreatest(ms: seq<Micro>, r: Record)
    requires Runs(Start, ms) && After(Start, ms).cells.writing == multiset{}
    requires AlwaysGreatest(Start, ms) && r in Begun(ms)
    ensures var entries := After(Start, ms).cells.entries;
            && r.id in entries && r.at <= entries[r.id].at
            && Record(r.id, entries[r.id].banned, entries[r.id].at) in Begun(ms)
  {
    var s := After(Start, ms);
    AppliesAccounted(Start, ms);
    GreatestAtTheEnd(Start, ms);
    assert s.done + s.cells.writing == s.done;
    assert Start.done + Start.cells.writing + Begun(ms) == Begun(ms);
    assert r in s.done;
  }

  lemma {:induction false} GreatestAtTheEnd(s: Race, ms: seq<Micro>)
    requires Runs(s, ms) && AlwaysGreatest(s, ms)
    ensures Greatest(After(s, ms))
    decreases |ms|
  {
    if ms == [] {
    } else {
      GreatestAtTheEnd(Step(s, ms[0]), ms[1..]);
    }
  }
}
