/** Runs in which overlaps leave a checker wrong for good: of two transitions, and of two applies. */
module PropagationRaces {
  import opened Tenants
  import opened LastWriter
  import Q = RetryRounds
  import opened Propagation
  import opened PropagationTheorems

  // ---- Two transitions that race for their timestamps ----

  lemma Prepend(sys: System, s: State, a: Action, rest: seq<Action>, id: TenantId)
    requires Enabled(sys, s, a) && Runs(sys, Apply(sys, s, a), rest)
    requires SerialApplies(sys, Apply(sys, s, a), rest, 0, id)
    requires a.LoadEntry? && a.c == 0 && a.r.id == id ==> Alone(s.checkers[0].cells, id)
    ensures Runs(sys, s, [a] + rest) && SerialApplies(sys, s, [a] + rest, 0, id)
    ensures Run(sys, s, [a] + rest) == Run(sys, Apply(sys, s, a), rest)
  {
    RunCons(sys, s, a, rest);
    SerialCons(sys, s, a, rest, 0, id);
  }

  lemma Append(sys: System, s: State, a: seq<Action>, b: seq<Action>, id: TenantId)
    requires Runs(sys, s, a) && SerialApplies(sys, s, a, 0, id)
    requires Runs(sys, Run(sys, s, a), b) && SerialApplies(sys, Run(sys, s, a), b, 0, id)
    ensures Runs(sys, s, a + b) && SerialApplies(sys, s, a + b, 0, id)
    ensures Run(sys, s, a + b) == Run(sys, Run(sys, s, a), b)
  {
    RunConcat(sys, s, a, b);
    SerialConcat(sys, s, a, b, 0, id);
  }

  /** Everything is delivered and at rest, and yet checker and store disagree. */
  ghost predicate Disagrees(sys: System, acts: seq<Action>, c: CheckerId, id: TenantId) {
    && Runs(sys, Init(0), acts) && SerialApplies(sys, Init(0), acts, c, id)
    && var s := Run(sys, Init(0), acts);
    && c in s.checkers && id in s.reg.store
    && AtRest(s, c, id) && NothingDropped(s, id) && Informed(s, c, id)
    && !Agrees(s, c, id)
  }

  /** One checker, joined at time 0, with these applies called and these entries. */
  function SoleChecker(ready: multiset<Record>, entries: Entries): map<CheckerId, Checker> {
    map[0 := Checker(true, 0, ready, Cells(entries, multiset{}), {}, {})]
  }

  /** The store after a ban and then an activation, whose events have these timestamps. */
  function RaceRegistry(id: TenantId, clock: int, ban: Option<int>, activation: Option<int>): Registry {
    Registry(clock, map[id := Active], [Change(id, Banned, 0, ban), Change(id, Active, 0, activation)])
  }

  /** Both transitions have set their state and neither has read the clock. */
  function BothSet(id: TenantId): State {
    State(RaceRegistry(id, 0, None, None), map[0 := Applied, 1 := Applied], Q.NewQueue(), None, {}, {}, {},
          SoleChecker(multiset{}, map[]))
  }

  /** The activation read the clock before the ban did. */
  function BothStamped(id: TenantId): State {
    State(RaceRegistry(id, 2, Some(2), Some(1)),
          map[0 := Stamped(Event(id, Banned, 2)), 1 := Stamped(Event(id, Active, 1))], Q.NewQueue(), None, {}, {}, {},
          SoleChecker(multiset{}, map[]))
  }

  function BothPublished(id: TenantId, ready: multiset<Record>, entries: Entries): State {
    State(RaceRegistry(id, 2, Some(2), Some(1)), map[], Q.NewQueue(), None, {0, 1}, {}, {0, 1},
          SoleChecker(ready, entries))
  }

  lemma ReachBothSet(sys: System, id: TenantId) returns (acts: seq<Action>)
    ensures Runs(sys, Init(0), acts) && SerialApplies(sys, Init(0), acts, 0, id)
    ensures Run(sys, Init(0), acts) == BothSet(id)
  {
    var s1 := Apply(sys, Init(0), Create(id, Active));
    var s2 := Apply(sys, s1, Join(0, true));
    var s3 := Apply(sys, s2, SetState(id, Banned));
    assert Apply(sys, s3, SetState(id, Active)) == BothSet(id);
    Prepend(sys, s3, SetState(id, Active), [], id);
    Prepend(sys, s2, SetState(id, Banned), [SetState(id, Active)] + [], id);
    var rest := [SetState(id, Banned)] + ([SetState(id, Active)] + []);
    Prepend(sys, s1, Join(0, true), rest, id);
    Prepend(sys, Init(0), Create(id, Active), [Join(0, true)] + rest, id);
    acts := [Create(id, Active)] + ([Join(0, true)] + rest);
  }

  lemma ReachBothStamped(sys: System, id: TenantId) returns (acts: seq<Action>)
    ensures Runs(sys, BothSet(id), acts) && SerialApplies(sys, BothSet(id), acts, 0, id)
    ensures Run(sys, BothSet(id), acts) == BothStamped(id)
  {
    var s1 := Apply(sys, BothSet(id), Stamp(1, 1));
    assert Apply(sys, s1, Stamp(0, 2)) == BothStamped(id);
    Prepend(sys, s1, Stamp(0, 2), [], id);
    Prepend(sys, BothSet(id), Stamp(1, 1), [Stamp(0, 2)] + [], id);
    acts := [Stamp(1, 1)] + ([Stamp(0, 2)] + []);
  }

  lemma DeliverOne(s: State, ready: multiset<Record>, entries: Entries, r: Record)
    requires s.checkers == SoleChecker(ready, entries)
    ensures Deliver(s.checkers, r, Audience(s, true, {})) == SoleChecker(ready + multiset{r}, entries)
  {
    assert 0 in Audience(s, true, {});
  }

  /** The activation is published; the ban is still in its transition's hands. */
  function OnePublished(id: TenantId): State {
    State(RaceRegistry(id, 2, Some(2), Some(1)),
          map[0 := Stamped(Event(id, Banned, 2))], Q.NewQueue(), None, {1}, {}, {1},
          SoleChecker(multiset{Record(id, false, 1)}, map[]))
  }

  lemma PublishActivation(sys: System, id: TenantId)
    ensures Apply(sys, BothStamped(id), Publish(1, true, {})) == OnePublished(id)
  {
    var s := BothStamped(id);
    DeliverOne(s, multiset{}, map[], Record(id, false, 1));
    assert multiset{} + multiset{Record(id, false, 1)} == multiset{Record(id, false, 1)};
    assert s.hands - {1} == OnePublished(id).hands;
  }

  lemma PublishBan(sys: System, id: TenantId)
    ensures Apply(sys, OnePublished(id), Publish(0, true, {})) ==
              BothPublished(id, multiset{Record(id, false, 1), Record(id, true, 2)}, map[])
  {
    var s := OnePublished(id);
    DeliverOne(s, multiset{Record(id, false, 1)}, map[], Record(id, true, 2));
    assert multiset{Record(id, false, 1)} + multiset{Record(id, true, 2)}
        == multiset{Record(id, false, 1), Record(id, true, 2)};
    assert s.hands - {0} == map[] && s.direct + {0} == {0, 1};
  }

  lemma ReachBothPublished(sys: System, id: TenantId) returns (acts: seq<Action>)
    ensures Runs(sys, BothStamped(id), acts) && SerialApplies(sys, BothStamped(id), acts, 0, id)
    ensures Run(sys, BothStamped(id), acts) ==
              BothPublished(id, multiset{Record(id, false, 1), Record(id, true, 2)}, map[])
  {
    PublishActivation(sys, id);
    PublishBan(sys, id);
    Prepend(sys, OnePublished(id), Publish(0, true, {}), [], id);
    Prepend(sys, BothStamped(id), Publish(1, true, {}), [Publish(0, true, {})] + [], id);
    acts := [Publish(1, true, {})] + ([Publish(0, true, {})] + []);
  }

  /** One whole apply of a record that is not stale. */
  lemma ApplyOne(sys: System, id: TenantId, ready: multiset<Record>, entries: Entries, r: Record)
    returns (acts: seq<Action>)
    requires !Stale(entries, r)
    ensures var s, s' := BothPublished(id, ready + multiset{r}, entries), BothPublished(id, ready, Write(entries, r));
            Runs(sys, s, acts) && SerialApplies(sys, s, acts, 0, id) && Run(sys, s, acts) == s'
  {
    var s := BothPublished(id, ready + multiset{r}, entries);
    var s1 := Apply(sys, s, LoadEntry(0, r));
    assert s1.checkers[0] == Checker(true, 0, ready, Cells(entries, multiset{r}), {}, {});
    var s2 := Apply(sys, s1, StoreEntry(0, r));
    assert s2.checkers == SoleChecker(ready, Write(entries, r));
    Prepend(sys, s1, StoreEntry(0, r), [], id);
    Prepend(sys, s, LoadEntry(0, r), [StoreEntry(0, r)] + [], id);
    acts := [LoadEntry(0, r)] + ([StoreEntry(0, r)] + []);
  }

  /** The whole run, ending with the stale ban in the checker. */
  lemma RaceRun(sys: System, id: TenantId) returns (acts: seq<Action>)
    ensures Runs(sys, Init(0), acts) && SerialApplies(sys, Init(0), acts, 0, id)
    ensures Run(sys, Init(0), acts) == BothPublished(id, multiset{}, map[id := Entry(true, 2)])
  {
    var activation, ban := Record(id, false, 1), Record(id, true, 2);
    acts := ReachBothSet(sys, id);
    var more := ReachBothStamped(sys, id);
    Append(sys, Init(0), acts, more, id);
    acts := acts + more;
    more := ReachBothPublished(sys, id);
    Append(sys, Init(0), acts, more, id);
    acts := acts + more;
    assert multiset{activation, ban} == multiset{ban} + multiset{activation};
    more := ApplyOne(sys, id, multiset{ban}, map[], activation);
    Append(sys, Init(0), acts, more, id);
    acts := acts + more;
    assert multiset{ban} == multiset{} + multiset{ban};
    more := ApplyOne(sys, id, multiset{}, map[id := Entry(false, 1)], ban);
    Append(sys, Init(0), acts, more, id);
    acts := acts + more;
    assert Write(map[id := Entry(false, 1)], ban) == map[id := Entry(true, 2)];
  }

  /** Overlapping transitions of one tenant can leave a checker disagreeing with the store. */
  lemma OverlappingTransitionsCanDisagree(sys: System, id: TenantId)
    ensures exists acts :: Disagrees(sys, acts, 0, id)
  {
    var acts := RaceRun(sys, id);
    var s := Run(sys, Init(0), acts);
    assert s.reg.log[0].id == id && s.reg.log[0].stamp.value > s.checkers[0].since;
    assert Informed(s, 0, id);
    assert Disagrees(sys, acts, 0, id);
  }

  // ---- Two applies that race between load and store ----

  /** A ban at time 1 and then an activation at time 2, both published, and what their checker has made of them. */
  function Announced(id: TenantId, ready: multiset<Record>, cells: Cells): State {
    State(Registry(2, map[id := Active], [Change(id, Banned, 0, Some(1)), Change(id, Active, 1, Some(2))]),
          map[], Q.NewQueue(), None, {0, 1}, {}, {0, 1},
          map[0 := Checker(true, 0, ready, cells, {}, {})])
  }

  /** The ban has been announced. */
  function BanAnnounced(id: TenantId): State {
    State(Registry(1, map[id := Banned], [Change(id, Banned, 0, Some(1))]),
          map[], Q.NewQueue(), None, {0}, {}, {0}, SoleChecker(multiset{Record(id, true, 1)}, map[]))
  }

  /** One more step of a run whose transitions do not overlap. */
  lemma Before(sys: System, s: State, a: Action, rest: seq<Action>, id: TenantId)
    requires Enabled(sys, s, a) && Runs(sys, Apply(sys, s, a), rest)
    requires SerialTransitions(sys, Apply(sys, s, a), rest, id)
    requires a.SetState? && a.id == id ==> !Unstamped(s, id)
    ensures Runs(sys, s, [a] + rest) && SerialTransitions(sys, s, [a] + rest, id)
    ensures Run(sys, s, [a] + rest) == Run(sys, Apply(sys, s, a), rest)
  {
    RunCons(sys, s, a, rest);
    SerialCons(sys, s, a, rest, 0, id);
  }

  /** A whole transition that the bus accepts, as the number k. */
  lemma WholeTransition(sys: System, s: State, k: nat, id: TenantId, state: TenantState, t: int)
    returns (acts: seq<Action>)
    requires id in s.reg.store && s.hands == map[] && k == |s.reg.log| && s.reg.clock < t
    ensures Runs(sys, s, acts) && SerialTransitions(sys, s, acts, id)
    ensures var e := Event(id, state, t);
            Run(sys, s, acts) ==
              s.(reg := Registry(t, s.reg.store[id := state], s.reg.log + [Change(id, state, s.reg.clock, Some(t))]),
                 direct := s.direct + {k}, published := s.published + {k},
                 checkers := Deliver(s.checkers, RecordOf(e), Audience(s, true, {})))
  {
    var s1 := Apply(sys, s, SetState(id, state));
    var s2 := Apply(sys, s1, Stamp(k, t));
    var s3 := Apply(sys, s2, Publish(k, true, {}));
    assert s3.hands == s.hands && Audience(s2, true, {}) == Audience(s, true, {});
    Before(sys, s2, Publish(k, true, {}), [], id);
    Before(sys, s1, Stamp(k, t), [Publish(k, true, {})] + [], id);
    Before(sys, s, SetState(id, state), [Stamp(k, t)] + ([Publish(k, true, {})] + []), id);
    acts := [SetState(id, state)] + ([Stamp(k, t)] + ([Publish(k, true, {})] + []));
  }

  lemma ReachBanAnnounced(sys: System, id: TenantId) returns (acts: seq<Action>)
    ensures Runs(sys, Init(0), acts) && SerialTransitions(sys, Init(0), acts, id)
    ensures Run(sys, Init(0), acts) == BanAnnounced(id)
  {
    var s1 := Apply(sys, Init(0), Create(id, Active));
    var s2 := Apply(sys, s1, Join(0, true));
    var ban := WholeTransition(sys, s2, 0, id, Banned, 1);
    DeliverOne(s2, multiset{}, map[], Record(id, true, 1));
    assert multiset{} + multiset{Record(id, true, 1)} == multiset{Record(id, true, 1)};
    assert Run(sys, s2, ban) == BanAnnounced(id);
    Before(sys, s1, Join(0, true), ban, id);
    Before(sys, Init(0), Create(id, Active), [Join(0, true)] + ban, id);
    acts := [Create(id, Active)] + ([Join(0, true)] + ban);
  }

  lemma ReachAnnounced(sys: System, id: TenantId) returns (acts: seq<Action>)
    ensures Runs(sys, Init(0), acts) && SerialTransitions(sys, Init(0), acts, id)
    ensures Run(sys, Init(0), acts) == BothReady(id)
  {
    var s := BanAnnounced(id);
    var ban := ReachBanAnnounced(sys, id);
    var activation := WholeTransition(sys, s, 1, id, Active, 2);
    DeliverOne(s, multiset{Record(id, true, 1)}, map[], Record(id, false, 2));
    assert multiset{Record(id, true, 1)} + multiset{Record(id, false, 2)}
        == multiset{Record(id, true, 1), Record(id, false, 2)};
    RunConcat(sys, Init(0), ban, activation);
    SerialConcat(sys, Init(0), ban, activation, 0, id);
    acts := ban + activation;
  }

  lemma LoadStep(sys: System, id: TenantId, ready: multiset<Record>, cells: Cells, r: Record)
    requires !Stale(cells.entries, r)
    ensures Enabled(sys, Announced(id, ready + multiset{r}, cells), LoadEntry(0, r))
    ensures Apply(sys, Announced(id, ready + multiset{r}, cells), LoadEntry(0, r)) ==
              Announced(id, ready, cells.(writing := cells.writing + multiset{r}))
  {
    assert (ready + multiset{r}) - multiset{r} == ready;
  }

  lemma StoreStep(sys: System, id: TenantId, entries: Entries, writing: multiset<Record>, r: Record)
    ensures Enabled(sys, Announced(id, multiset{}, Cells(entries, writing + multiset{r})), StoreEntry(0, r))
    ensures Apply(sys, Announced(id, multiset{}, Cells(entries, writing + multiset{r})), StoreEntry(0, r)) ==
              Announced(id, multiset{}, Cells(Write(entries, r), writing))
  {
    assert (writing + multiset{r}) - multiset{r} == writing;
  }

  /** Both events are waiting for their apply. */
  function BothReady(id: TenantId): State {
    Announced(id, multiset{Record(id, true, 1), Record(id, false, 2)}, Cells(map[], multiset{}))
  }

  /** Both applies have loaded and neither has stored. */
  function BothLoaded(id: TenantId): State {
    Announced(id, multiset{}, Cells(map[], multiset{Record(id, true, 1), Record(id, false, 2)}))
  }

  /** The ban stored last. */
  function BanStored(id: TenantId): State {
    Announced(id, multiset{}, Cells(map[id := Entry(true, 1)], multiset{}))
  }

  lemma LoadBoth(sys: System, id: TenantId) returns (acts: seq<Action>)
    ensures Runs(sys, BothReady(id), acts) && SerialTransitions(sys, BothReady(id), acts, id)
    ensures Run(sys, BothReady(id), acts) == BothLoaded(id)
  {
    var ban, activation := Record(id, true, 1), Record(id, false, 2);
    assert multiset{ban, activation} == multiset{activation} + multiset{ban};
    LoadStep(sys, id, multiset{activation}, Cells(map[], multiset{}), ban);
    var s1 := Apply(sys, BothReady(id), LoadEntry(0, ban));
    assert multiset{} + multiset{activation} == multiset{activation} && multiset{} + multiset{ban} == multiset{ban};
    LoadStep(sys, id, multiset{}, Cells(map[], multiset{ban}), activation);
    assert multiset{ban} + multiset{activation} == multiset{ban, activation};
    Before(sys, s1, LoadEntry(0, activation), [], id);
    Before(sys, BothReady(id), LoadEntry(0, ban), [LoadEntry(0, activation)] + [], id);
    acts := [LoadEntry(0, ban)] + ([LoadEntry(0, activation)] + []);
  }

  lemma StoreBoth(sys: System, id: TenantId) returns (acts: seq<Action>)
    ensures Runs(sys, BothLoaded(id), acts) && SerialTransitions(sys, BothLoaded(id), acts, id)
    ensures Run(sys, BothLoaded(id), acts) == BanStored(id)
  {
    var ban, activation := Record(id, true, 1), Record(id, false, 2);
    assert multiset{ban, activation} == multiset{ban} + multiset{activation};
    StoreStep(sys, id, map[], multiset{ban}, activation);
    var s1 := Apply(sys, BothLoaded(id), StoreEntry(0, activation));
    assert multiset{} + multiset{ban} == multiset{ban};
    StoreStep(sys, id, Write(map[], activation), multiset{}, ban);
    assert Write(Write(map[], activation), ban) == map[id := Entry(true, 1)];
    Before(sys, s1, StoreEntry(0, ban), [], id);
    Before(sys, BothLoaded(id), StoreEntry(0, activation), [StoreEntry(0, ban)] + [], id);
    acts := [StoreEntry(0, activation)] + ([StoreEntry(0, ban)] + []);
  }

  /** Transitions did not overlap, all is delivered and at rest, the last change is right, and yet they disagree. */
  ghost predicate DisagreesAllTheSame(sys: System, acts: seq<Action>, c: CheckerId, id: TenantId) {
    && Runs(sys, Init(0), acts) && SerialTransitions(sys, Init(0), acts, id)
    && var s := Run(sys, Init(0), acts);
    && c in s.checkers && id in s.reg.store
    && AtRest(s, c, id) && NothingDropped(s, id) && Informed(s, c, id)
    && LatestAgrees(s.reg, s.checkers[c], id) && !Agrees(s, c, id)
  }

  lemma BanStoredDisagrees(id: TenantId)
    ensures var s := BanStored(id);
            && AtRest(s, 0, id) && NothingDropped(s, id) && Informed(s, 0, id)
            && LatestAgrees(s.reg, s.checkers[0], id) && !Agrees(s, 0, id)
  {
    var s := BanStored(id);
    assert s.reg.log[0].id == id && s.reg.log[0].stamp.value > s.checkers[0].since;
    assert s.reg.log[1].stamp == Some(2);
  }

  /** Overlapping applies can leave a checker disagreeing with the store although its transitions did not overlap. */
  lemma OverlappingAppliesCanDisagree(sys: System, id: TenantId)
    ensures exists acts :: DisagreesAllTheSame(sys, acts, 0, id)
  {
    var acts := ReachAnnounced(sys, id);
    var more := LoadBoth(sys, id);
    RunConcat(sys, Init(0), acts, more);
    SerialConcat(sys, Init(0), acts, more, 0, id);
    acts := acts + more;
    more := StoreBoth(sys, id);
    RunConcat(sys, Init(0), acts, more);
    SerialConcat(sys, Init(0), acts, more, 0, id);
    BanStoredDisagrees(id);
    assert DisagreesAllTheSame(sys, acts + more, 0, id);
  }
}
