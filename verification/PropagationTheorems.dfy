/** What holds of every run of the propagation protocol. */
module PropagationTheorems {
  import opened Tenants
  import opened LastWriter
  import opened RetrySlots
  import Q = RetryRounds
  import opened Propagation
  import opened PropagationInvariant

  // ---- Conservation ----

  /** The event of change k was enqueued with one of these serial numbers. */
  predicate EnqueuedIn(history: seq<Q.Item<Ticket>>, serials: set<nat>, k: nat) {
    exists i :: i in serials && i < |history| && history[i].event.change == k
  }

  /** The number of the seven fates the event of change k has met. */
  function Fates(s: State, k: nat): nat {
    var history := s.queue.history;
    Q.Bit(k in s.hands) + Q.Bit(k in s.direct) + Q.Bit(k in s.lost) +
    Q.Bit(EnqueuedIn(history, Keys(s.queue.slots), k)) + Q.Bit(EnqueuedIn(history, s.queue.retried, k)) +
    Q.Bit(EnqueuedIn(history, s.queue.evicted, k)) + Q.Bit(EnqueuedIn(history, s.queue.exhausted.Keys, k))
  }

  /** A refused event is lost exactly for lack of a queue: where there is one, nothing bypasses it. */
  ghost predicate LostWithoutQueue(sys: System, s: State) {
    && (sys.hasQueue ==> s.lost == {})
    && (!sys.hasQueue ==> s.queue.history == [] && s.queue.round.Idle? && s.woken.None?)
  }

  lemma {:induction false} StaysLostWithoutQueue(sys: System, s: State, acts: seq<Action>)
    requires Runs(sys, s, acts) && LostWithoutQueue(sys, s)
    ensures LostWithoutQueue(sys, Run(sys, s, acts))
    decreases |acts|
  {
    if acts == [] {
    } else {
      StaysLostWithoutQueue(sys, Apply(sys, s, acts[0]), acts[1..]);
    }
  }

  /**
   At every point of every run each successful SetState has exactly one event in
   exactly one place, and the places add up to the number of those calls. With a
   queue none is lost, and without one none is queued.
   */
  lemma Conservation(sys: System, clock: int, acts: seq<Action>)
    requires Runs(sys, Init(clock), acts)
    ensures var s := Run(sys, Init(clock), acts);
            && (forall k :: 0 <= k < |s.reg.log| ==> Fates(s, k) == 1)
            && |s.reg.log| == |s.hands| + |s.direct| + |s.lost| +
                              |s.queue.slots| + |s.queue.retried| + |s.queue.evicted| + |s.queue.exhausted|
            && (sys.hasQueue ==> s.lost == {})
            && (!sys.hasQueue ==> s.queue.history == [])
  {
    StaysLostWithoutQueue(sys, Init(clock), acts);
    ReachableCore(sys, clock, acts);
    var s := Run(sys, Init(clock), acts);
    OneFateEach(sys, s);
    CountFates(sys, s);
  }

  lemma ReachableCore(sys: System, clock: int, acts: seq<Action>)
    requires Runs(sys, Init(clock), acts)
    ensures Core(sys, Run(sys, Init(clock), acts))
  {
    InitCore(sys, clock);
    RunCore(sys, Init(clock), acts);
  }

  lemma OneFateEach(sys: System, s: State)
    requires Core(sys, s)
    ensures forall k :: 0 <= k < |s.reg.log| ==> Fates(s, k) == 1
  {
    forall k | 0 <= k < |s.reg.log|
      ensures Fates(s, k) == 1
    {
      OneFate(sys, s, k);
    }
  }

  lemma OneFate(sys: System, s: State, k: nat)
    requires Core(sys, s) && k < |s.reg.log|
    ensures Fates(s, k) == 1
  {
    assert Places(s, k) == 1;
    var history := s.queue.history;
    if Queued(history, k) {
      var i :| 0 <= i < |history| && history[i].event.change == k;
      assert Q.Places(s.queue, i) == 1;
      assert forall j :: 0 <= j < |history| && history[j].event.change == k ==> j == i;
      SameFate(history, Keys(s.queue.slots), k, i);
      SameFate(history, s.queue.retried, k, i);
      SameFate(history, s.queue.evicted, k, i);
      SameFate(history, s.queue.exhausted.Keys, k, i);
    }
  }

  lemma SameFate(history: seq<Q.Item<Ticket>>, serials: set<nat>, k: nat, i: nat)
    requires i < |history| && history[i].event.change == k
    requires forall j :: 0 <= j < |history| && history[j].event.change == k ==> j == i
    ensures EnqueuedIn(history, serials, k) <==> i in serials
  {
  }

  function QueuedChanges(history: seq<Q.Item<Ticket>>): (changes: set<nat>)
    ensures forall k :: k in changes <==> Queued(history, k)
  {
    if history == [] then {}
    else
      var n := |history| - 1;
      assert history == history[..n] + [history[n]];
      assert forall k :: Queued(history, k) <==> Queued(history[..n], k) || history[n].event.change == k by {
        forall k: nat
          ensures Queued(history, k) <==> Queued(history[..n], k) || history[n].event.change == k
        {
          QueuedSnoc(history[..n], history[n], k);
        }
      }
      QueuedChanges(history[..n]) + {history[n].event.change}
  }

  lemma {:induction false} QueuedCount(history: seq<Q.Item<Ticket>>)
    requires forall i, j :: 0 <= i < j < |history| ==> history[i].event.change != history[j].event.change
    ensures |QueuedChanges(history)| == |history|
  {
    if history == [] {
    } else {
      var n := |history| - 1;
      QueuedCount(history[..n]);
      assert !Queued(history[..n], history[n].event.change);
    }
  }

  lemma CountFates(sys: System, s: State)
    requires Core(sys, s)
    ensures |s.reg.log| == |s.hands| + |s.direct| + |s.lost| +
                           |s.queue.slots| + |s.queue.retried| + |s.queue.evicted| + |s.queue.exhausted|
  {
    var queued := QueuedChanges(s.queue.history);
    forall k: nat
      ensures Q.SetsHolding(s.hands.Keys, s.direct, s.lost, queued, k) == if k < |s.reg.log| then 1 else 0
    {
      assert Places(s, k) == if k < |s.reg.log| then 1 else 0;
    }
    Q.PartitionCounts(s.hands.Keys, s.direct, s.lost, queued, |s.reg.log|);
    QueuedCount(s.queue.history);
    Q.AccountedCounts(s.queue);
    assert |s.hands.Keys| == |s.hands|;
  }

  // ---- No lying event ----

  /** Some state of the run had the store hold this state for this tenant, no later than `at`. */
  ghost predicate Held(sys: System, s: State, acts: seq<Action>, id: TenantId, state: TenantState, at: int)
    requires Runs(sys, s, acts)
    decreases |acts|
  {
    || (id in s.reg.store && s.reg.store[id] == state && s.reg.clock <= at)
    || (acts != [] && Held(sys, Apply(sys, s, acts[0]), acts[1..], id, state, at))
  }

  /** A step keeps the logged changes, apart from stamping them. */
  lemma LogGrows(sys: System, s: State, a: Action)
    requires Enabled(sys, s, a)
    ensures var log, log' := s.reg.log, Apply(sys, s, a).reg.log;
            && |log| <= |log'|
            && (forall k :: 0 <= k < |log| ==> log'[k].(stamp := log[k].stamp) == log[k])
            && (forall k :: |log| <= k < |log'| ==>
                  var s' := Apply(sys, s, a);
                  && log'[k].id in s'.reg.store && s'.reg.store[log'[k].id] == log'[k].state
                  && s'.reg.clock == log'[k].setAt)
  {
  }

  lemma {:induction false} LogKept(sys: System, s: State, acts: seq<Action>)
    requires Runs(sys, s, acts)
    ensures var log, log' := s.reg.log, Run(sys, s, acts).reg.log;
            |log| <= |log'| && forall k :: 0 <= k < |log| ==> log'[k].(stamp := log[k].stamp) == log[k]
    decreases |acts|
  {
    if acts == [] {
    } else {
      LogGrows(sys, s, acts[0]);
      LogKept(sys, Apply(sys, s, acts[0]), acts[1..]);
    }
  }

  /** Every change logged during a run was the store's state at its time. */
  lemma {:induction false} LoggedWasHeld(sys: System, s: State, acts: seq<Action>, k: nat)
    requires Runs(sys, s, acts)
    requires |s.reg.log| <= k < |Run(sys, s, acts).reg.log|
    ensures var c := Run(sys, s, acts).reg.log[k]; Held(sys, s, acts, c.id, c.state, c.setAt)
    decreases |acts|
  {
    if acts == [] {
    } else {
      var s1 := Apply(sys, s, acts[0]);
      LogGrows(sys, s, acts[0]);
      if k < |s1.reg.log| {
        LogKept(sys, s1, acts[1..]);
      } else {
        LoggedWasHeld(sys, s1, acts[1..], k);
      }
    }
  }

  lemma {:induction false} HeldLater(sys: System, s: State, acts: seq<Action>, id: TenantId, state: TenantState,
                                     at: int, later: int)
    requires Runs(sys, s, acts) && Held(sys, s, acts, id, state, at) && at <= later
    ensures Held(sys, s, acts, id, state, later)
    decreases |acts|
  {
    if acts == [] {
    } else if Held(sys, Apply(sys, s, acts[0]), acts[1..], id, state, at) {
      HeldLater(sys, Apply(sys, s, acts[0]), acts[1..], id, state, at, later);
    }
  }

  /** Whatever is handed to the bus names a state the store really held before, not after its timestamp. */
  lemma NoLyingEvent(sys: System, clock: int, acts: seq<Action>, a: Action)
    requires Runs(sys, Init(clock), acts) && Enabled(sys, Run(sys, Init(clock), acts), a)
    requires Handed(sys, Run(sys, Init(clock), acts), a).Some?
    ensures var e := Handed(sys, Run(sys, Init(clock), acts), a).value;
            Held(sys, Init(clock), acts, e.id, e.state, e.at)
  {
    ReachableCore(sys, clock, acts);
    var s := Run(sys, Init(clock), acts);
    var e := Handed(sys, s, a).value;
    var k := HandedIsHonest(sys, s, a);
    LoggedWasHeld(sys, Init(clock), acts, k);
    HeldLater(sys, Init(clock), acts, e.id, e.state, s.reg.log[k].setAt, e.at);
  }

  lemma HandedIsHonest(sys: System, s: State, a: Action) returns (k: nat)
    requires Core(sys, s) && Enabled(sys, s, a) && Handed(sys, s, a).Some?
    ensures Honest(s.reg, k, Handed(sys, s, a).value)
    ensures s.reg.log[k].setAt <= Handed(sys, s, a).value.at
  {
    k := if a.Publish? then a.k else Next(s.queue).change;
  }

  // ---- Convergence ----

  /** Nothing about the tenant is on its way to the checker any more. */
  predicate AtRest(s: State, c: CheckerId, id: TenantId)
    requires c in s.checkers
  {
    && (forall k :: k in s.hands && k < |s.reg.log| ==> s.reg.log[k].id != id)
    && (forall p :: p in s.queue.slots && p.key < |s.queue.history| ==> s.queue.history[p.key].event.event.id != id)
    && (forall r :: r in s.checkers[c].ready ==> r.id != id)
    && (forall r :: r in s.checkers[c].cells.writing ==> r.id != id)
  }

  /** No event of the tenant was given up before the bus accepted it. */
  ghost predicate NothingDropped(s: State, id: TenantId) {
    && (forall k :: k in s.lost && k < |s.reg.log| && s.reg.log[k].id == id ==> k in s.published)
    && (forall i ::
          (i in s.queue.evicted || i in s.queue.exhausted) && i < |s.queue.history| &&
          s.queue.history[i].event.event.id == id
          ==> s.queue.history[i].event.change in s.published)
  }

  /** The subscriber has had a way to learn about the tenant: its snapshot, or a change since it joined. */
  ghost predicate Informed(s: State, c: CheckerId, id: TenantId)
    requires c in s.checkers
  {
    && s.checkers[c].subscribed
    && ((exists r :: r in s.checkers[c].seen && r.id == id) ||
        (exists k :: 0 <= k < |s.reg.log| && s.reg.log[k].id == id &&
           s.reg.log[k].stamp.Some? && s.reg.log[k].stamp.value > s.checkers[c].since))
  }

  /** Change k has the latest timestamp of its tenant's changes. */
  predicate LatestStamp(log: seq<Change>, k: nat) {
    && k < |log| && log[k].stamp.Some?
    && (forall j :: 0 <= j < |log| && log[j].id == log[k].id && log[j].stamp.Some? ==>
          log[j].stamp.value <= log[k].stamp.value)
  }

  /** The checker snapshotted the tenant after that time. */
  predicate SnapshotAfter(ch: Checker, id: TenantId, at: int) {
    exists r :: r in ch.seen && r.id == id && r.at > at
  }

  lemma AllPublished(sys: System, s: State, c: CheckerId, id: TenantId)
    requires Core(sys, s) && c in s.checkers && AtRest(s, c, id) && NothingDropped(s, id)
    ensures forall k :: 0 <= k < |s.reg.log| && s.reg.log[k].id == id ==> k in s.published
  {
    forall k | 0 <= k < |s.reg.log| && s.reg.log[k].id == id
      ensures k in s.published
    {
      assert Places(s, k) == 1;
      if Queued(s.queue.history, k) {
        var i :| 0 <= i < |s.queue.history| && s.queue.history[i].event.change == k;
        assert Q.Places(s.queue, i) == 1;
        assert Honest(s.reg, k, s.queue.history[i].event.event);
        if i in Keys(s.queue.slots) {
          assert false;
        }
      }
    }
  }

  /** At rest the checker's entry is at least as new as every change of the tenant. */
  lemma EntryCaughtUp(sys: System, s: State, c: CheckerId, id: TenantId)
    requires Core(sys, s) && Informing(s, c, id) && c in s.checkers
    requires AtRest(s, c, id) && NothingDropped(s, id) && Informed(s, c, id)
    ensures var entries := s.checkers[c].cells.entries;
            id in entries && CaughtUp(s.reg, id, entries[id].at)
    ensures forall r :: r in s.checkers[c].seen && r.id == id ==> r.at <= s.checkers[c].cells.entries[id].at
  {
    var ch := s.checkers[c];
    AllPublished(sys, s, c, id);
    forall r: Record | r.id == id && Owed(ch, r)
      ensures id in ch.cells.entries && r.at <= ch.cells.entries[id].at
    {
    }
    forall k | 0 <= k < |s.reg.log| && s.reg.log[k].id == id
      ensures s.reg.log[k].stamp.Some?
      ensures s.reg.log[k].stamp.value > ch.since ==> Owed(ch, RecordOf(EventOf(s.reg.log[k])))
    {
      assert k in s.published;
    }
    if r :| r in ch.seen && r.id == id {
      assert Owed(ch, r);
    } else {
      var k :| 0 <= k < |s.reg.log| && s.reg.log[k].id == id &&
               s.reg.log[k].stamp.Some? && s.reg.log[k].stamp.value > ch.since;
      assert Owed(ch, RecordOf(EventOf(s.reg.log[k])));
    }
  }

  /**
   Provided that no store for the tenant at the checker overwrote something
   newer, the checker at rest agrees with the store about the tenant exactly when
   its snapshot is later than the last-stamped change, or that change says what
   the store says. So two races can break agreement: that of two transitions for
   their timestamps, and that of two applies between load and store.
   */
  lemma AgreementCondition(sys: System, clock: int, acts: seq<Action>, c: CheckerId, id: TenantId)
    requires Runs(sys, Init(clock), acts) && Guarded(sys, Init(clock), acts, c, id)
    requires var s := Run(sys, Init(clock), acts);
             && c in s.checkers && id in s.reg.store
             && AtRest(s, c, id) && NothingDropped(s, id) && Informed(s, c, id)
    ensures var s := Run(sys, Init(clock), acts);
            Agrees(s, c, id) <==> LatestAgrees(s.reg, s.checkers[c], id)
  {
    InitCore(sys, clock);
    RunInforms(sys, Init(clock), acts, c, id);
    StateAgreement(sys, Run(sys, Init(clock), acts), c, id);
  }

  /** The checker answers what the store holds. */
  predicate Agrees(s: State, c: CheckerId, id: TenantId)
    requires c in s.checkers && id in s.reg.store
  {
    Lookup(s.checkers[c].cells.entries, id) == (s.reg.store[id] == Banned)
  }

  /** The condition under which the checker's entry, whatever it is, agrees with the store. */
  ghost predicate LatestAgrees(reg: Registry, ch: Checker, id: TenantId)
    requires id in reg.store
  {
    forall k: nat :: LatestStamp(reg.log, k) && reg.log[k].id == id ==>
      || SnapshotAfter(ch, id, reg.log[k].stamp.value)
      || (reg.log[k].state == Banned) == (reg.store[id] == Banned)
  }

  lemma StateAgreement(sys: System, s: State, c: CheckerId, id: TenantId)
    requires Core(sys, s) && Informing(s, c, id) && c in s.checkers && id in s.reg.store
    requires AtRest(s, c, id) && NothingDropped(s, id) && Informed(s, c, id)
    ensures Agrees(s, c, id) <==> LatestAgrees(s.reg, s.checkers[c], id)
  {
    EntryCaughtUp(sys, s, c, id);
    var ch := s.checkers[c];
    var r := EntryRecord(ch.cells.entries, id);
    assert Truthful(s.reg, ch, r);
    if FromEvent(s.reg, r) {
      EventEntry(s.reg, ch, r);
    } else {
      SnapshotIsLater(s.reg, ch, r);
    }
  }

  /** An entry that came from a snapshot is later than every change, and so right about the store. */
  lemma SnapshotIsLater(reg: Registry, ch: Checker, r: Record)
    requires FromSnapshot(reg, r) && r in ch.seen && CaughtUp(reg, r.id, r.at)
    ensures LatestAgrees(reg, ch, r.id)
  {
    forall k: nat | LatestStamp(reg.log, k) && reg.log[k].id == r.id
      ensures SnapshotAfter(ch, r.id, reg.log[k].stamp.value)
    {
      assert reg.log[k].stamp != Some(r.at);
    }
  }

  lemma OneLatest(reg: Registry, j: nat, k: nat)
    requires RegistryInv(reg) && LatestStamp(reg.log, j) && LatestStamp(reg.log, k) && reg.log[j].id == reg.log[k].id
    ensures j == k
  {
    assert reg.log[j].stamp == reg.log[k].stamp;
  }

  lemma EventEntry(reg: Registry, ch: Checker, r: Record)
    requires RegistryInv(reg) && FromEvent(reg, r) && CaughtUp(reg, r.id, r.at) && r.id in reg.store
    requires forall o :: o in ch.seen && o.id == r.id ==> o.at <= r.at
    ensures r.banned == (reg.store[r.id] == Banned) <==> LatestAgrees(reg, ch, r.id)
  {
    var k :| 0 <= k < |reg.log| && reg.log[k].stamp.Some? && RecordOf(EventOf(reg.log[k])) == r;
    assert LatestStamp(reg.log, k);
    assert !SnapshotAfter(ch, r.id, r.at);
    forall j: nat | LatestStamp(reg.log, j) && reg.log[j].id == r.id
      ensures j == k
    {
      OneLatest(reg, j, k);
    }
  }

  // ---- Transitions that do not overlap ----

  /** The tenant's timestamps follow the order of its changes, and only its last change can lack one. */
  ghost predicate StampsInOrder(log: seq<Change>, id: TenantId) {
    forall i, j :: 0 <= i < j < |log| && log[i].id == log[j].id == id ==>
      log[i].stamp.Some? && (log[j].stamp.Some? ==> log[i].stamp.value < log[j].stamp.value)
  }

  lemma StepInOrder(sys: System, s: State, a: Action, id: TenantId)
    requires Core(sys, s) && Enabled(sys, s, a) && StampsInOrder(s.reg.log, id)
    requires a.SetState? && a.id == id ==> !Unstamped(s, id)
    ensures StampsInOrder(Apply(sys, s, a).reg.log, id)
  {
    var log, log' := s.reg.log, Apply(sys, s, a).reg.log;
    match a
    case SetState(x, _) =>
      forall k | 0 <= k < |log| && log[k].id == x == id
        ensures log[k].stamp.Some?
      {
        if k in s.hands {
          assert HandInv(s.reg, k, s.hands[k]);
        }
      }
    case Stamp(k, t) =>
      assert HandInv(s.reg, k, s.hands[k]);
      assert forall j :: 0 <= j < |log| && j != k ==> log'[j] == log[j];
    case _ =>
      assert log' == log;
  }

  lemma {:induction false} RunInOrder(sys: System, s: State, acts: seq<Action>, id: TenantId)
    requires Core(sys, s) && StampsInOrder(s.reg.log, id)
    requires Runs(sys, s, acts) && SerialTransitions(sys, s, acts, id)
    ensures StampsInOrder(Run(sys, s, acts).reg.log, id)
    decreases |acts|
  {
    if acts == [] {
    } else {
      StepCore(sys, s, acts[0]);
      StepInOrder(sys, s, acts[0], id);
      RunInOrder(sys, Apply(sys, s, acts[0]), acts[1..], id);
    }
  }

  // ---- Applies that do not overlap ----

  ghost predicate ExclusiveAt(s: State, c: CheckerId, id: TenantId) {
    c in s.checkers ==> Exclusive(s.checkers[c].cells, id)
  }

  lemma {:induction false} SerialIsGuarded(sys: System, s: State, acts: seq<Action>, c: CheckerId, id: TenantId)
    requires ExclusiveAt(s, c, id) && Runs(sys, s, acts) && SerialApplies(sys, s, acts, c, id)
    ensures Guarded(sys, s, acts, c, id)
    decreases |acts|
  {
    if acts == [] {
    } else {
      KeepsExclusive(sys, s, acts[0], c, id);
      SerialIsGuarded(sys, Apply(sys, s, acts[0]), acts[1..], c, id);
    }
  }

  lemma KeepsExclusive(sys: System, s: State, a: Action, c: CheckerId, id: TenantId)
    requires ExclusiveAt(s, c, id) && Enabled(sys, s, a)
    requires a.LoadEntry? && a.c == c && a.r.id == id ==> Alone(s.checkers[c].cells, id)
    ensures ExclusiveAt(Apply(sys, s, a), c, id)
  {
    match a
    case LoadEntry(d, r) => if d == c { LoadExclusive(s.checkers[c].cells, r, id); }
    case StoreEntry(d, r) => if d == c { StoreExclusive(s.checkers[c].cells, r, id); }
    case _ => CellsKept(sys, s, a, c);
  }

  /** Only loads and stores touch a checker's cells; a new checker's are empty. */
  lemma CellsKept(sys: System, s: State, a: Action, c: CheckerId)
    requires Enabled(sys, s, a) && !a.LoadEntry? && !a.StoreEntry?
    ensures var s' := Apply(sys, s, a);
            c in s'.checkers ==>
              || (c in s.checkers && s'.checkers[c].cells == s.checkers[c].cells)
              || s'.checkers[c].cells == Cells(map[], multiset{})
  {
  }

  lemma LoadExclusive(cells: Cells, r: Record, id: TenantId)
    requires Exclusive(cells, id) && (r.id == id ==> Alone(cells, id))
    ensures Exclusive(LoadCells(cells, r), id)
  {
  }

  lemma StoreExclusive(cells: Cells, r: Record, id: TenantId)
    requires Exclusive(cells, id) && r in cells.writing
    ensures Exclusive(StoreCells(cells, r), id)
  {
  }

  /**
   Every informed subscriber ends up agreeing with the store about a tenant,
   whatever the order of deliveries, retries and snapshots, as long as the
   transitions of that tenant do not overlap up to their timestamp and its
   applies at that checker do not overlap. Nothing is asked of other tenants or
   other checkers.
   */
  lemma EveryCheckerConverges(sys: System, clock: int, acts: seq<Action>, c: CheckerId, id: TenantId)
    requires Runs(sys, Init(clock), acts)
    requires SerialTransitions(sys, Init(clock), acts, id) && SerialApplies(sys, Init(clock), acts, c, id)
    requires var s := Run(sys, Init(clock), acts);
             && c in s.checkers && id in s.reg.store
             && AtRest(s, c, id) && NothingDropped(s, id) && Informed(s, c, id)
    ensures Agrees(Run(sys, Init(clock), acts), c, id)
  {
    SerialIsGuarded(sys, Init(clock), acts, c, id);
    ReachableCore(sys, clock, acts);
    InitCore(sys, clock);
    RunInOrder(sys, Init(clock), acts, id);
    AgreementCondition(sys, clock, acts, c, id);
    var s := Run(sys, Init(clock), acts);
    forall k: nat | LatestStamp(s.reg.log, k) && s.reg.log[k].id == id
      ensures (s.reg.log[k].state == Banned) == (s.reg.store[id] == Banned)
    {
      LatestIsLast(sys, s, c, id, k);
    }
  }

  lemma LatestIsLast(sys: System, s: State, c: CheckerId, id: TenantId, k: nat)
    requires Core(sys, s) && c in s.checkers && AtRest(s, c, id) && StampsInOrder(s.reg.log, id)
    requires LatestStamp(s.reg.log, k) && s.reg.log[k].id == id
    ensures s.reg.store[id] == s.reg.log[k].state
  {
    forall j | k < j < |s.reg.log|
      ensures s.reg.log[j].id != id
    {
    }
    assert Last(s.reg.log, k);
  }
}
