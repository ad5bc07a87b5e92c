/** What every step of the propagation protocol keeps. */
module PropagationInvariant {
  import opened Tenants
  import opened LastWriter
  import opened RetrySlots
  import Q = RetryRounds
  import opened Propagation

  // ---- The registry ----

  /** No later change of the same tenant is in the log. */
  predicate Last(log: seq<Change>, k: nat)
    requires k < |log|
  {
    forall j :: k < j < |log| ==> log[j].id != log[k].id
  }

  ghost predicate RegistryInv(reg: Registry) {
    && (forall k :: 0 <= k < |reg.log| ==>
          && reg.log[k].id in reg.store
          && reg.log[k].setAt <= reg.clock
          && (reg.log[k].stamp.Some? ==> reg.log[k].setAt <= reg.log[k].stamp.value <= reg.clock)
          && (Last(reg.log, k) ==> reg.store[reg.log[k].id] == reg.log[k].state))
    && (forall i, j :: 0 <= i < j < |reg.log| && reg.log[i].stamp.Some? ==> reg.log[i].stamp != reg.log[j].stamp)
  }

  /** The event is that of change k, in every field. */
  predicate Honest(reg: Registry, k: nat, e: Event) {
    k < |reg.log| && reg.log[k].stamp.Some? && e == EventOf(reg.log[k])
  }

  /** The record tells what some change's event tells. */
  predicate FromEvent(reg: Registry, r: Record) {
    exists k :: 0 <= k < |reg.log| && reg.log[k].stamp.Some? && RecordOf(EventOf(reg.log[k])) == r
  }

  /** Every change of the tenant is stamped, no later than `at`. */
  predicate CaughtUp(reg: Registry, id: TenantId, at: int) {
    forall k :: 0 <= k < |reg.log| && reg.log[k].id == id ==>
      reg.log[k].stamp.Some? && reg.log[k].stamp.value <= at
  }

  /** A snapshot's record is right about the store unless a change escaped its start time. */
  predicate FromSnapshot(reg: Registry, r: Record) {
    && r.id in reg.store
    && NoStampAt(reg, r.at)
    && (CaughtUp(reg, r.id, r.at) ==> r.banned == (reg.store[r.id] == Banned))
  }

  predicate NoStampAt(reg: Registry, at: int) {
    forall k :: 0 <= k < |reg.log| ==> reg.log[k].stamp != Some(at)
  }

  /** From one registry to a later one: time passes, stamped changes stay, snapshots stay truthful. */
  ghost predicate Evolves(reg: Registry, reg': Registry) {
    && reg.clock <= reg'.clock
    && |reg.log| <= |reg'.log|
    && (forall k :: 0 <= k < |reg.log| && reg.log[k].stamp.Some? ==> reg'.log[k] == reg.log[k])
    && (forall k :: 0 <= k < |reg'.log| && reg'.log[k].stamp.Some? && !(k < |reg.log| && reg.log[k].stamp.Some?) ==>
          reg.clock < reg'.log[k].stamp.value)
    && (forall r: Record :: r.at <= reg.clock && FromSnapshot(reg, r) ==> FromSnapshot(reg', r))
  }

  lemma EventsStay(reg: Registry, reg': Registry)
    requires Evolves(reg, reg')
    ensures forall k, e :: Honest(reg, k, e) ==> Honest(reg', k, e)
    ensures forall r :: FromEvent(reg, r) ==> FromEvent(reg', r)
    ensures forall t :: t <= reg.clock && NoStampAt(reg, t) ==> NoStampAt(reg', t)
  {
    forall r | FromEvent(reg, r)
      ensures FromEvent(reg', r)
    {
      var k :| 0 <= k < |reg.log| && reg.log[k].stamp.Some? && RecordOf(EventOf(reg.log[k])) == r;
      assert reg'.log[k] == reg.log[k];
    }
  }

  lemma TickEvolves(reg: Registry, t: int)
    requires RegistryInv(reg) && reg.clock <= t
    ensures RegistryInv(Tick(reg, t)) && Evolves(reg, Tick(reg, t))
  {
  }

  lemma CreateEvolves(reg: Registry, id: TenantId, state: TenantState)
    requires RegistryInv(reg) && id !in reg.store
    ensures RegistryInv(reg.(store := reg.store[id := state])) && Evolves(reg, reg.(store := reg.store[id := state]))
  {
  }

  lemma SetStateEvolves(reg: Registry, id: TenantId, state: TenantState)
    requires RegistryInv(reg) && id in reg.store
    ensures var reg' := reg.(store := reg.store[id := state], log := reg.log + [Change(id, state, reg.clock, None)]);
            RegistryInv(reg') && Evolves(reg, reg')
  {
    var reg' := reg.(store := reg.store[id := state], log := reg.log + [Change(id, state, reg.clock, None)]);
    var n := |reg.log|;
    assert reg'.log[n].id == id;
    forall k | 0 <= k < |reg'.log| && Last(reg'.log, k)
      ensures reg'.store[reg'.log[k].id] == reg'.log[k].state
    {
      if k < n {
        assert reg.log[k].id != id by { assert reg'.log[n].id != reg'.log[k].id; }
        assert Last(reg.log, k) by { assert forall j :: k < j < n ==> reg'.log[j] == reg.log[j]; }
      }
    }
    forall r: Record | r.at <= reg.clock && FromSnapshot(reg, r)
      ensures FromSnapshot(reg', r)
    {
      if r.id == id {
        assert !CaughtUp(reg', id, r.at);
      } else if CaughtUp(reg', r.id, r.at) {
        assert forall k :: 0 <= k < n ==> reg'.log[k] == reg.log[k];
        assert CaughtUp(reg, r.id, r.at);
      }
    }
  }

  lemma StampEvolves(reg: Registry, k: nat, t: int)
    requires RegistryInv(reg) && k < |reg.log| && reg.log[k].stamp.None? && reg.clock < t
    ensures var reg' := reg.(clock := t, log := reg.log[k := reg.log[k].(stamp := Some(t))]);
            RegistryInv(reg') && Evolves(reg, reg')
  {
    var reg' := reg.(clock := t, log := reg.log[k := reg.log[k].(stamp := Some(t))]);
    forall i | 0 <= i < |reg'.log| && Last(reg'.log, i)
      ensures Last(reg.log, i)
    {
      assert forall j :: 0 <= j < |reg.log| ==> reg'.log[j].id == reg.log[j].id;
    }
    forall r: Record | r.at <= reg.clock && FromSnapshot(reg, r)
      ensures FromSnapshot(reg', r)
    {
      if r.id == reg.log[k].id {
        assert reg'.log[k].id == r.id && reg'.log[k].stamp.value > r.at;
        assert !CaughtUp(reg', r.id, r.at);
      } else if CaughtUp(reg', r.id, r.at) {
        assert forall i :: 0 <= i < |reg.log| && reg.log[i].id == r.id ==> reg'.log[i] == reg.log[i];
        assert CaughtUp(reg, r.id, r.at);
      }
    }
  }

  // ---- Checkers ----

  /** The record will reach the checker's entry, or something as new already has. */
  predicate Owed(ch: Checker, r: Record) {
    || r in ch.ready
    || r in ch.cells.writing
    || (r.id in ch.cells.entries && ch.cells.entries[r.id].at >= r.at)
  }

  predicate Truthful(reg: Registry, ch: Checker, r: Record) {
    r.at <= reg.clock && (FromEvent(reg, r) || (FromSnapshot(reg, r) && r in ch.seen))
  }

  function EntryRecord(entries: Entries, id: TenantId): Record
    requires id in entries
  {
    Record(id, entries[id].banned, entries[id].at)
  }

  /** Everything a checker holds or has queued up is truthful. */
  ghost predicate CheckerTruthful(reg: Registry, ch: Checker) {
    && (forall r :: r in ch.ready ==> Truthful(reg, ch, r))
    && (forall r :: r in ch.cells.writing ==> Truthful(reg, ch, r))
    && (forall id :: id in ch.cells.entries ==> Truthful(reg, ch, EntryRecord(ch.cells.entries, id)))
  }

  /** Its snapshots started after it joined, at times no event has, and what they read of the tenant is owed. */
  ghost predicate CheckerSnapshots(reg: Registry, ch: Checker, id: TenantId) {
    && ch.since <= reg.clock
    && (forall t :: t in ch.snaps ==> ch.since <= t <= reg.clock && NoStampAt(reg, t))
    && (forall r :: r in ch.seen ==> ch.since <= r.at && (r.id == id ==> Owed(ch, r)))
  }

  /** A subscriber is owed every published change of the tenant that was stamped after it joined. */
  ghost predicate CheckerOwed(reg: Registry, published: set<nat>, ch: Checker, id: TenantId) {
    ch.subscribed ==> forall k :: k in published ==>
      k < |reg.log| && reg.log[k].stamp.Some? &&
      (reg.log[k].id == id && reg.log[k].stamp.value > ch.since ==> Owed(ch, RecordOf(EventOf(reg.log[k]))))
  }

  /** What holds at a checker with regard to one tenant. */
  ghost predicate CheckerInv(reg: Registry, published: set<nat>, ch: Checker, id: TenantId) {
    CheckerTruthful(reg, ch) && CheckerSnapshots(reg, ch, id) && CheckerOwed(reg, published, ch, id)
  }

  lemma CheckerEvolves(reg: Registry, reg': Registry, published: set<nat>, ch: Checker, id: TenantId)
    requires Evolves(reg, reg') && CheckerInv(reg, published, ch, id)
    ensures CheckerInv(reg', published, ch, id)
  {
    EventsStay(reg, reg');
    assert forall r :: Truthful(reg, ch, r) ==> Truthful(reg', ch, r);
  }

  /** A delivery of a truthful event, and possibly its acceptance by the bus. */
  lemma DeliveryKeeps(reg: Registry, published: set<nat>, ch: Checker, k: nat, e: Event, reaches: bool, ok: bool,
                      id: TenantId)
    requires RegistryInv(reg) && CheckerInv(reg, published, ch, id) && Honest(reg, k, e)
    requires ok && ch.subscribed ==> reaches
    ensures CheckerInv(reg, if ok then published + {k} else published,
                       if reaches then ch.(ready := ch.ready + multiset{RecordOf(e)}) else ch, id)
  {
    var ch' := if reaches then ch.(ready := ch.ready + multiset{RecordOf(e)}) else ch;
    assert FromEvent(reg, RecordOf(e));
    assert forall r :: Truthful(reg, ch, r) ==> Truthful(reg, ch', r);
    assert forall r :: Owed(ch, r) ==> Owed(ch', r);
  }

  lemma ReadKeeps(reg: Registry, published: set<nat>, ch: Checker, t: int, read: TenantId, id: TenantId)
    requires CheckerInv(reg, published, ch, id) && t in ch.snaps && read in reg.store
    ensures CheckerInv(reg, published, ReadInto(ch, Record(read, reg.store[read] == Banned, t)), id)
  {
    var r := Record(read, reg.store[read] == Banned, t);
    var ch' := ReadInto(ch, r);
    assert FromSnapshot(reg, r);
    assert forall o :: Truthful(reg, ch, o) ==> Truthful(reg, ch', o);
    assert forall o :: Owed(ch, o) ==> Owed(ch', o);
  }

  lemma LoadKeeps(reg: Registry, published: set<nat>, ch: Checker, r: Record, id: TenantId)
    requires CheckerInv(reg, published, ch, id) && r in ch.ready
    ensures CheckerInv(reg, published, LoadInto(ch, r), id)
  {
    var ch' := LoadInto(ch, r);
    assert forall o :: Truthful(reg, ch, o) ==> Truthful(reg, ch', o);
    forall o | Owed(ch, o)
      ensures Owed(ch', o)
    {
      if o in ch.ready && o !in ch'.ready {
        assert o == r;
      }
    }
  }

  lemma StoreKeeps(reg: Registry, published: set<nat>, ch: Checker, r: Record, id: TenantId)
    requires CheckerInv(reg, published, ch, id) && r in ch.cells.writing
    requires r.id == id ==> !Stale(ch.cells.entries, r)
    ensures CheckerInv(reg, published, StoreInto(ch, r), id)
  {
    var ch' := StoreInto(ch, r);
    assert forall o :: Truthful(reg, ch, o) ==> Truthful(reg, ch', o);
    forall o | Owed(ch, o) && o.id == id
      ensures Owed(ch', o)
    {
      if o in ch.cells.writing && o !in ch'.cells.writing {
        assert o == r;
      }
    }
    forall x | x in ch'.cells.entries
      ensures Truthful(reg, ch', EntryRecord(ch'.cells.entries, x))
    {
      if x == r.id {
        assert EntryRecord(ch'.cells.entries, x) == r;
      } else {
        assert EntryRecord(ch'.cells.entries, x) == EntryRecord(ch.cells.entries, x);
      }
    }
  }

  // ---- Transitions, tickets and places ----

  ghost predicate HandsInv(reg: Registry, hands: map<nat, Phase>) {
    && (forall k :: k in hands ==> k < |reg.log| && HandInv(reg, k, hands[k]))
    && (forall k :: 0 <= k < |reg.log| && k !in hands ==> reg.log[k].stamp.Some?)
  }

  predicate HandInv(reg: Registry, k: nat, p: Phase)
    requires k < |reg.log|
  {
    match p
    case Applied => reg.log[k].stamp.None?
    case Stamped(e) => Honest(reg, k, e)
    case Refused(e) => Honest(reg, k, e)
  }

  /** Every event ever enqueued is that of the change it stands for, and stands for no other. */
  ghost predicate TicketsInv(reg: Registry, history: seq<Q.Item<Ticket>>) {
    && (forall i :: 0 <= i < |history| ==> Honest(reg, history[i].event.change, history[i].event.event))
    && (forall i, j :: 0 <= i < j < |history| ==> history[i].event.change != history[j].event.change)
  }

  predicate Queued(history: seq<Q.Item<Ticket>>, k: nat) {
    exists i :: 0 <= i < |history| && history[i].event.change == k
  }

  /** In how many of its possible places the event of a change is. */
  function Places(s: State, k: nat): nat {
    Q.Bit(k in s.hands) + Q.Bit(k in s.direct) + Q.Bit(k in s.lost) + Q.Bit(Queued(s.queue.history, k))
  }

  ghost predicate PlacesInv(s: State) {
    forall k: nat :: Places(s, k) == if k < |s.reg.log| then 1 else 0
  }

  /** What counts as published really was accepted by the bus, and conversely. */
  ghost predicate PublishedInv(s: State) {
    && (forall k :: k in s.published ==> k < |s.reg.log| && s.reg.log[k].stamp.Some?)
    && s.direct <= s.published
    && (forall i :: i in s.queue.retried ==> i < |s.queue.history| && s.queue.history[i].event.change in s.published)
    && (s.queue.round.Publishing? ==>
          && |s.queue.round.answers| <= |s.queue.round.due|
          && forall j :: 0 <= j < |s.queue.round.answers| && s.queue.round.answers[j] ==>
               && s.queue.round.due[j] < |s.queue.history|
               && s.queue.history[s.queue.round.due[j]].event.change in s.published)
  }

  /** What holds at this checker, once it has joined, with regard to this tenant. */
  ghost predicate Informing(s: State, c: CheckerId, id: TenantId) {
    c in s.checkers ==> CheckerInv(s.reg, s.published, s.checkers[c], id)
  }

  /** The part of the invariant that holds whatever the checkers do. */
  ghost predicate Core(sys: System, s: State) {
    && RegistryInv(s.reg)
    && HandsInv(s.reg, s.hands)
    && TicketsInv(s.reg, s.queue.history)
    && Q.Inv(sys.cfg, s.queue)
    && PlacesInv(s)
    && PublishedInv(s)
  }

  /** Steps that only let time pass for the registry leave the checker's obligations in place. */
  lemma InformingEvolves(s: State, s': State, c: CheckerId, id: TenantId)
    requires Informing(s, c, id) && Evolves(s.reg, s'.reg)
    requires s'.checkers == s.checkers && s'.published == s.published
    ensures Informing(s', c, id)
  {
    if c in s.checkers {
      CheckerEvolves(s.reg, s'.reg, s.published, s.checkers[c], id);
    }
  }

  lemma SamePlaces(s: State, s': State)
    requires PlacesInv(s) && |s'.reg.log| == |s.reg.log| && s'.hands.Keys == s.hands.Keys
    requires s'.direct == s.direct && s'.lost == s.lost && s'.queue.history == s.queue.history
    ensures PlacesInv(s')
  {
    forall k: nat
      ensures Places(s', k) == if k < |s'.reg.log| then 1 else 0
    {
      assert k in s'.hands <==> k in s'.hands.Keys;
      assert k in s.hands <==> k in s.hands.Keys;
      assert Places(s', k) == Places(s, k);
    }
  }

  lemma CreateCore(sys: System, s: State, id: TenantId, state: TenantState)
    requires Core(sys, s) && Enabled(sys, s, Create(id, state))
    ensures var s' := Apply(sys, s, Create(id, state)); Core(sys, s') && Evolves(s.reg, s'.reg)
  {
    var s' := Apply(sys, s, Create(id, state));
    CreateEvolves(s.reg, id, state);
    EventsStay(s.reg, s'.reg);
    SamePlaces(s, s');
  }

  lemma SetStateCore(sys: System, s: State, id: TenantId, state: TenantState)
    requires Core(sys, s) && Enabled(sys, s, SetState(id, state))
    ensures var s' := Apply(sys, s, SetState(id, state)); Core(sys, s') && Evolves(s.reg, s'.reg)
  {
    var s' := Apply(sys, s, SetState(id, state));
    SetStateEvolves(s.reg, id, state);
    EventsStay(s.reg, s'.reg);
    forall k: nat
      ensures Places(s', k) == if k < |s'.reg.log| then 1 else 0
    {
      assert Places(s, k) == if k < |s.reg.log| then 1 else 0;
    }
    assert HandsInv(s'.reg, s'.hands) by {
      assert forall k :: 0 <= k < |s.reg.log| ==> s'.reg.log[k] == s.reg.log[k];
    }
  }

  lemma StampCore(sys: System, s: State, k: nat, t: int)
    requires Core(sys, s) && Enabled(sys, s, Stamp(k, t))
    ensures var s' := Apply(sys, s, Stamp(k, t)); Core(sys, s') && Evolves(s.reg, s'.reg)
  {
    var s' := Apply(sys, s, Stamp(k, t));
    StampEvolves(s.reg, k, t);
    EventsStay(s.reg, s'.reg);
    assert s'.hands.Keys == s.hands.Keys;
    SamePlaces(s, s');
    HandStamped(s.reg, s'.reg, s.hands, k, t);
  }

  lemma HandStamped(reg: Registry, reg': Registry, hands: map<nat, Phase>, k: nat, t: int)
    requires HandsInv(reg, hands) && k in hands
    requires reg'.log == reg.log[k := reg.log[k].(stamp := Some(t))]
    ensures HandsInv(reg', hands[k := Stamped(EventOf(reg'.log[k]))])
  {
    assert forall i :: 0 <= i < |reg.log| && i != k ==> reg'.log[i] == reg.log[i];
  }

  lemma PublishCore(sys: System, s: State, k: nat, ok: bool, reached: set<CheckerId>)
    requires Core(sys, s) && Enabled(sys, s, Publish(k, ok, reached))
    ensures Core(sys, Apply(sys, s, Publish(k, ok, reached)))
  {
    var s' := Apply(sys, s, Publish(k, ok, reached));
    if ok {
      forall i: nat
        ensures Places(s', i) == if i < |s'.reg.log| then 1 else 0
      {
        assert Places(s, i) == if i < |s.reg.log| then 1 else 0;
      }
    } else {
      assert s'.hands.Keys == s.hands.Keys;
      SamePlaces(s, s');
    }
  }

  lemma HandOverCore(sys: System, s: State, k: nat, t: int)
    requires Core(sys, s) && Enabled(sys, s, HandOver(k, t))
    ensures Core(sys, Apply(sys, s, HandOver(k, t)))
  {
    var s' := Apply(sys, s, HandOver(k, t));
    TickEvolves(s.reg, t);
    EventsStay(s.reg, s'.reg);
    HandOverPlaces(sys, s, k, t);
    assert Places(s, k) == 1;
    if sys.hasQueue {
      Q.StepKeeps(sys.cfg, s.queue, Q.Enqueue(Ticket(k, s.hands[k].event), t));
      TicketsSnoc(s'.reg, s.queue.history, Q.Item(Ticket(k, s.hands[k].event), t));
    }
    HandOverPublished(sys, s, k, t);
    HandGone(s.reg, s'.reg, s.hands, k);
  }

  /** A transition whose change is stamped may end. */
  lemma HandGone(reg: Registry, reg': Registry, hands: map<nat, Phase>, k: nat)
    requires HandsInv(reg, hands) && k in hands && !hands[k].Applied? && reg'.log == reg.log
    ensures HandsInv(reg', hands - {k})
  {
    assert HandInv(reg, k, hands[k]);
  }

  lemma HandOverPublished(sys: System, s: State, k: nat, t: int)
    requires PublishedInv(s) && Enabled(sys, s, HandOver(k, t))
    ensures PublishedInv(Apply(sys, s, HandOver(k, t)))
  {
  }

  lemma TicketsSnoc(reg: Registry, history: seq<Q.Item<Ticket>>, item: Q.Item<Ticket>)
    requires TicketsInv(reg, history) && Honest(reg, item.event.change, item.event.event)
    requires !Queued(history, item.event.change)
    ensures TicketsInv(reg, history + [item])
  {
  }

  lemma HandOverPlaces(sys: System, s: State, k: nat, t: int)
    requires PlacesInv(s) && Enabled(sys, s, HandOver(k, t))
    ensures PlacesInv(Apply(sys, s, HandOver(k, t)))
  {
    var s' := Apply(sys, s, HandOver(k, t));
    forall i: nat
      ensures Places(s', i) == if i < |s'.reg.log| then 1 else 0
    {
      assert Places(s, i) == if i < |s.reg.log| then 1 else 0;
      if sys.hasQueue {
        QueuedSnoc(s.queue.history, Q.Item(Ticket(k, s.hands[k].event), t), i);
      }
    }
  }

  lemma QueuedSnoc(history: seq<Q.Item<Ticket>>, item: Q.Item<Ticket>, k: nat)
    ensures Queued(history + [item], k) <==> Queued(history, k) || item.event.change == k
  {
    if Queued(history, k) {
      var i :| 0 <= i < |history| && history[i].event.change == k;
      assert (history + [item])[i].event.change == k;
    } else if item.event.change == k {
      assert (history + [item])[|history|].event.change == k;
    }
  }

  lemma WakeCore(sys: System, s: State, t: int)
    requires Core(sys, s) && Enabled(sys, s, Wake(t))
    ensures Core(sys, Apply(sys, s, Wake(t)))
  {
    var s' := Apply(sys, s, Wake(t));
    TickEvolves(s.reg, t);
    EventsStay(s.reg, s'.reg);
    SamePlaces(s, s');
  }

  lemma CollectCore(sys: System, s: State)
    requires Core(sys, s) && Enabled(sys, s, Collect)
    ensures Core(sys, Apply(sys, s, Collect))
  {
    SamePlaces(s, Apply(sys, s, Collect));
    Q.StepKeeps(sys.cfg, s.queue, Q.Collect(s.woken.value));
  }

  lemma RetryCore(sys: System, s: State, ok: bool, reached: set<CheckerId>)
    requires Core(sys, s) && Enabled(sys, s, Retry(ok, reached))
    ensures Core(sys, Apply(sys, s, Retry(ok, reached)))
  {
    var s' := Apply(sys, s, Retry(ok, reached));
    SamePlaces(s, s');
    Q.StepKeeps(sys.cfg, s.queue, Q.Answer(ok));
  }

  lemma SettleCore(sys: System, s: State, times: seq<int>, t: int)
    requires Core(sys, s) && Enabled(sys, s, Settle(times, t))
    ensures Core(sys, Apply(sys, s, Settle(times, t)))
  {
    var s' := Apply(sys, s, Settle(times, t));
    TickEvolves(s.reg, t);
    EventsStay(s.reg, s'.reg);
    SamePlaces(s, s');
    Q.StepKeeps(sys.cfg, s.queue, Q.Settle(times));
    var due, answers := s.queue.round.due, s.queue.round.answers;
    forall i | i in PublishedKeys(s.queue.slots, due, answers)
      ensures i < |s.queue.history| && s.queue.history[i].event.change in s.published
    {
      assert answers[Find(due, i)];
    }
  }

  lemma CheckerStepCore(sys: System, s: State, a: Action)
    requires Core(sys, s) && Enabled(sys, s, a)
    requires a.Join? || a.SnapBegin? || a.SnapRead? || a.LoadEntry? || a.StoreEntry?
    ensures Core(sys, Apply(sys, s, a))
  {
    var s' := Apply(sys, s, a);
    SamePlaces(s, s');
    if a.SnapBegin? {
      TickEvolves(s.reg, a.t);
      EventsStay(s.reg, s'.reg);
    }
  }

  lemma StepCore(sys: System, s: State, a: Action)
    requires Core(sys, s) && Enabled(sys, s, a)
    ensures Core(sys, Apply(sys, s, a))
  {
    match a
    case Create(id, state) => CreateCore(sys, s, id, state);
    case SetState(id, state) => SetStateCore(sys, s, id, state);
    case Stamp(k, t) => StampCore(sys, s, k, t);
    case Publish(k, ok, reached) => PublishCore(sys, s, k, ok, reached);
    case HandOver(k, t) => HandOverCore(sys, s, k, t);
    case Wake(t) => WakeCore(sys, s, t);
    case Collect => CollectCore(sys, s);
    case Retry(ok, reached) => RetryCore(sys, s, ok, reached);
    case Settle(times, t) => SettleCore(sys, s, times, t);
    case _ => CheckerStepCore(sys, s, a);
  }

  // ---- A checker under each step ----

  lemma DeliverKeeps(s: State, k: nat, e: Event, ok: bool, reached: set<CheckerId>, c: CheckerId, id: TenantId)
    requires RegistryInv(s.reg) && Informing(s, c, id) && Honest(s.reg, k, e) && c in s.checkers
    ensures CheckerInv(s.reg, if ok then s.published + {k} else s.published,
                       Deliver(s.checkers, RecordOf(e), Audience(s, ok, reached))[c], id)
  {
    DeliveryKeeps(s.reg, s.published, s.checkers[c], k, e, c in Audience(s, ok, reached), ok, id);
  }

  lemma SnapBeginKeeps(reg: Registry, published: set<nat>, ch: Checker, t: int, id: TenantId)
    requires RegistryInv(reg) && CheckerInv(reg, published, ch, id) && reg.clock < t
    ensures CheckerInv(Tick(reg, t), published, ch.(snaps := ch.snaps + {t}), id)
  {
    var ch' := ch.(snaps := ch.snaps + {t});
    TickEvolves(reg, t);
    CheckerEvolves(reg, Tick(reg, t), published, ch, id);
    assert forall r :: Truthful(Tick(reg, t), ch, r) ==> Truthful(Tick(reg, t), ch', r);
    assert forall o :: Owed(ch, o) ==> Owed(ch', o);
  }

  /** Steps of the checker itself. */
  lemma OwnStepKeeps(sys: System, s: State, a: Action, c: CheckerId, id: TenantId)
    requires Core(sys, s) && Informing(s, c, id) && Enabled(sys, s, a)
    requires (a.SnapBegin? || a.SnapRead? || a.LoadEntry? || a.StoreEntry?) && a.c == c
    requires a.StoreEntry? && a.r.id == id ==> !Stale(s.checkers[c].cells.entries, a.r)
    ensures Informing(Apply(sys, s, a), c, id)
  {
    match a
    case SnapBegin(_, t) => SnapBeginKeeps(s.reg, s.published, s.checkers[c], t, id);
    case SnapRead(_, t, read) => ReadKeeps(s.reg, s.published, s.checkers[c], t, read, id);
    case LoadEntry(_, r) => LoadKeeps(s.reg, s.published, s.checkers[c], r, id);
    case StoreEntry(_, r) => StoreKeeps(s.reg, s.published, s.checkers[c], r, id);
  }

  /** Another checker's step leaves this one alone, but for the time that may pass. */
  lemma ForeignStepKeeps(sys: System, s: State, a: Action, c: CheckerId, id: TenantId)
    requires Core(sys, s) && Informing(s, c, id) && Enabled(sys, s, a)
    requires (a.Join? || a.SnapBegin? || a.SnapRead? || a.LoadEntry? || a.StoreEntry?) && a.c != c
    ensures Informing(Apply(sys, s, a), c, id)
  {
    var s' := Apply(sys, s, a);
    if a.SnapBegin? {
      TickEvolves(s.reg, a.t);
      InformingEvolves(s, s.(reg := s'.reg), c, id);
    }
    assert c in s.checkers ==> s'.checkers[c] == s.checkers[c];
  }

  lemma CheckerStepKeeps(sys: System, s: State, a: Action, c: CheckerId, id: TenantId)
    requires Core(sys, s) && Informing(s, c, id) && Enabled(sys, s, a)
    requires a.Join? || a.SnapBegin? || a.SnapRead? || a.LoadEntry? || a.StoreEntry?
    requires a.StoreEntry? && a.c == c && a.r.id == id ==> !Stale(s.checkers[c].cells.entries, a.r)
    ensures Informing(Apply(sys, s, a), c, id)
  {
    if a.c != c {
      ForeignStepKeeps(sys, s, a, c, id);
    } else if !a.Join? {
      OwnStepKeeps(sys, s, a, c, id);
    }
  }

  lemma StepInforming(sys: System, s: State, a: Action, c: CheckerId, id: TenantId)
    requires Core(sys, s) && Informing(s, c, id) && Enabled(sys, s, a)
    requires a.StoreEntry? && a.c == c && a.r.id == id ==> !Stale(s.checkers[c].cells.entries, a.r)
    ensures Informing(Apply(sys, s, a), c, id)
  {
    var s' := Apply(sys, s, a);
    match a
    case Create(x, state) => CreateCore(sys, s, x, state); InformingEvolves(s, s', c, id);
    case SetState(x, state) => SetStateCore(sys, s, x, state); InformingEvolves(s, s', c, id);
    case Stamp(k, t) => StampCore(sys, s, k, t); InformingEvolves(s, s', c, id);
    case HandOver(k, t) => TickEvolves(s.reg, t); InformingEvolves(s, s', c, id);
    case Wake(t) => TickEvolves(s.reg, t); InformingEvolves(s, s', c, id);
    case Collect =>
    case Settle(times, t) => TickEvolves(s.reg, t); InformingEvolves(s, s', c, id);
    case Publish(k, ok, reached) =>
      if c in s.checkers {
        DeliverKeeps(s, k, s.hands[k].event, ok, reached, c, id);
      }
    case Retry(ok, reached) =>
      if c in s.checkers {
        DeliverKeeps(s, Next(s.queue).change, Next(s.queue).event, ok, reached, c, id);
      }
    case _ => CheckerStepKeeps(sys, s, a, c, id);
  }

  // ---- Runs ----

  lemma {:induction false} RunCore(sys: System, s: State, acts: seq<Action>)
    requires Core(sys, s) && Runs(sys, s, acts)
    ensures Core(sys, Run(sys, s, acts))
    decreases |acts|
  {
    if acts == [] {
    } else {
      StepCore(sys, s, acts[0]);
      RunCore(sys, Apply(sys, s, acts[0]), acts[1..]);
    }
  }

  lemma {:induction false} RunInforms(sys: System, s: State, acts: seq<Action>, c: CheckerId, id: TenantId)
    requires Core(sys, s) && Informing(s, c, id) && Runs(sys, s, acts) && Guarded(sys, s, acts, c, id)
    ensures Core(sys, Run(sys, s, acts)) && Informing(Run(sys, s, acts), c, id)
    decreases |acts|
  {
    if acts == [] {
    } else {
      StepCore(sys, s, acts[0]);
      StepInforming(sys, s, acts[0], c, id);
      RunInforms(sys, Apply(sys, s, acts[0]), acts[1..], c, id);
    }
  }

  lemma InitCore(sys: System, clock: int)
    ensures Core(sys, Init(clock))
  {
    var s := Init(clock);
    assert forall k: nat :: Places(s, k) == 0;
    assert forall k: nat :: Q.Places(s.queue, k) == 0;
  }
}
