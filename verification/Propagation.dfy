/**
 Ban propagation as one step protocol: the store, the admin service's
 transitions, the event bus, the retry queue with its worker, and any number of
 ban checkers with their startup snapshots. Every critical section, map access
 and clock reading of the Go code is one step; steps interleave freely.
 */
module Propagation {
  import opened Tenants
  import opened LastWriter
  import opened RetrySlots
  import Q = RetryRounds

  type CheckerId = nat

  /** One successful SetState: when it happened and, later, the timestamp its event got. */
  datatype Change = Change(id: TenantId, state: TenantState, setAt: int, stamp: Option<int>)

  /** The source of truth together with the log of its state changes and the clock. */
  datatype Registry = Registry(clock: int, store: map<TenantId, TenantState>, log: seq<Change>)

  /** An event on its way, with the number of the change it announces. */
  datatype Ticket = Ticket(change: nat, event: Event)

  /** Where a running transition stands: state set, event stamped, or publication refused. */
  datatype Phase = Applied | Stamped(event: Event) | Refused(event: Event)

  /**
   `ready` holds the applies that were called and have not loaded yet; `cells`
   the entries and the applies between load and store; `snaps` the start times
   of snapshot loads; `seen` the records they read from the store so far.
   */
  datatype Checker = Checker(
    subscribed: bool,
    since: int,
    ready: multiset<Record>,
    cells: Cells,
    snaps: set<int>,
    seen: set<Record>)

  /**
   `hands` maps the change of each running transition to its phase. An event
   ends up in `direct` (published at once), `lost` (refused, with no queue) or
   the queue. `woken` is the clock reading with which the worker is about to take
   the lock. `published` are the changes the bus ever accepted.
   */
  datatype State = State(
    reg: Registry,
    hands: map<nat, Phase>,
    queue: Q.Queue<Ticket>,
    woken: Option<int>,
    direct: set<nat>,
    lost: set<nat>,
    published: set<nat>,
    checkers: map<CheckerId, Checker>)

  datatype System = System(cfg: Config, hasQueue: bool)

  datatype Action =
    | Create(id: TenantId, state: TenantState)
    | SetState(id: TenantId, state: TenantState)
    | Stamp(k: nat, t: int)
    | Publish(k: nat, ok: bool, reached: set<CheckerId>)
    | HandOver(k: nat, t: int)
    | Wake(t: int)
    | Collect
    | Retry(ok: bool, reached: set<CheckerId>)
    | Settle(times: seq<int>, t: int)
    | Join(c: CheckerId, subscribed: bool)
    | SnapBegin(c: CheckerId, t: int)
    | SnapRead(c: CheckerId, t: int, id: TenantId)
    | LoadEntry(c: CheckerId, r: Record)
    | StoreEntry(c: CheckerId, r: Record)

  function Init(clock: int): State {
    State(Registry(clock, map[], []), map[], Q.NewQueue(), None, {}, {}, {}, map[])
  }

  function EventOf(c: Change): Event
    requires c.stamp.Some?
  {
    Event(c.id, c.state, c.stamp.value)
  }

  /** What a checker's handler makes of an event. */
  function RecordOf(e: Event): Record {
    Record(e.id, e.state == Banned, e.at)
  }

  /** Who gets an event: every subscriber if the bus accepts it, any of them if it reports failure. */
  function Audience(s: State, ok: bool, reached: set<CheckerId>): set<CheckerId> {
    set c | c in s.checkers && s.checkers[c].subscribed && (ok || c in reached)
  }

  function Deliver(checkers: map<CheckerId, Checker>, r: Record, who: set<CheckerId>): map<CheckerId, Checker> {
    map c | c in checkers ::
      if c in who then checkers[c].(ready := checkers[c].ready + multiset{r}) else checkers[c]
  }

  /** The event the worker publishes next. */
  predicate HasNext(q: Q.Queue<Ticket>) {
    && q.round.Publishing? && |q.round.answers| < |q.round.due|
    && q.round.due[|q.round.answers|] < |q.history|
  }

  function Next(q: Q.Queue<Ticket>): Ticket
    requires HasNext(q)
  {
    q.history[q.round.due[|q.round.answers|]].event
  }

  predicate Enabled(sys: System, s: State, a: Action) {
    match a
    case Create(id, _) => id !in s.reg.store
    case SetState(id, _) => id in s.reg.store
    case Stamp(k, t) => k in s.hands && k < |s.reg.log| && s.hands[k].Applied? && s.reg.clock < t
    case Publish(k, _, _) => k in s.hands && s.hands[k].Stamped?
    case HandOver(k, t) =>
      k in s.hands && s.hands[k].Refused? && s.reg.clock < t && (sys.hasQueue ==> sys.cfg.maxSize >= 1)
    case Wake(t) => sys.hasQueue && s.queue.round.Idle? && s.woken.None? && s.reg.clock < t
    case Collect => s.woken.Some? && Q.Enabled(sys.cfg, s.queue, Q.Collect(s.woken.value))
    case Retry(ok, _) => HasNext(s.queue) && Q.Enabled(sys.cfg, s.queue, Q.Answer(ok))
    case Settle(times, t) =>
      && s.reg.clock < t && (forall i :: 0 <= i < |times| ==> s.reg.clock < times[i] <= t)
      && Q.Enabled(sys.cfg, s.queue, Q.Settle(times))
    case Join(c, _) => c !in s.checkers
    case SnapBegin(c, t) => c in s.checkers && s.reg.clock < t
    case SnapRead(c, t, id) => c in s.checkers && t in s.checkers[c].snaps && id in s.reg.store
    case LoadEntry(c, r) => c in s.checkers && r in s.checkers[c].ready
    case StoreEntry(c, r) => c in s.checkers && r in s.checkers[c].cells.writing
  }

  function Tick(reg: Registry, t: int): Registry {
    reg.(clock := t)
  }

  function Apply(sys: System, s: State, a: Action): State
    requires Enabled(sys, s, a)
  {
    match a
    case Create(id, state) => s.(reg := s.reg.(store := s.reg.store[id := state]))
    case SetState(id, state) =>
      s.(reg := s.reg.(store := s.reg.store[id := state],
                       log := s.reg.log + [Change(id, state, s.reg.clock, None)]),
         hands := s.hands[|s.reg.log| := Applied])
    case Stamp(k, t) =>
      var c := s.reg.log[k].(stamp := Some(t));
      s.(reg := s.reg.(clock := t, log := s.reg.log[k := c]), hands := s.hands[k := Stamped(EventOf(c))])
    case Publish(k, ok, reached) =>
      var e := s.hands[k].event;
      var s1 := s.(checkers := Deliver(s.checkers, RecordOf(e), Audience(s, ok, reached)));
      if ok then s1.(hands := s.hands - {k}, direct := s.direct + {k}, published := s.published + {k})
      else s1.(hands := s.hands[k := Refused(e)])
    case HandOver(k, t) =>
      var s1 := s.(reg := Tick(s.reg, t), hands := s.hands - {k});
      if sys.hasQueue then s1.(queue := Q.Apply(sys.cfg, s.queue, Q.Enqueue(Ticket(k, s.hands[k].event), t)))
      else s1.(lost := s.lost + {k})
    case Wake(t) => s.(reg := Tick(s.reg, t), woken := Some(t))
    case Collect => s.(woken := None, queue := Q.Apply(sys.cfg, s.queue, Q.Collect(s.woken.value)))
    case Retry(ok, reached) =>
      var ticket := Next(s.queue);
      s.(queue := Q.Apply(sys.cfg, s.queue, Q.Answer(ok)),
         published := if ok then s.published + {ticket.change} else s.published,
         checkers := Deliver(s.checkers, RecordOf(ticket.event), Audience(s, ok, reached)))
    case Settle(times, t) => s.(reg := Tick(s.reg, t), queue := Q.Apply(sys.cfg, s.queue, Q.Settle(times)))
    case Join(c, subscribed) =>
      s.(checkers := s.checkers[c := Checker(subscribed, s.reg.clock, multiset{}, Cells(map[], multiset{}), {}, {})])
    case SnapBegin(c, t) =>
      var ch := s.checkers[c];
      s.(reg := Tick(s.reg, t), checkers := s.checkers[c := ch.(snaps := ch.snaps + {t})])
    case SnapRead(c, t, id) =>
      s.(checkers := s.checkers[c := ReadInto(s.checkers[c], Record(id, s.reg.store[id] == Banned, t))])
    case LoadEntry(c, r) => s.(checkers := s.checkers[c := LoadInto(s.checkers[c], r)])
    case StoreEntry(c, r) => s.(checkers := s.checkers[c := StoreInto(s.checkers[c], r)])
  }

  function ReadInto(ch: Checker, r: Record): Checker {
    ch.(ready := ch.ready + multiset{r}, seen := ch.seen + {r})
  }

  function LoadInto(ch: Checker, r: Record): Checker {
    ch.(ready := ch.ready - multiset{r}, cells := LoadCells(ch.cells, r))
  }

  function StoreInto(ch: Checker, r: Record): Checker {
    ch.(cells := StoreCells(ch.cells, r))
  }

  predicate Runs(sys: System, s: State, acts: seq<Action>)
    decreases |acts|
  {
    acts == [] || (Enabled(sys, s, acts[0]) && Runs(sys, Apply(sys, s, acts[0]), acts[1..]))
  }

  function Run(sys: System, s: State, acts: seq<Action>): State
    requires Runs(sys, s, acts)
    decreases |acts|
  {
    if acts == [] then s else Run(sys, Apply(sys, s, acts[0]), acts[1..])
  }

  /** The event a step hands to the bus, by a transition or by the retry worker. */
  function Handed(sys: System, s: State, a: Action): Option<Event>
    requires Enabled(sys, s, a)
  {
    match a
    case Publish(k, _, _) => Some(s.hands[k].event)
    case Retry(_, _) => Some(Next(s.queue).event)
    case _ => None
  }

  /** No store for this tenant at this checker overwrites something strictly newer: no race of `apply` occurs there. */
  predicate Guarded(sys: System, s: State, acts: seq<Action>, c: CheckerId, id: TenantId)
    requires Runs(sys, s, acts)
    decreases |acts|
  {
    acts != [] ==>
      && (acts[0].StoreEntry? && acts[0].c == c && acts[0].r.id == id ==>
            !Stale(s.checkers[c].cells.entries, acts[0].r))
      && Guarded(sys, Apply(sys, s, acts[0]), acts[1..], c, id)
  }

  /** Applies of this tenant at this checker never overlap. */
  predicate SerialApplies(sys: System, s: State, acts: seq<Action>, c: CheckerId, id: TenantId)
    requires Runs(sys, s, acts)
    decreases |acts|
  {
    acts != [] ==>
      && (acts[0].LoadEntry? && acts[0].c == c && acts[0].r.id == id ==> Alone(s.checkers[c].cells, id))
      && SerialApplies(sys, Apply(sys, s, acts[0]), acts[1..], c, id)
  }

  /** Some transition of this tenant has set the state and not read its timestamp yet. */
  predicate Unstamped(s: State, id: TenantId) {
    exists k :: k in s.hands && s.hands[k].Applied? && k < |s.reg.log| && s.reg.log[k].id == id
  }

  /** Transitions of this tenant never overlap between their SetState and their timestamp. */
  predicate SerialTransitions(sys: System, s: State, acts: seq<Action>, id: TenantId)
    requires Runs(sys, s, acts)
    decreases |acts|
  {
    acts != [] ==>
      && (acts[0].SetState? && acts[0].id == id ==> !Unstamped(s, id))
      && SerialTransitions(sys, Apply(sys, s, acts[0]), acts[1..], id)
  }

  // ---- Putting runs together ----

  lemma RunCons(sys: System, s: State, a: Action, rest: seq<Action>)
    requires Enabled(sys, s, a) && Runs(sys, Apply(sys, s, a), rest)
    ensures Runs(sys, s, [a] + rest) && Run(sys, s, [a] + rest) == Run(sys, Apply(sys, s, a), rest)
  {
    assert ([a] + rest)[1..] == rest;
  }

  lemma SerialCons(sys: System, s: State, a: Action, rest: seq<Action>, c: CheckerId, id: TenantId)
    requires Enabled(sys, s, a) && Runs(sys, Apply(sys, s, a), rest)
    ensures Runs(sys, s, [a] + rest)
    ensures SerialApplies(sys, s, [a] + rest, c, id) <==>
            && (a.LoadEntry? && a.c == c && a.r.id == id ==> Alone(s.checkers[c].cells, id))
            && SerialApplies(sys, Apply(sys, s, a), rest, c, id)
    ensures SerialTransitions(sys, s, [a] + rest, id) <==>
            && (a.SetState? && a.id == id ==> !Unstamped(s, id))
            && SerialTransitions(sys, Apply(sys, s, a), rest, id)
  {
    assert ([a] + rest)[1..] == rest;
  }

  lemma {:induction false} RunConcat(sys: System, s: State, a: seq<Action>, b: seq<Action>)
    requires Runs(sys, s, a) && Runs(sys, Run(sys, s, a), b)
    ensures Runs(sys, s, a + b) && Run(sys, s, a + b) == Run(sys, Run(sys, s, a), b)
    decreases |a|
  {
    if a == [] {
      assert a + b == b;
    } else {
      RunConcat(sys, Apply(sys, s, a[0]), a[1..], b);
      assert a + b == [a[0]] + (a[1..] + b);
      RunCons(sys, s, a[0], a[1..] + b);
    }
  }

  lemma {:induction false} SerialConcat(sys: System, s: State, a: seq<Action>, b: seq<Action>, c: CheckerId,
                                        id: TenantId)
    requires Runs(sys, s, a) && Runs(sys, Run(sys, s, a), b)
    ensures Runs(sys, s, a + b)
    ensures SerialApplies(sys, s, a + b, c, id) <==>
            SerialApplies(sys, s, a, c, id) && SerialApplies(sys, Run(sys, s, a), b, c, id)
    ensures SerialTransitions(sys, s, a + b, id) <==>
            SerialTransitions(sys, s, a, id) && SerialTransitions(sys, Run(sys, s, a), b, id)
    decreases |a|
  {
    if a == [] {
      assert a + b == b;
    } else {
      var s1 := Apply(sys, s, a[0]);
      RunConcat(sys, s1, a[1..], b);
      SerialConcat(sys, s1, a[1..], b, c, id);
      assert a + b == [a[0]] + (a[1..] + b) && a == [a[0]] + a[1..];
      SerialCons(sys, s, a[0], a[1..] + b, c, id);
      SerialCons(sys, s, a[0], a[1..], c, id);
    }
  }
}
