/** What became of each event, read off the steps of the run. */
module PropagationHistory {
  import opened Tenants
  import opened LastWriter
  import opened RetrySlots
  import Q = RetryRounds
  import opened Propagation
  import opened PropagationInvariant
  import opened PropagationTheorems

  // ---- The store ----

  function Stored(store: map<TenantId, TenantState>, id: TenantId): Option<TenantState> {
    if id in store then Some(store[id]) else None
  }

  /** The state a tenant was last given, by its creation or by a transition. */
  function LastGiven(start: Option<TenantState>, acts: seq<Action>, id: TenantId): Option<TenantState>
    decreases |acts|
  {
    if acts == [] then start
    else
      var a := acts[0];
      LastGiven(if (a.Create? || a.SetState?) && a.id == id then Some(a.state) else start, acts[1..], id)
  }

  /** In every run the store holds for each tenant what it was last given, and nothing else changes it. */
  lemma {:induction false} StoreByHistory(sys: System, s: State, acts: seq<Action>, id: TenantId)
    requires Runs(sys, s, acts)
    ensures Stored(Run(sys, s, acts).reg.store, id) == LastGiven(Stored(s.reg.store, id), acts, id)
    decreases |acts|
  {
    if acts == [] {
    } else {
      StoreByHistory(sys, Apply(sys, s, acts[0]), acts[1..], id);
    }
  }

  // ---- A transition hands its event over once ----

  /** The transition of change k asked the bus, and got this answer. */
  predicate Asked(acts: seq<Action>, k: nat, ok: bool) {
    acts != [] && ((acts[0].Publish? && acts[0].k == k && acts[0].ok == ok) || Asked(acts[1..], k, ok))
  }

  /** The transition of change k went on to the queue, or to nothing. */
  predicate GivenOver(acts: seq<Action>, k: nat) {
    acts != [] && ((acts[0].HandOver? && acts[0].k == k) || GivenOver(acts[1..], k))
  }

  /** How often the transition of change k asked the bus. */
  function Asks(acts: seq<Action>, k: nat): nat {
    if acts == [] then 0 else Q.Bit(acts[0].Publish? && acts[0].k == k) + Asks(acts[1..], k)
  }

  predicate RefusedInHand(s: State, k: nat) {
    k in s.hands && s.hands[k].Refused?
  }

  /** The transition of change k is still to come, or has not asked the bus yet. */
  predicate WillAsk(s: State, k: nat) {
    k >= |s.reg.log| || (k in s.hands && !s.hands[k].Refused?)
  }

  /** Every running transition belongs to a logged change. */
  predicate InLog(s: State) {
    forall k :: k in s.hands ==> k < |s.reg.log|
  }

  lemma StepAsks(sys: System, s: State, a: Action, k: nat)
    requires InLog(s) && Enabled(sys, s, a)
    ensures var s' := Apply(sys, s, a);
            InLog(s') && Q.Bit(a.Publish? && a.k == k) + Q.Bit(WillAsk(s', k)) == Q.Bit(WillAsk(s, k))
  {
  }

  lemma {:induction false} AsksOnce(sys: System, s: State, acts: seq<Action>, k: nat)
    requires InLog(s) && Runs(sys, s, acts)
    ensures Asks(acts, k) + Q.Bit(WillAsk(Run(sys, s, acts), k)) == Q.Bit(WillAsk(s, k))
    decreases |acts|
  {
    if acts == [] {
    } else {
      StepAsks(sys, s, acts[0], k);
      AsksOnce(sys, Apply(sys, s, acts[0]), acts[1..], k);
    }
  }

  lemma {:induction false} DirectWasAccepted(sys: System, s: State, acts: seq<Action>, k: nat)
    requires Runs(sys, s, acts)
    ensures k in Run(sys, s, acts).direct <==> k in s.direct || Asked(acts, k, true)
    decreases |acts|
  {
    if acts == [] {
    } else {
      DirectWasAccepted(sys, Apply(sys, s, acts[0]), acts[1..], k);
    }
  }

  lemma StepRefuses(sys: System, s: State, a: Action, k: nat)
    requires InLog(s) && Enabled(sys, s, a)
    ensures RefusedInHand(s, k) || (a.Publish? && a.k == k && !a.ok) <==>
            RefusedInHand(Apply(sys, s, a), k) || (a.HandOver? && a.k == k)
  {
  }

  lemma {:induction false} RefusedGoesOn(sys: System, s: State, acts: seq<Action>, k: nat)
    requires InLog(s) && Runs(sys, s, acts)
    ensures RefusedInHand(s, k) || Asked(acts, k, false) <==> RefusedInHand(Run(sys, s, acts), k) || GivenOver(acts, k)
    decreases |acts|
  {
    if acts == [] {
    } else {
      StepAsks(sys, s, acts[0], k);
      StepRefuses(sys, s, acts[0], k);
      RefusedGoesOn(sys, Apply(sys, s, acts[0]), acts[1..], k);
    }
  }

  /** The event of change k was enqueued, or lost for lack of a queue. */
  predicate LeftBehind(s: State, k: nat) {
    k in s.lost || Queued(s.queue.history, k)
  }

  lemma StepLeaves(sys: System, s: State, a: Action, k: nat)
    requires Enabled(sys, s, a)
    ensures LeftBehind(Apply(sys, s, a), k) <==> LeftBehind(s, k) || (a.HandOver? && a.k == k)
  {
    if a.HandOver? && sys.hasQueue {
      QueuedSnoc(s.queue.history, Q.Item(Ticket(a.k, s.hands[a.k].event), a.t), k);
    }
  }

  lemma {:induction false} GivenOverIsLeft(sys: System, s: State, acts: seq<Action>, k: nat)
    requires Runs(sys, s, acts)
    ensures LeftBehind(Run(sys, s, acts), k) <==> LeftBehind(s, k) || GivenOver(acts, k)
    decreases |acts|
  {
    if acts == [] {
    } else {
      StepLeaves(sys, s, acts[0], k);
      GivenOverIsLeft(sys, Apply(sys, s, acts[0]), acts[1..], k);
    }
  }

  /**
   In every run, the transition of each change asks the bus at most once, and
   exactly once if it has ended. Its event counts as published directly exactly
   when the bus accepted it. When the bus refused it, it is enqueued if there is a
   queue and lost if there is none, unless the transition still has it in hand.
   */
  lemma FateByHistory(sys: System, clock: int, acts: seq<Action>, k: nat)
    requires Runs(sys, Init(clock), acts)
    ensures var s := Run(sys, Init(clock), acts);
            && Asks(acts, k) <= 1
            && (k < |s.reg.log| && k !in s.hands ==> Asks(acts, k) == 1)
            && (k in s.direct <==> Asked(acts, k, true))
            && (Asked(acts, k, false) <==>
                  RefusedInHand(s, k) || if sys.hasQueue then Queued(s.queue.history, k) else k in s.lost)
  {
    AsksOnce(sys, Init(clock), acts, k);
    DirectWasAccepted(sys, Init(clock), acts, k);
    RefusedGoesOn(sys, Init(clock), acts, k);
    GivenOverIsLeft(sys, Init(clock), acts, k);
    StaysLostWithoutQueue(sys, Init(clock), acts);
  }

  /** The bus may refuse any event; the transition then enqueues it as the newest entry, due at once, or loses it. */
  lemma RefusedIsKept(sys: System, s: State, k: nat, reached: set<CheckerId>, t: int)
    requires k in s.hands && s.hands[k].Stamped? && s.reg.clock < t && (sys.hasQueue ==> sys.cfg.maxSize >= 1)
    ensures Runs(sys, s, [Publish(k, false, reached), HandOver(k, t)])
    ensures var s' := Run(sys, s, [Publish(k, false, reached), HandOver(k, t)]);
            && s'.hands == s.hands - {k} && s'.published == s.published && s'.direct == s.direct
            && (sys.hasQueue ==>
                  && s'.lost == s.lost
                  && s'.queue.history == s.queue.history + [Q.Item(Ticket(k, s.hands[k].event), t)]
                  && s'.queue.slots == EnqueueSlots(sys.cfg, s.queue.slots, |s.queue.history|, t))
            && (!sys.hasQueue ==> s'.lost == s.lost + {k} && s'.queue == s.queue)
  {
    var acts := [Publish(k, false, reached), HandOver(k, t)];
    var s1 := Apply(sys, s, acts[0]);
    RunCons(sys, s1, HandOver(k, t), []);
    RunCons(sys, s, Publish(k, false, reached), [HandOver(k, t)] + []);
    assert acts == [Publish(k, false, reached)] + ([HandOver(k, t)] + []);
    assert s1.hands - {k} == s.hands - {k};
  }

  /** So may the retry worker be refused: whatever the bus answers, its next publish call can happen. */
  lemma WorkerMayBeRefused(sys: System, clock: int, acts: seq<Action>, ok: bool, reached: set<CheckerId>)
    requires Runs(sys, Init(clock), acts)
    requires var q := Run(sys, Init(clock), acts).queue; q.round.Publishing? && |q.round.answers| < |q.round.due|
    ensures Enabled(sys, Run(sys, Init(clock), acts), Retry(ok, reached))
  {
    ReachableCore(sys, clock, acts);
  }

  // ---- Deliveries ----

  /** What a step gives the checker to apply: an event that reaches it, or what its snapshot read. */
  function Given(sys: System, s: State, a: Action, c: CheckerId): multiset<Record>
    requires Enabled(sys, s, a)
  {
    if c !in s.checkers then multiset{}
    else
      match a
      case Publish(k, ok, reached) =>
        if s.checkers[c].subscribed && (ok || c in reached) then multiset{RecordOf(s.hands[k].event)} else multiset{}
      case Retry(ok, reached) =>
        if s.checkers[c].subscribed && (ok || c in reached) then multiset{RecordOf(Next(s.queue).event)} else multiset{}
      case SnapRead(d, t, id) => if d == c then multiset{Record(id, s.reg.store[id] == Banned, t)} else multiset{}
      case _ => multiset{}
  }

  function AllGiven(sys: System, s: State, acts: seq<Action>, c: CheckerId): multiset<Record>
    requires Runs(sys, s, acts)
    decreases |acts|
  {
    if acts == [] then multiset{}
    else Given(sys, s, acts[0], c) + AllGiven(sys, Apply(sys, s, acts[0]), acts[1..], c)
  }

  /** The applies that have begun at the checker. */
  function Begun(acts: seq<Action>, c: CheckerId): multiset<Record> {
    if acts == [] then multiset{}
    else Loaded(acts[0], c) + Begun(acts[1..], c)
  }

  function Waiting(s: State, c: CheckerId): multiset<Record> {
    if c in s.checkers then s.checkers[c].ready else multiset{}
  }

  function Loaded(a: Action, c: CheckerId): multiset<Record> {
    if a.LoadEntry? && a.c == c then multiset{a.r} else multiset{}
  }

  lemma BusDelivers(sys: System, s: State, a: Action, c: CheckerId)
    requires Enabled(sys, s, a) && (a.Publish? || a.Retry?)
    ensures Waiting(Apply(sys, s, a), c) == Waiting(s, c) + Given(sys, s, a, c)
  {
    var s' := Apply(sys, s, a);
    assert s'.checkers.Keys == s.checkers.Keys;
    if c in s.checkers {
      assert c in s'.checkers.Keys;
    }
  }

  lemma LoadTakes(sys: System, s: State, c: CheckerId, r: Record)
    requires Enabled(sys, s, LoadEntry(c, r))
    ensures Waiting(Apply(sys, s, LoadEntry(c, r)), c) + multiset{r} == Waiting(s, c)
  {
    assert (s.checkers[c].ready - multiset{r}) + multiset{r} == s.checkers[c].ready;
  }

  /** The other steps of checkers leave alone what waits, but for a snapshot's read. */
  lemma CheckerDelivers(sys: System, s: State, a: Action, c: CheckerId)
    requires Enabled(sys, s, a) && (a.Join? || a.SnapBegin? || a.SnapRead? || a.LoadEntry? || a.StoreEntry?)
    requires a.LoadEntry? ==> a.c != c
    ensures Waiting(Apply(sys, s, a), c) == Waiting(s, c) + Given(sys, s, a, c)
  {
  }

  lemma StepDelivers(sys: System, s: State, a: Action, c: CheckerId)
    requires Enabled(sys, s, a)
    ensures Waiting(Apply(sys, s, a), c) + Loaded(a, c) == Waiting(s, c) + Given(sys, s, a, c)
  {
    if a.Publish? || a.Retry? {
      BusDelivers(sys, s, a, c);
    } else if a.LoadEntry? && a.c == c {
      LoadTakes(sys, s, c, a.r);
    } else if a.Join? || a.SnapBegin? || a.SnapRead? || a.LoadEntry? || a.StoreEntry? {
      CheckerDelivers(sys, s, a, c);
    }
  }

  lemma Shift(last: multiset<Record>, begun: multiset<Record>, mid: multiset<Record>, given: multiset<Record>,
              load: multiset<Record>, first: multiset<Record>, gift: multiset<Record>)
    requires last + begun == mid + given && mid + load == first + gift
    ensures last + (load + begun) == first + (gift + given)
  {
    assert last + (load + begun) == (last + begun) + load;
    assert (mid + given) + load == (mid + load) + given;
    assert (first + gift) + given == first + (gift + given);
  }

  /** Every delivery and every snapshot read reaches the checker exactly once: it is waiting, or its apply has begun. */
  lemma {:induction false} DeliveriesAccounted(sys: System, s: State, acts: seq<Action>, c: CheckerId)
    requires Runs(sys, s, acts)
    ensures Waiting(Run(sys, s, acts), c) + Begun(acts, c) == Waiting(s, c) + AllGiven(sys, s, acts, c)
    decreases |acts|
  {
    if acts == [] {
    } else {
      var s1 := Apply(sys, s, acts[0]);
      StepDelivers(sys, s, acts[0], c);
      DeliveriesAccounted(sys, s1, acts[1..], c);
      Shift(Waiting(Run(sys, s, acts), c), Begun(acts[1..], c), Waiting(s1, c), AllGiven(sys, s1, acts[1..], c),
            Loaded(acts[0], c), Waiting(s, c), Given(sys, s, acts[0], c));
    }
  }

  /** A checker subscribes exactly when it joins as a subscriber, and stays as it joined. */
  lemma {:induction false} SubscribedAsJoined(sys: System, s: State, acts: seq<Action>, c: CheckerId)
    requires Runs(sys, s, acts)
    ensures var s' := Run(sys, s, acts);
            c in s'.checkers && s'.checkers[c].subscribed <==>
              (c in s.checkers && s.checkers[c].subscribed) || Join(c, true) in acts
    decreases |acts|
  {
    if acts == [] {
    } else {
      var s1 := Apply(sys, s, acts[0]);
      SubscribedAsJoined(sys, s1, acts[1..], c);
      assert acts == [acts[0]] + acts[1..];
    }
  }
}
