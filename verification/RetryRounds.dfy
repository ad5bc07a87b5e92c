/**
 The retry queue as a state machine: enqueues interleave freely with the three
 phases of the worker's passes (copy the due entries, publish them one by one
 without the lock, apply the answers). Everything below holds of every run.
 */
module RetryRounds {
  import opened Tenants
  import opened Backoff
  import opened RetrySlots

  datatype Item<+E> = Item(event: E, at: int)

  datatype Round = Idle | Publishing(now: int, due: seq<nat>, answers: seq<bool>)

  /**
   `history` lists every entry ever enqueued, so an entry's serial number is its
   index there. `tries` counts the queue's publish calls per entry. An entry that
   left the list is in `evicted`, `retried` or `exhausted` (with its last time).
   */
  datatype Queue<+E> = Queue(
    history: seq<Item<E>>,
    slots: seq<Slot>,
    round: Round,
    tries: seq<nat>,
    evicted: set<nat>,
    retried: set<nat>,
    exhausted: map<nat, int>)

  datatype Action<+E> =
    | Enqueue(event: E, now: int)
    | Collect(now: int)
    | Answer(ok: bool)
    | Settle(times: seq<int>)

  function NewQueue<E>(): Queue<E> {
    Queue([], [], Idle, [], {}, {}, map[])
  }

  predicate Enabled<E>(cfg: Config, q: Queue<E>, a: Action<E>) {
    match a
    case Enqueue(_, _) => cfg.maxSize >= 1
    case Collect(_) => q.round.Idle?
    case Answer(_) =>
      && q.round.Publishing? && |q.round.answers| < |q.round.due|
      && q.round.due[|q.round.answers|] < |q.tries|
    case Settle(times) =>
      && q.round.Publishing? && Matching(q.round.due, q.round.answers, times)
      && forall i :: 0 <= i < |times| ==> q.round.now <= times[i]
  }

  function Apply<E>(cfg: Config, q: Queue<E>, a: Action<E>): Queue<E>
    requires Enabled(cfg, q, a)
  {
    match a
    case Enqueue(e, now) =>
      var key := |q.history|;
      q.(history := q.history + [Item(e, now)],
         slots := EnqueueSlots(cfg, q.slots, key, now),
         tries := q.tries + [0],
         evicted := if |q.slots| >= cfg.maxSize then q.evicted + {q.slots[0].key} else q.evicted)
    case Collect(now) =>
      var due := DueKeys(q.slots, now);
      if due == [] then q else q.(round := Publishing(now, due, []))
    case Answer(ok) =>
      var key := q.round.due[|q.round.answers|];
      q.(round := q.round.(answers := q.round.answers + [ok]), tries := q.tries[key := q.tries[key] + 1])
    case Settle(times) =>
      var due, answers := q.round.due, q.round.answers;
      q.(slots := SettleSlots(cfg, q.slots, due, answers, times),
         round := Idle,
         retried := q.retried + PublishedKeys(q.slots, due, answers),
         exhausted := q.exhausted + map key | key in ExhaustedKeys(cfg, q.slots, due, answers) :: q.round.now)
  }

  predicate Runs<E>(cfg: Config, q: Queue<E>, acts: seq<Action<E>>)
    decreases |acts|
  {
    acts == [] || (Enabled(cfg, q, acts[0]) && Runs(cfg, Apply(cfg, q, acts[0]), acts[1..]))
  }

  function Run<E>(cfg: Config, q: Queue<E>, acts: seq<Action<E>>): Queue<E>
    requires Runs(cfg, q, acts)
    decreases |acts|
  {
    if acts == [] then q else Run(cfg, Apply(cfg, q, acts[0]), acts[1..])
  }

  // ---- What every step keeps ----

  /** The list is bounded, in enqueue order, and free of duplicates. */
  predicate Ordered<E>(cfg: Config, q: Queue<E>) {
    && Ascending(q.slots)
    && |q.slots| <= cfg.maxSize
    && |q.tries| == |q.history|
    && (forall s :: s in q.slots ==> s.key < |q.history| && s.attempts <= cfg.maxRetries)
  }

  /** The entries copied out at the start of a pass are still due when they are still listed. */
  predicate RoundSound<E>(q: Queue<E>) {
    q.round.Publishing? ==>
      && |q.round.answers| <= |q.round.due|
      && AscendingKeys(q.round.due)
      && (forall i :: 0 <= i < |q.round.due| ==> q.round.due[i] < |q.history|)
      && (forall s :: s in q.slots && s.key in q.round.due ==> s.next <= q.round.now)
  }

  /** Whether the running pass has already published this entry. */
  predicate TriedNow(round: Round, key: nat) {
    round.Publishing? && |round.answers| <= |round.due| && key in round.due[..|round.answers|]
  }

  /** An entry has been published `attempts` times, plus once if the running pass got to it. */
  predicate Counted<E>(cfg: Config, q: Queue<E>)
    requires Ordered(cfg, q) && RoundSound(q)
  {
    && (forall s :: s in q.slots ==> q.tries[s.key] == s.attempts + if TriedNow(q.round, s.key) then 1 else 0)
    && (forall i :: 0 <= i < |q.tries| ==> q.tries[i] <= cfg.maxRetries + 1)
    && (q.round.Publishing? ==>
          forall i :: |q.round.answers| <= i < |q.round.due| ==> q.tries[q.round.due[i]] <= cfg.maxRetries)
  }

  function Bit(b: bool): nat {
    if b then 1 else 0
  }

  /** In how many of its possible places an entry is. */
  function Places<E>(q: Queue<E>, i: nat): nat {
    Bit(i in Keys(q.slots)) + Bit(i in q.evicted) + Bit(i in q.retried) + Bit(i in q.exhausted)
  }

  /** Every entry is listed or gone for one reason, never two, and nothing else is. */
  ghost predicate Accounted<E>(q: Queue<E>) {
    forall i: nat :: Places(q, i) == if i < |q.history| then 1 else 0
  }

  /** No delay of this configuration overflows. */
  predicate NoOverflow(cfg: Config) {
    cfg.baseBackoff >= 0 && (cfg.maxRetries > 0 ==> cfg.baseBackoff * Pow2(cfg.maxRetries - 1) < TWO_63)
  }

  /** Entries really wait their exponential delays before the next try. */
  predicate Waited<E>(cfg: Config, q: Queue<E>)
    requires Ordered(cfg, q)
  {
    && (forall s :: s in q.slots ==> s.next >= q.history[s.key].at + TotalDelay(cfg.baseBackoff, s.attempts))
    && (forall i :: i in q.exhausted ==>
          i < |q.history| && q.exhausted[i] >= q.history[i].at + TotalDelay(cfg.baseBackoff, cfg.maxRetries))
  }

  ghost predicate Inv<E>(cfg: Config, q: Queue<E>) {
    && Ordered(cfg, q)
    && RoundSound(q)
    && Counted(cfg, q)
    && Accounted(q)
    && (NoOverflow(cfg) ==> Waited(cfg, q))
  }

  lemma EnqueueKeeps<E>(cfg: Config, q: Queue<E>, e: E, now: int)
    requires Inv(cfg, q) && Enabled(cfg, q, Enqueue(e, now))
    ensures Inv(cfg, Apply(cfg, q, Enqueue(e, now)))
  {
    var q' := Apply(cfg, q, Enqueue(e, now));
    EnqueueMember(cfg, q.slots, |q.history|, now);
    EnqueueAscends(cfg, q, now);
    EnqueueAccounts(cfg, q, e, now);
    EnqueueRound(cfg, q, e, now);
    EnqueueCounts(cfg, q, e, now);
    if NoOverflow(cfg) {
      EnqueueWaits(cfg, q, e, now);
    }
  }

  lemma EnqueueRound<E>(cfg: Config, q: Queue<E>, e: E, now: int)
    requires Ordered(cfg, q) && RoundSound(q) && cfg.maxSize >= 1
    ensures RoundSound(Apply(cfg, q, Enqueue(e, now)))
  {
    EnqueueMember(cfg, q.slots, |q.history|, now);
  }

  lemma EnqueueCounts<E>(cfg: Config, q: Queue<E>, e: E, now: int)
    requires Ordered(cfg, q) && RoundSound(q) && Counted(cfg, q) && cfg.maxSize >= 1
    requires var q' := Apply(cfg, q, Enqueue(e, now)); Ordered(cfg, q') && RoundSound(q')
    ensures Counted(cfg, Apply(cfg, q, Enqueue(e, now)))
  {
    EnqueueMember(cfg, q.slots, |q.history|, now);
  }

  lemma EnqueueWaits<E>(cfg: Config, q: Queue<E>, e: E, now: int)
    requires Ordered(cfg, q) && Waited(cfg, q) && cfg.maxSize >= 1
    requires Ordered(cfg, Apply(cfg, q, Enqueue(e, now)))
    ensures Waited(cfg, Apply(cfg, q, Enqueue(e, now)))
  {
    EnqueueMember(cfg, q.slots, |q.history|, now);
    assert TotalDelay(cfg.baseBackoff, 0) == 0;
  }

  lemma EnqueueMember(cfg: Config, slots: seq<Slot>, key: nat, now: int)
    requires cfg.maxSize >= 1
    ensures forall s :: s in EnqueueSlots(cfg, slots, key, now) ==> s == Slot(key, 0, now) || s in slots
  {
    var kept := if |slots| >= cfg.maxSize then slots[1..] else slots;
    assert EnqueueSlots(cfg, slots, key, now) == kept + [Slot(key, 0, now)];
  }

  lemma EnqueueAscends<E>(cfg: Config, q: Queue<E>, now: int)
    requires Ordered(cfg, q) && cfg.maxSize >= 1
    ensures Ascending(EnqueueSlots(cfg, q.slots, |q.history|, now))
    ensures |EnqueueSlots(cfg, q.slots, |q.history|, now)| <= cfg.maxSize
  {
    assert forall i :: 0 <= i < |q.slots| ==> q.slots[i] in q.slots;
  }

  lemma EnqueueAccounts<E>(cfg: Config, q: Queue<E>, e: E, now: int)
    requires Ordered(cfg, q) && Accounted(q) && cfg.maxSize >= 1
    ensures Accounted(Apply(cfg, q, Enqueue(e, now)))
  {
    var q' := Apply(cfg, q, Enqueue(e, now));
    var n := |q.history|;
    forall i: nat
      ensures Places(q', i) == if i < n + 1 then 1 else 0
    {
      assert Places(q, i) == if i < n then 1 else 0;
      EnqueueLists(cfg, q.slots, n, now, i);
      if |q.slots| >= cfg.maxSize {
        assert q.slots[0] in q.slots;
      }
    }
  }

  /** An append lists the newcomer and, when full, unlists the oldest slot. */
  lemma EnqueueLists(cfg: Config, slots: seq<Slot>, key: nat, now: int, k: nat)
    requires cfg.maxSize >= 1 && Ascending(slots)
    ensures k in Keys(EnqueueSlots(cfg, slots, key, now)) <==>
            k == key || (k in Keys(slots) && (|slots| >= cfg.maxSize ==> k != slots[0].key))
  {
    var newcomer := Slot(key, 0, now);
    var kept := if |slots| >= cfg.maxSize then slots[1..] else slots;
    assert EnqueueSlots(cfg, slots, key, now) == kept + [newcomer];
    assert newcomer in kept + [newcomer];
    if k in Keys(slots) && (|slots| >= cfg.maxSize ==> k != slots[0].key) {
      var i :| 0 <= i < |slots| && slots[i].key == k;
      assert slots[i] in kept + [newcomer];
    }
    if k in Keys(kept + [newcomer]) && k != key {
      var s :| s in kept && s.key == k;
      assert s in slots;
    }
  }

  lemma CollectKeeps<E>(cfg: Config, q: Queue<E>, now: int)
    requires Inv(cfg, q) && Enabled(cfg, q, Collect(now))
    ensures Inv(cfg, Apply(cfg, q, Collect(now)))
  {
    var q' := Apply(cfg, q, Collect(now));
    CollectRound(cfg, q, now);
    CollectCounts(cfg, q, now);
    SameAccounts(q, q');
  }

  lemma CollectRound<E>(cfg: Config, q: Queue<E>, now: int)
    requires Ordered(cfg, q) && q.round.Idle?
    ensures RoundSound(Apply(cfg, q, Collect(now)))
  {
    CollectSound(cfg, q, now);
  }

  /** A due entry has a try left. */
  lemma DueHasTry<E>(cfg: Config, q: Queue<E>, now: int, key: nat)
    requires Ordered(cfg, q) && RoundSound(q) && Counted(cfg, q) && q.round.Idle?
    requires key in DueKeys(q.slots, now)
    ensures key < |q.tries| && q.tries[key] <= cfg.maxRetries
  {
    DueMember(q.slots, now, key);
  }

  /** Copying out entries publishes none of them. */
  lemma CollectCounts<E>(cfg: Config, q: Queue<E>, now: int)
    requires Ordered(cfg, q) && RoundSound(q) && Counted(cfg, q) && q.round.Idle?
    requires var q' := Apply(cfg, q, Collect(now)); Ordered(cfg, q') && RoundSound(q')
    ensures Counted(cfg, Apply(cfg, q, Collect(now)))
  {
    var q' := Apply(cfg, q, Collect(now));
    assert forall key :: !TriedNow(q.round, key) && !TriedNow(q'.round, key);
    if q'.round.Publishing? {
      forall i | 0 <= i < |q'.round.due|
        ensures q'.tries[q'.round.due[i]] <= cfg.maxRetries
      {
        DueHasTry(cfg, q, now, q'.round.due[i]);
      }
    }
  }

  lemma CollectSound<E>(cfg: Config, q: Queue<E>, now: int)
    requires Ordered(cfg, q)
    ensures AscendingKeys(DueKeys(q.slots, now))
    ensures forall i :: 0 <= i < |DueKeys(q.slots, now)| ==>
              exists s :: s in q.slots && s.key == DueKeys(q.slots, now)[i]
    ensures forall s :: s in q.slots && s.key in DueKeys(q.slots, now) ==> s.next <= now
  {
    var due := DueKeys(q.slots, now);
    DueAscends(q.slots, now);
    forall i | 0 <= i < |due|
      ensures exists s :: s in q.slots && s.key == due[i]
    {
      DueMember(q.slots, now, due[i]);
    }
    forall s | s in q.slots && s.key in due
      ensures s.next <= now
    {
      DueMember(q.slots, now, s.key);
      OneSlotPerKey(q.slots, s);
    }
  }

  lemma SameAccounts<E>(q: Queue<E>, q': Queue<E>)
    requires Accounted(q)
    requires q'.slots == q.slots && |q'.history| == |q.history|
    requires q'.evicted == q.evicted && q'.retried == q.retried && q'.exhausted == q.exhausted
    ensures Accounted(q')
  {
    forall i: nat
      ensures Places(q', i) == if i < |q.history| then 1 else 0
    {
      assert Places(q', i) == Places(q, i);
    }
  }

  lemma AnswerKeeps<E>(cfg: Config, q: Queue<E>, ok: bool)
    requires Inv(cfg, q) && Enabled(cfg, q, Answer(ok))
    ensures Inv(cfg, Apply(cfg, q, Answer(ok)))
  {
    var q' := Apply(cfg, q, Answer(ok));
    var n := |q.round.answers|;
    var key := q.round.due[n];
    assert q'.round.due[..n + 1] == q.round.due[..n] + [key];
    assert key !in q.round.due[..n];
    SameAccounts(q, q');
  }

  lemma SettleKeeps<E>(cfg: Config, q: Queue<E>, times: seq<int>)
    requires Inv(cfg, q) && Enabled(cfg, q, Settle(times))
    ensures Inv(cfg, Apply(cfg, q, Settle(times)))
  {
    var q' := Apply(cfg, q, Settle(times));
    SettleAscends(cfg, q.slots, q.round.due, q.round.answers, times);
    SettleKeepsSlots(cfg, q, times);
    SettleKeepsAccounts(cfg, q, times);
    if NoOverflow(cfg) {
      SettleKeepsExhausted(cfg, q, times);
    }
  }

  lemma SettleKeepsSlots<E>(cfg: Config, q: Queue<E>, times: seq<int>)
    requires Inv(cfg, q) && Enabled(cfg, q, Settle(times))
    ensures forall r :: r in Apply(cfg, q, Settle(times)).slots ==>
              && r.key < |q.history| && r.attempts <= cfg.maxRetries && q.tries[r.key] == r.attempts
              && (NoOverflow(cfg) ==> r.next >= q.history[r.key].at + TotalDelay(cfg.baseBackoff, r.attempts))
  {
    var due, answers := q.round.due, q.round.answers;
    forall r | r in SettleSlots(cfg, q.slots, due, answers, times)
      ensures r.key < |q.history| && r.attempts <= cfg.maxRetries && q.tries[r.key] == r.attempts
      ensures NoOverflow(cfg) ==> r.next >= q.history[r.key].at + TotalDelay(cfg.baseBackoff, r.attempts)
    {
      SettleMember(cfg, q.slots, due, answers, times, r);
      var s :| s in q.slots && Settled(cfg, s, due, answers, times) == Some(r);
      SettleKeepsSlot(cfg, q, times, s, r);
    }
  }

  lemma SettleKeepsSlot<E>(cfg: Config, q: Queue<E>, times: seq<int>, s: Slot, r: Slot)
    requires Inv(cfg, q) && Enabled(cfg, q, Settle(times)) && s in q.slots
    requires Settled(cfg, s, q.round.due, q.round.answers, times) == Some(r)
    ensures r.key == s.key && r.attempts <= cfg.maxRetries && q.tries[r.key] == r.attempts
    ensures NoOverflow(cfg) ==> r.next >= q.history[r.key].at + TotalDelay(cfg.baseBackoff, r.attempts)
  {
    assert q.round.due[..|q.round.answers|] == q.round.due;
    if NoOverflow(cfg) && s.key in q.round.due {
      DelayGrows(cfg, s.attempts);
    }
  }

  lemma SettleKeepsAccounts<E>(cfg: Config, q: Queue<E>, times: seq<int>)
    requires Ascending(q.slots) && Accounted(q) && Enabled(cfg, q, Settle(times))
    ensures Accounted(Apply(cfg, q, Settle(times)))
  {
    var q' := Apply(cfg, q, Settle(times));
    var due, answers := q.round.due, q.round.answers;
    SettleAccounts(cfg, q.slots, due, answers, times);
    var kept, ok := Keys(q'.slots), PublishedKeys(q.slots, due, answers);
    var gone := ExhaustedKeys(cfg, q.slots, due, answers);
    forall i: nat
      ensures Places(q', i) == if i < |q.history| then 1 else 0
    {
      assert Places(q, i) == if i < |q.history| then 1 else 0;
      assert i in Keys(q.slots) <==> i in kept || i in ok || i in gone;
    }
  }

  lemma SettleKeepsExhausted<E>(cfg: Config, q: Queue<E>, times: seq<int>)
    requires Ordered(cfg, q) && RoundSound(q) && Waited(cfg, q) && Enabled(cfg, q, Settle(times))
    ensures forall i :: i in Apply(cfg, q, Settle(times)).exhausted ==>
              && i < |q.history|
              && Apply(cfg, q, Settle(times)).exhausted[i] >=
                   q.history[i].at + TotalDelay(cfg.baseBackoff, cfg.maxRetries)
  {
    forall i | i in ExhaustedKeys(cfg, q.slots, q.round.due, q.round.answers)
      ensures i < |q.history| && q.round.now >= q.history[i].at + TotalDelay(cfg.baseBackoff, cfg.maxRetries)
    {
      var s :| s in q.slots && s.key == i && s.attempts >= cfg.maxRetries && s.key in q.round.due;
      LastTryWaited(cfg, q, s);
    }
  }

  lemma LastTryWaited<E>(cfg: Config, q: Queue<E>, s: Slot)
    requires Ordered(cfg, q) && RoundSound(q) && Waited(cfg, q) && q.round.Publishing?
    requires s in q.slots && s.attempts >= cfg.maxRetries && s.key in q.round.due
    ensures s.key < |q.history|
    ensures q.round.now >= q.history[s.key].at + TotalDelay(cfg.baseBackoff, cfg.maxRetries)
  {
    assert s.attempts == cfg.maxRetries;
  }

  lemma DelayGrows(cfg: Config, attempts: nat)
    requires NoOverflow(cfg) && attempts < cfg.maxRetries
    ensures TotalDelay(cfg.baseBackoff, attempts + 1)
         == TotalDelay(cfg.baseBackoff, attempts) + Delay(cfg.baseBackoff, attempts + 1)
  {
    TotalDelayGrows(cfg.baseBackoff, attempts);
    Pow2Monotone(attempts, cfg.maxRetries - 1);
    ScaleGrows(cfg.baseBackoff, Pow2(attempts), Pow2(cfg.maxRetries - 1));
    DelayExact(cfg.baseBackoff, attempts + 1);
  }

  lemma ScaleGrows(c: nat, a: nat, b: nat)
    requires a <= b
    ensures c * a <= c * b
  {
  }

  lemma StepKeeps<E>(cfg: Config, q: Queue<E>, a: Action<E>)
    requires Inv(cfg, q) && Enabled(cfg, q, a)
    ensures Inv(cfg, Apply(cfg, q, a))
  {
    match a
    case Enqueue(e, now) => EnqueueKeeps(cfg, q, e, now);
    case Collect(now) => CollectKeeps(cfg, q, now);
    case Answer(ok) => AnswerKeeps(cfg, q, ok);
    case Settle(times) => SettleKeeps(cfg, q, times);
  }

  lemma {:induction false} RunKeeps<E>(cfg: Config, q: Queue<E>, acts: seq<Action<E>>)
    requires Inv(cfg, q) && Runs(cfg, q, acts)
    ensures Inv(cfg, Run(cfg, q, acts))
    decreases |acts|
  {
    if acts == [] {
    } else {
      StepKeeps(cfg, q, acts[0]);
      RunKeeps(cfg, Apply(cfg, q, acts[0]), acts[1..]);
    }
  }

  lemma ReachableKeeps<E>(cfg: Config, acts: seq<Action<E>>)
    requires Runs(cfg, NewQueue(), acts)
    ensures Inv(cfg, Run(cfg, NewQueue<E>(), acts))
  {
    var q := NewQueue<E>();
    assert forall i: nat :: Places(q, i) == 0;
    RunKeeps(cfg, q, acts);
  }

  // ---- The properties of every run ----

  /** Bound, order and the exact split of the history into what is listed and what left, with counts. */
  lemma QueueConservation<E>(cfg: Config, acts: seq<Action<E>>)
    requires Runs(cfg, NewQueue(), acts)
    ensures var q := Run(cfg, NewQueue<E>(), acts);
            && |q.slots| <= cfg.maxSize
            && Ascending(q.slots)
            && Accounted(q)
            && |q.history| == |q.slots| + |q.evicted| + |q.retried| + |q.exhausted|
  {
    ReachableKeeps(cfg, acts);
    AccountedCounts(Run(cfg, NewQueue<E>(), acts));
  }

  lemma AccountedCounts<E>(q: Queue<E>)
    requires Ascending(q.slots) && Accounted(q)
    ensures |q.history| == |q.slots| + |q.evicted| + |q.retried| + |q.exhausted|
  {
    var listed, gone := Keys(q.slots), q.exhausted.Keys;
    assert forall i: nat :: i in gone <==> i in q.exhausted;
    forall i: nat
      ensures SetsHolding(listed, q.evicted, q.retried, gone, i) == if i < |q.history| then 1 else 0
    {
      assert Places(q, i) == if i < |q.history| then 1 else 0;
    }
    PartitionCounts(listed, q.evicted, q.retried, gone, |q.history|);
    KeysCount(q.slots);
  }

  function SetsHolding(a: set<nat>, b: set<nat>, c: set<nat>, d: set<nat>, i: nat): nat {
    Bit(i in a) + Bit(i in b) + Bit(i in c) + Bit(i in d)
  }

  lemma PartitionCounts(a: set<nat>, b: set<nat>, c: set<nat>, d: set<nat>, n: nat)
    requires forall i: nat :: SetsHolding(a, b, c, d, i) == if i < n then 1 else 0
    ensures |a| + |b| + |c| + |d| == n
  {
    forall i: nat
      ensures i in a + b + c + d <==> i in Upto(n)
    {
      assert SetsHolding(a, b, c, d, i) == if i < n then 1 else 0;
    }
    assert a + b + c + d == Upto(n);
    assert a !! b by { MeetNowhere(a, b, c, d, n); }
    assert (a + b) !! c by { MeetNowhere(a, b, c, d, n); }
    assert (a + b + c) !! d by { MeetNowhere(a, b, c, d, n); }
  }

  lemma MeetNowhere(a: set<nat>, b: set<nat>, c: set<nat>, d: set<nat>, n: nat)
    requires forall i: nat :: SetsHolding(a, b, c, d, i) == if i < n then 1 else 0
    ensures a !! b && (a + b) !! c && (a + b + c) !! d
  {
    forall i: nat
      ensures !(i in a && i in b) && !(i in a + b && i in c) && !(i in a + b + c && i in d)
    {
      assert SetsHolding(a, b, c, d, i) <= 1;
    }
  }

  function Upto(n: nat): (s: set<nat>)
    ensures |s| == n
    ensures forall i: nat :: i in s <==> i < n
  {
    if n == 0 then {} else Upto(n - 1) + {n - 1}
  }

  lemma {:induction false} KeysCount(slots: seq<Slot>)
    requires Ascending(slots)
    ensures |Keys(slots)| == |slots|
  {
    if slots == [] {
    } else {
      KeysCount(slots[1..]);
      assert slots == [slots[0]] + slots[1..];
      assert Keys(slots) == {slots[0].key} + Keys(slots[1..]);
    }
  }

  /**
   Between passes an entry has been published exactly `attempts` times, no entry
   is ever published more than maxRetries + 1 times, and one that was given up
   had stayed at least base * (2^maxRetries - 1) in the queue.
   */
  lemma BackoffIsReal<E>(cfg: Config, acts: seq<Action<E>>)
    requires Runs(cfg, NewQueue(), acts)
    ensures var q := Run(cfg, NewQueue<E>(), acts);
            && |q.tries| == |q.history|
            && (q.round.Idle? ==> forall s :: s in q.slots ==>
                  s.key < |q.tries| && q.tries[s.key] == s.attempts <= cfg.maxRetries)
            && (forall i :: 0 <= i < |q.tries| ==> q.tries[i] <= cfg.maxRetries + 1)
            && (NoOverflow(cfg) ==> forall i :: i in q.exhausted ==>
                  && i < |q.history|
                  && q.exhausted[i] - q.history[i].at >= cfg.baseBackoff * (Pow2(cfg.maxRetries) - 1))
  {
    ReachableKeeps(cfg, acts);
  }

  /**
   A pass leaves of a due entry exactly this: nothing if its publication succeeded
   or its tries are used up, and otherwise the entry with one more attempt, due
   base * 2^attempts after the clock reading of its failure.
   */
  lemma RescheduleIsExact(cfg: Config, s: Slot, due: seq<nat>, answers: seq<bool>, times: seq<int>, i: nat)
    requires NoOverflow(cfg) && Matching(due, answers, times) && AscendingKeys(due)
    requires i < |due| && due[i] == s.key && s.attempts <= cfg.maxRetries
    ensures Settled(cfg, s, due, answers, times) ==
              if answers[i] || s.attempts == cfg.maxRetries then None
              else Some(Slot(s.key, s.attempts + 1, times[i] + cfg.baseBackoff * Pow2(s.attempts)))
  {
    assert Find(due, s.key) == i;
    if s.attempts < cfg.maxRetries {
      Pow2Monotone(s.attempts, cfg.maxRetries - 1);
      ScaleGrows(cfg.baseBackoff, Pow2(s.attempts), Pow2(cfg.maxRetries - 1));
      DelayExact(cfg.baseBackoff, s.attempts + 1);
    }
  }

  /** What the model's evictions do, stated over every reachable queue. */
  lemma EvictionTakesOldest<E>(cfg: Config, acts: seq<Action<E>>, e: E, now: int)
    requires cfg.maxSize >= 1
    requires Runs(cfg, NewQueue(), acts)
    ensures var q := Run(cfg, NewQueue<E>(), acts);
            var q' := Apply(cfg, q, Enqueue(e, now));
            && (|q.slots| < cfg.maxSize ==> q'.evicted == q.evicted)
            && (|q.slots| == cfg.maxSize ==>
                  exists k :: && k in Keys(q.slots) && q'.evicted - q.evicted == {k}
                              && forall o :: o in Keys(q.slots) ==> k <= o)
  {
    ReachableKeeps(cfg, acts);
    var q := Run(cfg, NewQueue<E>(), acts);
    var q' := Apply(cfg, q, Enqueue(e, now));
    if |q.slots| == cfg.maxSize {
      var k := q.slots[0].key;
      assert q.slots[0] in q.slots;
      assert Places(q, k) == 1;
      assert q'.evicted - q.evicted == {k};
    }
  }

  // ---- Draining ----

  predicate NoEnqueue<E>(acts: seq<Action<E>>) {
    forall i :: 0 <= i < |acts| ==> !acts[i].Enqueue?
  }

  /** Publish calls in a run. */
  function Publishes<E>(acts: seq<Action<E>>): nat {
    if acts == [] then 0 else (if acts[0].Answer? then 1 else 0) + Publishes(acts[1..])
  }

  /** The debt left after what the running pass has already spent. */
  function Remaining<E>(cfg: Config, q: Queue<E>): int {
    Debt(cfg, q.slots) - if q.round.Publishing? then |q.round.answers| else 0
  }

  /** Without enqueues, the copied entries stay exactly the due ones of the list. */
  predicate Undisturbed<E>(q: Queue<E>) {
    q.round.Publishing? ==> q.round.due == DueKeys(q.slots, q.round.now)
  }

  lemma DrainStep<E>(cfg: Config, q: Queue<E>, a: Action<E>)
    requires Inv(cfg, q) && Undisturbed(q) && Enabled(cfg, q, a) && !a.Enqueue?
    ensures Undisturbed(Apply(cfg, q, a))
    ensures Publishes([a]) + Remaining(cfg, Apply(cfg, q, a)) <= Remaining(cfg, q)
  {
    assert [a][1..] == [];
    match a
    case Settle(times) =>
      forall s | s in q.slots && s.next <= q.round.now
        ensures s.key in q.round.due
      {
        DueMember(q.slots, q.round.now, s.key);
      }
      SettlePaysDebt(cfg, q.slots, q.round.now, q.round.due, q.round.answers, times);
    case Collect(now) =>
    case Answer(ok) =>
  }

  /** With no further enqueue, every publish call is paid for, whatever the bus answers. */
  lemma {:induction false} DrainBound<E>(cfg: Config, q: Queue<E>, acts: seq<Action<E>>)
    requires Inv(cfg, q) && Undisturbed(q) && Runs(cfg, q, acts) && NoEnqueue(acts)
    ensures Publishes(acts) + Remaining(cfg, Run(cfg, q, acts)) <= Remaining(cfg, q)
    ensures Undisturbed(Run(cfg, q, acts))
    decreases |acts|
  {
    if acts == [] {
    } else {
      DrainStep(cfg, q, acts[0]);
      StepKeeps(cfg, q, acts[0]);
      DrainBound(cfg, Apply(cfg, q, acts[0]), acts[1..]);
      assert [acts[0]][1..] == [];
    }
  }

  lemma ProductGrows(a: nat, b: nat, c: nat)
    requires a <= b
    ensures a * c <= b * c
  {
  }

  lemma RemainingNonNegative<E>(cfg: Config, q: Queue<E>)
    requires Inv(cfg, q) && Undisturbed(q)
    ensures Remaining(cfg, q) >= 0
    ensures q.round.Idle? && Remaining(cfg, q) == 0 ==> q.slots == []
    ensures Debt(cfg, q.slots) <= cfg.maxSize * (cfg.maxRetries + 1)
  {
    DebtBounds(cfg, q.slots);
    ProductGrows(|q.slots|, cfg.maxSize, cfg.maxRetries + 1);
    if q.round.Publishing? {
      DueAscends(q.slots, q.round.now);
    }
  }

  /** So a quiet queue costs at most maxSize * (maxRetries + 1) publish calls, and that many empty it. */
  lemma DrainCost<E>(cfg: Config, q: Queue<E>, acts: seq<Action<E>>)
    requires Inv(cfg, q) && q.round.Idle? && Runs(cfg, q, acts) && NoEnqueue(acts)
    ensures Publishes(acts) <= Debt(cfg, q.slots) <= cfg.maxSize * (cfg.maxRetries + 1)
    ensures Run(cfg, q, acts).round.Idle? && Publishes(acts) == Debt(cfg, q.slots) ==> Run(cfg, q, acts).slots == []
  {
    DrainBound(cfg, q, acts);
    RunKeeps(cfg, q, acts);
    RemainingNonNegative(cfg, q);
    RemainingNonNegative(cfg, Run(cfg, q, acts));
  }

  // ---- The queue always empties ----

  /** The bus's answers, in the order of the publish calls. */
  predicate AnswersAre<E>(acts: seq<Action<E>>, bus: nat -> bool, n: nat) {
    acts == [] ||
      if acts[0].Answer? then acts[0].ok == bus(n) && AnswersAre(acts[1..], bus, n + 1)
      else AnswersAre(acts[1..], bus, n)
  }

  lemma {:induction false} AnswersConcat<E>(a: seq<Action<E>>, b: seq<Action<E>>, bus: nat -> bool, n: nat)
    requires AnswersAre(a, bus, n) && AnswersAre(b, bus, n + Publishes(a))
    ensures AnswersAre(a + b, bus, n)
  {
    if a == [] {
      assert a + b == b;
    } else {
      AnswersConcat(a[1..], b, bus, if a[0].Answer? then n + 1 else n);
      assert (a + b)[1..] == a[1..] + b && (a + b)[0] == a[0];
    }
  }

  lemma {:induction false} RunConcat<E>(cfg: Config, q: Queue<E>, a: seq<Action<E>>, b: seq<Action<E>>)
    requires Runs(cfg, q, a) && Runs(cfg, Run(cfg, q, a), b)
    ensures Runs(cfg, q, a + b) && Run(cfg, q, a + b) == Run(cfg, Run(cfg, q, a), b)
    decreases |a|
  {
    if a == [] {
      assert a + b == b;
    } else {
      RunConcat(cfg, Apply(cfg, q, a[0]), a[1..], b);
      assert (a + b)[1..] == a[1..] + b && (a + b)[0] == a[0];
    }
  }

  /** The rest of the publish calls of a pass. */
  lemma {:induction false} AnswerAll<E>(cfg: Config, q: Queue<E>, bus: nat -> bool, n: nat)
    returns (acts: seq<Action<E>>)
    requires Inv(cfg, q) && q.round.Publishing?
    ensures Runs(cfg, q, acts) && NoEnqueue(acts) && AnswersAre(acts, bus, n)
    ensures Publishes(acts) == |q.round.due| - |q.round.answers|
    ensures var q' := Run(cfg, q, acts);
            q'.round.Publishing? && |q'.round.answers| == |q'.round.due| == |q.round.due|
    decreases |q.round.due| - |q.round.answers|
  {
    if |q.round.answers| == |q.round.due| {
      acts := [];
    } else {
      var a: Action<E> := Answer(bus(n));
      AnswerKeeps(cfg, q, bus(n));
      var rest := AnswerAll(cfg, Apply(cfg, q, a), bus, n + 1);
      acts := [a] + rest;
      assert acts[1..] == rest;
    }
  }

  function LastDue(slots: seq<Slot>): (t: int)
    ensures forall s :: s in slots ==> s.next <= t
  {
    if slots == [] then 0
    else
      var t := LastDue(slots[1..]);
      assert slots == [slots[0]] + slots[1..];
      if slots[0].next > t then slots[0].next else t
  }

  /** A pass late enough for everything to be due has something to publish. */
  lemma StartPass<E>(cfg: Config, q: Queue<E>, bus: nat -> bool, n: nat)
    requires Inv(cfg, q) && q.round.Idle? && q.slots != []
    ensures var start: seq<Action<E>> := [Collect(LastDue(q.slots))];
            && Runs(cfg, q, start) && AnswersAre(start, bus, n) && Publishes(start) == 0
            && var q1 := Run(cfg, q, start);
            Inv(cfg, q1) && q1.round.Publishing? && |q1.round.due| >= 1 && q1.round.answers == []
  {
    var now := LastDue(q.slots);
    DueMember(q.slots, now, q.slots[0].key);
    CollectKeeps(cfg, q, now);
    var start: seq<Action<E>> := [Collect(now)];
    assert start[1..] == [];
  }

  /** The first two phases of a pass late enough for everything to be due. */
  lemma PublishPass<E>(cfg: Config, q: Queue<E>, bus: nat -> bool, n: nat) returns (acts: seq<Action<E>>)
    requires Inv(cfg, q) && q.round.Idle? && q.slots != []
    ensures Runs(cfg, q, acts) && NoEnqueue(acts) && AnswersAre(acts, bus, n) && Publishes(acts) >= 1
    ensures var q' := Run(cfg, q, acts); q'.round.Publishing? && |q'.round.answers| == |q'.round.due|
  {
    var start: seq<Action<E>> := [Collect(LastDue(q.slots))];
    StartPass(cfg, q, bus, n);
    var answers := AnswerAll(cfg, Run(cfg, q, start), bus, n);
    RunConcat(cfg, q, start, answers);
    AnswersConcat(start, answers, bus, n);
    PublishesConcat(start, answers);
    acts := start + answers;
  }

  lemma FullPass<E>(cfg: Config, q: Queue<E>, bus: nat -> bool, n: nat) returns (acts: seq<Action<E>>)
    requires Inv(cfg, q) && q.round.Idle? && q.slots != []
    ensures Runs(cfg, q, acts) && NoEnqueue(acts) && AnswersAre(acts, bus, n) && Publishes(acts) >= 1
    ensures Run(cfg, q, acts).round.Idle?
  {
    var front := PublishPass(cfg, q, bus, n);
    var q' := Run(cfg, q, front);
    var end: seq<Action<E>> := [Settle(seq(|q'.round.due|, i => q'.round.now))];
    assert end[1..] == [];
    RunConcat(cfg, q, front, end);
    AnswersConcat(front, end, bus, n);
    PublishesConcat(front, end);
    acts := front + end;
  }

  lemma {:induction false} PublishesConcat<E>(a: seq<Action<E>>, b: seq<Action<E>>)
    ensures Publishes(a + b) == Publishes(a) + Publishes(b)
  {
    if a == [] {
      assert a + b == b;
    } else {
      PublishesConcat(a[1..], b);
      assert (a + b)[1..] == a[1..] + b;
    }
  }

  /** A full pass leaves a sound, idle queue with less debt. */
  lemma PassPays<E>(cfg: Config, q: Queue<E>, bus: nat -> bool, n: nat) returns (acts: seq<Action<E>>)
    requires Inv(cfg, q) && q.round.Idle? && q.slots != []
    ensures Runs(cfg, q, acts) && NoEnqueue(acts) && AnswersAre(acts, bus, n)
    ensures var q' := Run(cfg, q, acts); Inv(cfg, q') && q'.round.Idle? && 0 <= Debt(cfg, q'.slots) < Debt(cfg, q.slots)
  {
    acts := FullPass(cfg, q, bus, n);
    DrainBound(cfg, q, acts);
    RunKeeps(cfg, q, acts);
    RemainingNonNegative(cfg, Run(cfg, q, acts));
  }

  lemma {:induction false} DrainRun<E>(cfg: Config, q: Queue<E>, bus: nat -> bool, n: nat)
    returns (acts: seq<Action<E>>)
    requires Inv(cfg, q) && q.round.Idle?
    ensures Runs(cfg, q, acts) && NoEnqueue(acts) && AnswersAre(acts, bus, n)
    ensures Run(cfg, q, acts).slots == []
    decreases Debt(cfg, q.slots)
  {
    if q.slots == [] {
      acts := [];
    } else {
      var pass := PassPays(cfg, q, bus, n);
      var rest := DrainRun(cfg, Run(cfg, q, pass), bus, n + Publishes(pass));
      RunConcat(cfg, q, pass, rest);
      AnswersConcat(pass, rest, bus, n);
      acts := pass + rest;
    }
  }

  /** Left alone, the queue can always be run empty, within the bounded cost, whatever the bus answers. */
  lemma QueueDrains<E>(cfg: Config, q: Queue<E>, bus: nat -> bool)
    requires Inv(cfg, q) && q.round.Idle?
    ensures exists acts :: && Runs(cfg, q, acts) && NoEnqueue(acts) && AnswersAre(acts, bus, 0)
                           && Run(cfg, q, acts).slots == [] && Publishes(acts) <= cfg.maxSize * (cfg.maxRetries + 1)
  {
    var acts := DrainRun(cfg, q, bus, 0);
    DrainCost(cfg, q, acts);
  }

  // ---- Whether entries move while a pass publishes ----

  /** What can happen between the copy of the due entries and the application of their answers. */
  predicate Unlocked<E>(acts: seq<Action<E>>) {
    forall i :: 0 <= i < |acts| ==> acts[i].Enqueue? || acts[i].Answer?
  }

  /** The times of the enqueues of a run, in order. */
  function Arrivals<E>(acts: seq<Action<E>>): seq<int> {
    if acts == [] then [] else (if acts[0].Enqueue? then [acts[0].now] else []) + Arrivals(acts[1..])
  }

  /** Only the enqueues touch the list while a pass publishes. */
  lemma {:induction false} ListWhilePublishing<E>(cfg: Config, q: Queue<E>, acts: seq<Action<E>>)
    requires cfg.maxSize >= 1 && Runs(cfg, q, acts) && Unlocked(acts)
    ensures Run(cfg, q, acts).slots == EnqueueAll(cfg, q.slots, |q.history|, Arrivals(acts))
    decreases |acts|
  {
    if acts == [] {
    } else {
      ListWhilePublishing(cfg, Apply(cfg, q, acts[0]), acts[1..]);
      if acts[0].Enqueue? {
        assert Arrivals(acts)[1..] == Arrivals(acts[1..]);
      } else {
        assert Arrivals(acts) == Arrivals(acts[1..]);
      }
    }
  }

  /**
   In every reachable queue and every continuation up to the end of a pass, an
   entry still stands where it stood exactly when the list had room for all the
   enqueues, and is still listed exactly when it is not among those pushed out.
   */
  lemma EntriesMoveWhenFull<E>(cfg: Config, before: seq<Action<E>>, acts: seq<Action<E>>, i: nat)
    requires cfg.maxSize >= 1 && Runs(cfg, NewQueue(), before)
    requires var q := Run(cfg, NewQueue<E>(), before); Runs(cfg, q, acts) && Unlocked(acts) && i < |q.slots|
    ensures var q := Run(cfg, NewQueue<E>(), before);
            var q' := Run(cfg, q, acts);
            && (i < |q'.slots| && q'.slots[i] == q.slots[i] <==> |q.slots| + |Arrivals(acts)| <= cfg.maxSize)
            && (q.slots[i] in q'.slots <==> i >= PushedOut(cfg, |q.slots|, |Arrivals(acts)|))
  {
    ReachableKeeps(cfg, before);
    var q := Run(cfg, NewQueue<E>(), before);
    ListWhilePublishing(cfg, q, acts);
    EntriesStayPut(cfg, q.slots, |q.history|, Arrivals(acts), i);
  }

  /**
   An entry of a running pass can change position before its answer is applied:
   an enqueue into a full queue evicts the head and shifts the rest.
   */
  lemma EntriesMoveDuringAPass<E>(e: E)
    ensures var cfg := Config(2, 5, 1);
            var acts := [Enqueue(e, 0), Enqueue(e, 0), Collect(0)];
            && Runs(cfg, NewQueue(), acts)
            && var q := Run(cfg, NewQueue(), acts);
            var q' := Apply(cfg, q, Enqueue(e, 0));
            && q.round == q'.round == Publishing(0, [0, 1], [])
            && |q.slots| == |q'.slots| == 2
            && q.slots[1].key == 1 && q'.slots[0].key == 1 && 0 !in Keys(q'.slots)
  {
    var cfg := Config(2, 5, 1);
    var acts := [Enqueue(e, 0), Enqueue(e, 0), Collect(0)];
    var q1 := Apply(cfg, NewQueue(), acts[0]);
    var q2 := Apply(cfg, q1, acts[1]);
    assert q2.slots == [Slot(0, 0, 0), Slot(1, 0, 0)];
    assert q2.slots[1..] == [Slot(1, 0, 0)] && [Slot(1, 0, 0)][1..] == [];
    assert DueKeys([Slot(1, 0, 0)], 0) == [1];
    assert DueKeys(q2.slots, 0) == [0, 1];
    var q3 := Apply(cfg, q2, acts[2]);
    RunCons(cfg, q2, acts[2], []);
    RunCons(cfg, q1, acts[1], [acts[2]] + []);
    RunCons(cfg, NewQueue(), acts[0], [acts[1]] + ([acts[2]] + []));
    assert acts == [acts[0]] + ([acts[1]] + ([acts[2]] + []));
  }

  lemma RunCons<E>(cfg: Config, q: Queue<E>, a: Action<E>, rest: seq<Action<E>>)
    requires Enabled(cfg, q, a) && Runs(cfg, Apply(cfg, q, a), rest)
    ensures Runs(cfg, q, [a] + rest) && Run(cfg, q, [a] + rest) == Run(cfg, Apply(cfg, q, a), rest)
  {
    assert ([a] + rest)[1..] == rest;
  }
}
