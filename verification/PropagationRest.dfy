/**
 Rest is always within reach: from every state of the protocol, a bus that
 accepts events and threads that finish what they have begun bring it about.
 */
module PropagationRest {
  import opened Tenants
  import opened LastWriter
  import opened RetrySlots
  import Q = RetryRounds
  import opened Propagation
  import opened PropagationInvariant
  import opened PropagationTheorems

  /** A step that begins nothing new and finds the bus accepting. */
  predicate Calm(a: Action) {
    match a
    case Publish(_, ok, _) => ok
    case Retry(ok, _) => ok
    case _ => !(a.Create? || a.SetState? || a.Join? || a.SnapBegin? || a.SnapRead?)
  }

  predicate AllCalm(acts: seq<Action>) {
    forall i :: 0 <= i < |acts| ==> Calm(acts[i])
  }

  /** Applies of one tenant at one checker never overlap, whichever they are. */
  ghost predicate AllSerial(sys: System, s: State, acts: seq<Action>)
    requires Runs(sys, s, acts)
  {
    forall c, id :: SerialApplies(sys, s, acts, c, id)
  }

  /** Calm steps, with applies of one tenant not overlapping, lead from s to s'. */
  ghost predicate Reaches(sys: System, s: State, s': State) {
    exists acts :: AllCalm(acts) && Runs(sys, s, acts) && AllSerial(sys, s, acts) && Run(sys, s, acts) == s'
  }

  /** A state that some run ends in. */
  ghost predicate Reachable(sys: System, s: State) {
    exists clock, acts :: Runs(sys, Init(clock), acts) && Run(sys, Init(clock), acts) == s
  }

  lemma Facts(sys: System, s: State)
    requires Reachable(sys, s)
    ensures Core(sys, s)
  {
    var clock, acts :| Runs(sys, Init(clock), acts) && Run(sys, Init(clock), acts) == s;
    ReachableCore(sys, clock, acts);
  }

  lemma Stay(sys: System, s: State)
    ensures Reaches(sys, s, s)
  {
    var none: seq<Action> := [];
    assert AllCalm(none) && Run(sys, s, none) == s;
  }

  lemma Take(sys: System, s: State, a: Action)
    requires Enabled(sys, s, a) && Calm(a)
    requires a.LoadEntry? ==> Alone(s.checkers[a.c].cells, a.r.id)
    ensures Reaches(sys, s, Apply(sys, s, a))
    ensures Reachable(sys, s) ==> Reachable(sys, Apply(sys, s, a))
  {
    RunCons(sys, s, a, []);
    assert AllCalm([a] + []);
    forall c, id
      ensures SerialApplies(sys, s, [a] + [], c, id)
    {
      SerialCons(sys, s, a, [], c, id);
    }
    if Reachable(sys, s) {
      var clock, acts :| Runs(sys, Init(clock), acts) && Run(sys, Init(clock), acts) == s;
      RunConcat(sys, Init(clock), acts, [a] + []);
    }
  }

  lemma Then(sys: System, s: State, mid: State, s': State)
    requires Reaches(sys, s, mid) && Reaches(sys, mid, s')
    ensures Reaches(sys, s, s')
  {
    var a :| AllCalm(a) && Runs(sys, s, a) && AllSerial(sys, s, a) && Run(sys, s, a) == mid;
    var b :| AllCalm(b) && Runs(sys, mid, b) && AllSerial(sys, mid, b) && Run(sys, mid, b) == s';
    RunConcat(sys, s, a, b);
    assert AllCalm(a + b);
    forall c, id
      ensures SerialApplies(sys, s, a + b, c, id)
    {
      SerialConcat(sys, s, a, b, c, id);
    }
  }

  // ---- The retry worker ----

  /** The worker is between passes and has nothing to retry. */
  predicate Drained(s: State) {
    s.queue.round.Idle? && s.woken.None? && s.queue.slots == []
  }

  /** Nothing was given up on the way from s to s'. */
  predicate NoneDropped(s: State, s': State) {
    s'.lost == s.lost && s'.queue.evicted == s.queue.evicted && s'.queue.exhausted == s.queue.exhausted
  }

  /** The same pass, further on: only its answers, what was published and what is delivered may differ. */
  predicate SamePass(s: State, s': State) {
    && s.queue.round.Publishing? && s'.queue.round.Publishing?
    && s'.queue.round.now == s.queue.round.now && s'.queue.round.due == s.queue.round.due
    && s'.queue.slots == s.queue.slots && s'.hands == s.hands && s'.woken == s.woken
    && NoneDropped(s, s')
  }

  predicate TrueFrom(answers: seq<bool>, n: nat) {
    forall j :: n <= j < |answers| ==> answers[j]
  }

  /** No answer the running pass already has makes it give up on an entry. */
  predicate Spared(sys: System, q: Q.Queue<Ticket>) {
    q.round.Publishing? ==>
      forall p, j ::
        && p in q.slots && 0 <= j < |q.round.answers| && j < |q.round.due|
        && q.round.due[j] == p.key && !q.round.answers[j]
        ==> p.attempts < sys.cfg.maxRetries
  }

  /** One publish call of a pass, accepted. */
  lemma AnswerOne(sys: System, s: State) returns (s': State)
    requires Reachable(sys, s) && s.queue.round.Publishing? && |s.queue.round.answers| < |s.queue.round.due|
    ensures Reaches(sys, s, s') && Reachable(sys, s') && SamePass(s, s')
    ensures s'.queue.round.answers == s.queue.round.answers + [true]
  {
    Facts(sys, s);
    assert HasNext(s.queue) && Q.Enabled(sys.cfg, s.queue, Q.Answer(true));
    s' := Apply(sys, s, Retry(true, {}));
    Take(sys, s, Retry(true, {}));
  }

  lemma AnswersInBounds(sys: System, s: State)
    requires Reachable(sys, s) && s.queue.round.Publishing?
    ensures |s.queue.round.answers| <= |s.queue.round.due|
  {
    Facts(sys, s);
  }

  /** The publish calls left in a pass, all accepted. */
  lemma {:induction false} AnswerRest(sys: System, s: State) returns (s': State)
    requires Reachable(sys, s) && s.queue.round.Publishing?
    ensures Reaches(sys, s, s') && Reachable(sys, s') && SamePass(s, s')
    ensures |s'.queue.round.answers| == |s'.queue.round.due|
    ensures s.queue.round.answers <= s'.queue.round.answers
    ensures TrueFrom(s'.queue.round.answers, |s.queue.round.answers|)
    decreases |s.queue.round.due| - |s.queue.round.answers|
  {
    AnswersInBounds(sys, s);
    if |s.queue.round.answers| == |s.queue.round.due| {
      Stay(sys, s);
      s' := s;
    } else {
      var s1 := AnswerOne(sys, s);
      s' := AnswerRest(sys, s1);
      Then(sys, s, s1, s');
      assert s'.queue.round.answers[|s.queue.round.answers|];
    }
  }

  function Later(a: int, b: int): (t: int)
    ensures t > a && t > b
  {
    if a > b then a + 1 else b + 1
  }

  /** The end of a pass. */
  lemma SettlePass(sys: System, s: State) returns (s': State)
    requires Reachable(sys, s) && s.queue.round.Publishing? && |s.queue.round.answers| == |s.queue.round.due|
    ensures Reaches(sys, s, s') && Reachable(sys, s')
    ensures s'.hands == s.hands && s'.woken == s.woken && s'.queue.round.Idle?
    ensures s'.lost == s.lost && s'.queue.evicted == s.queue.evicted
    ensures Spared(sys, s.queue) ==> NoneDropped(s, s')
    ensures TrueFrom(s.queue.round.answers, 0) && s.queue.round.due == DueKeys(s.queue.slots, s.queue.round.now)
            && (forall p :: p in s.queue.slots ==> p.next <= s.queue.round.now)
            ==> s'.queue.slots == []
  {
    var round := s.queue.round;
    var t := Later(s.reg.clock, round.now);
    var times := seq(|round.due|, i => t);
    var a := Settle(times, t);
    s' := Apply(sys, s, a);
    Take(sys, s, a);
    if Spared(sys, s.queue) {
      assert ExhaustedKeys(sys.cfg, s.queue.slots, round.due, round.answers) == {};
      assert s'.queue.exhausted == s.queue.exhausted;
    }
    if TrueFrom(round.answers, 0) && round.due == DueKeys(s.queue.slots, round.now)
       && forall p :: p in s.queue.slots ==> p.next <= round.now {
      AllPublishedGone(sys.cfg, s.queue.slots, round.now, round.answers, times);
    }
  }

  /** A pass over everything, all accepted, empties the list. */
  lemma AllPublishedGone(cfg: Config, slots: seq<Slot>, now: int, answers: seq<bool>, times: seq<int>)
    requires Matching(DueKeys(slots, now), answers, times)
    requires TrueFrom(answers, 0)
    requires forall p :: p in slots ==> p.next <= now
    ensures SettleSlots(cfg, slots, DueKeys(slots, now), answers, times) == []
  {
    var result := SettleSlots(cfg, slots, DueKeys(slots, now), answers, times);
    if result != [] {
      SettleMember(cfg, slots, DueKeys(slots, now), answers, times, result[0]);
      var p :| p in slots && Settled(cfg, p, DueKeys(slots, now), answers, times) == Some(result[0]);
      DueMember(slots, now, p.key);
    }
  }

  /** A running pass comes to its end. Only answers it already has can make it give up on an entry. */
  lemma FinishPass(sys: System, s: State) returns (s': State)
    requires Reachable(sys, s)
    ensures Reaches(sys, s, s') && Reachable(sys, s')
    ensures s'.hands == s.hands && s'.woken == s.woken && s'.queue.round.Idle?
    ensures Spared(sys, s.queue) ==> NoneDropped(s, s')
  {
    if s.queue.round.Idle? {
      Stay(sys, s);
      s' := s;
    } else {
      var mid := AnswerRest(sys, s);
      s' := SettlePass(sys, mid);
      Then(sys, s, mid, s');
    }
  }

  /** The worker takes the lock and publishes whatever was due when it woke. */
  lemma CollectPass(sys: System, s: State) returns (s': State)
    requires Reachable(sys, s) && s.queue.round.Idle? && s.woken.Some?
    ensures Reaches(sys, s, s') && Reachable(sys, s') && NoneDropped(s, s')
    ensures s'.hands == s.hands && s'.woken.None? && s'.queue.round.Idle?
    ensures (forall p :: p in s.queue.slots ==> p.next <= s.woken.value) ==> s'.queue.slots == []
  {
    var s1 := Apply(sys, s, Collect);
    Take(sys, s, Collect);
    if s1.queue.round.Idle? {
      if s.queue.slots != [] && forall p :: p in s.queue.slots ==> p.next <= s.woken.value {
        DueMember(s.queue.slots, s.woken.value, s.queue.slots[0].key);
      }
      s' := s1;
    } else {
      var mid := AnswerRest(sys, s1);
      s' := SettlePass(sys, mid);
      Then(sys, s1, mid, s');
      Then(sys, s, s1, s');
    }
  }

  /** Two passes at most empty the queue: the one the worker is in, and one late enough for everything. */
  lemma Drain(sys: System, s: State) returns (s': State)
    requires Reachable(sys, s) && sys.hasQueue
    ensures Reaches(sys, s, s') && Reachable(sys, s') && Drained(s') && s'.hands == s.hands
    ensures Spared(sys, s.queue) ==> NoneDropped(s, s')
  {
    var s1 := FinishPass(sys, s);
    var s2 := s1;
    Stay(sys, s1);
    if s1.woken.Some? {
      s2 := CollectPass(sys, s1);
    }
    Then(sys, s, s1, s2);
    var t := Later(s2.reg.clock, Q.LastDue(s2.queue.slots));
    var s3 := Apply(sys, s2, Wake(t));
    Take(sys, s2, Wake(t));
    Then(sys, s, s2, s3);
    s' := CollectPass(sys, s3);
    Then(sys, s, s3, s');
  }

  // ---- Transitions ----

  /** Nothing refused waits for a queue that does not exist. */
  predicate CanRetry(sys: System, s: State) {
    sys.hasQueue || forall k :: k in s.hands ==> !s.hands[k].Refused?
  }

  /** One transition runs to its end; a refused event goes through the empty queue. */
  lemma FinishHand(sys: System, s: State, k: nat) returns (s': State)
    requires Reachable(sys, s) && Drained(s) && k in s.hands && (sys.hasQueue ==> sys.cfg.maxSize >= 1)
    ensures Reaches(sys, s, s') && Reachable(sys, s') && Drained(s') && s'.hands == s.hands - {k}
    ensures CanRetry(sys, s) ==> NoneDropped(s, s')
  {
    match s.hands[k]
    case Stamped(_) => s' := PublishHand(sys, s, k);
    case Applied => s' := StampHand(sys, s, k);
    case Refused(_) => s' := RetryHand(sys, s, k);
  }

  lemma StampHand(sys: System, s: State, k: nat) returns (s': State)
    requires Reachable(sys, s) && Drained(s) && k in s.hands && s.hands[k].Applied?
    ensures Reaches(sys, s, s') && Reachable(sys, s') && Drained(s') && s'.hands == s.hands - {k}
    ensures NoneDropped(s, s')
  {
    Facts(sys, s);
    var a := Stamp(k, s.reg.clock + 1);
    var s1 := Apply(sys, s, a);
    Take(sys, s, a);
    s' := PublishHand(sys, s1, k);
    Then(sys, s, s1, s');
    assert s'.hands == s.hands - {k};
  }

  lemma RetryHand(sys: System, s: State, k: nat) returns (s': State)
    requires Reachable(sys, s) && Drained(s) && k in s.hands && s.hands[k].Refused?
    requires sys.hasQueue ==> sys.cfg.maxSize >= 1
    ensures Reaches(sys, s, s') && Reachable(sys, s') && Drained(s') && s'.hands == s.hands - {k}
    ensures CanRetry(sys, s) ==> NoneDropped(s, s')
  {
    var a := HandOver(k, s.reg.clock + 1);
    var s1 := Apply(sys, s, a);
    Take(sys, s, a);
    s' := s1;
    if sys.hasQueue {
      s' := Drain(sys, s1);
      Then(sys, s, s1, s');
    }
  }

  lemma PublishHand(sys: System, s: State, k: nat) returns (s': State)
    requires Reachable(sys, s) && Drained(s) && k in s.hands && s.hands[k].Stamped?
    ensures Reaches(sys, s, s') && Reachable(sys, s') && Drained(s') && s'.hands == s.hands - {k}
    ensures NoneDropped(s, s')
  {
    s' := Apply(sys, s, Publish(k, true, {}));
    Take(sys, s, Publish(k, true, {}));
  }

  lemma {:induction false} FinishHands(sys: System, s: State) returns (s': State)
    requires Reachable(sys, s) && Drained(s) && (sys.hasQueue ==> sys.cfg.maxSize >= 1)
    ensures Reaches(sys, s, s') && Reachable(sys, s') && Drained(s') && s'.hands == map[]
    ensures CanRetry(sys, s) ==> NoneDropped(s, s')
    decreases |s.hands|
  {
    if s.hands == map[] {
      Stay(sys, s);
      s' := s;
    } else {
      var k :| k in s.hands;
      var s1 := FinishHand(sys, s, k);
      assert |s.hands - {k}| < |s.hands| by {
        assert (s.hands - {k}).Keys == s.hands.Keys - {k};
      }
      s' := FinishHands(sys, s1);
      Then(sys, s, s1, s');
    }
  }

  // ---- Checkers ----

  predicate Quiet(ch: Checker) {
    ch.ready == multiset{} && ch.cells.writing == multiset{}
  }

  /** Only the checkers differ, and of them only c. */
  predicate OnlyChecker(s: State, s': State, c: CheckerId) {
    c in s.checkers && c in s'.checkers && s' == s.(checkers := s.checkers[c := s'.checkers[c]])
  }

  lemma {:induction false} FinishStores(sys: System, s: State, c: CheckerId) returns (s': State)
    requires c in s.checkers
    ensures Reaches(sys, s, s') && OnlyChecker(s, s', c)
    ensures s'.checkers[c].cells.writing == multiset{} && s'.checkers[c].ready == s.checkers[c].ready
    decreases |s.checkers[c].cells.writing|
  {
    if s.checkers[c].cells.writing == multiset{} {
      Stay(sys, s);
      s' := s;
    } else {
      var r :| r in s.checkers[c].cells.writing;
      var a := StoreEntry(c, r);
      var s1 := Apply(sys, s, a);
      Take(sys, s, a);
      s' := FinishStores(sys, s1, c);
      Then(sys, s, s1, s');
    }
  }

  lemma {:induction false} FinishApplies(sys: System, s: State, c: CheckerId) returns (s': State)
    requires c in s.checkers && s.checkers[c].cells.writing == multiset{}
    ensures Reaches(sys, s, s') && OnlyChecker(s, s', c) && Quiet(s'.checkers[c])
    decreases |s.checkers[c].ready|
  {
    if s.checkers[c].ready == multiset{} {
      Stay(sys, s);
      s' := s;
    } else {
      var r :| r in s.checkers[c].ready;
      var a := LoadEntry(c, r);
      var s1 := Apply(sys, s, a);
      Take(sys, s, a);
      var s2 := FinishStores(sys, s1, c);
      s' := FinishApplies(sys, s2, c);
      Then(sys, s, s1, s2);
      Then(sys, s, s2, s');
    }
  }

  function Busy(s: State): set<CheckerId> {
    set c | c in s.checkers && !Quiet(s.checkers[c])
  }

  lemma {:induction false} FinishCheckers(sys: System, s: State) returns (s': State)
    ensures Reaches(sys, s, s') && s' == s.(checkers := s'.checkers) && Busy(s') == {}
    decreases Busy(s)
  {
    if Busy(s) == {} {
      Stay(sys, s);
      s' := s;
    } else {
      var c :| c in Busy(s);
      var s1 := FinishStores(sys, s, c);
      var s2 := FinishApplies(sys, s1, c);
      Then(sys, s, s1, s2);
      assert forall d :: d in s.checkers && d != c ==> s2.checkers[d] == s.checkers[d];
      assert Busy(s2) < Busy(s) by { assert c !in Busy(s2); }
      s' := FinishCheckers(sys, s2);
      Then(sys, s, s2, s');
    }
  }

  // ---- Rest ----

  /** Nothing is on its way any more. */
  predicate Resting(s: State) {
    s.hands == map[] && Drained(s) && Busy(s) == {}
  }

  /** Without a queue there is nothing in it. */
  lemma {:induction false} NoQueueNoWork(sys: System, s: State, acts: seq<Action>)
    requires !sys.hasQueue && Drained(s) && Runs(sys, s, acts)
    ensures Drained(Run(sys, s, acts))
    decreases |acts|
  {
    if acts == [] {
    } else {
      NoQueueNoWork(sys, Apply(sys, s, acts[0]), acts[1..]);
    }
  }

  /** No event is bound to be given up: none failed its last try in the running pass, none refused lacks a queue. */
  predicate NothingDoomed(sys: System, s: State) {
    Spared(sys, s.queue) && CanRetry(sys, s)
  }

  /** From every reachable state, calm steps reach rest. */
  lemma RestIsReachable(sys: System, clock: int, acts: seq<Action>) returns (s': State)
    requires Runs(sys, Init(clock), acts) && (sys.hasQueue ==> sys.cfg.maxSize >= 1)
    ensures var s := Run(sys, Init(clock), acts);
            Reaches(sys, s, s') && Resting(s') && (NothingDoomed(sys, s) ==> NoneDropped(s, s'))
  {
    var s := Run(sys, Init(clock), acts);
    assert Reachable(sys, s);
    var s1 := s;
    Stay(sys, s);
    if sys.hasQueue {
      s1 := Drain(sys, s);
    } else {
      NoQueueNoWork(sys, Init(clock), acts);
    }
    var s2 := FinishHands(sys, s1);
    Then(sys, s, s1, s2);
    s' := FinishCheckers(sys, s2);
    Then(sys, s, s2, s');
  }

  // ---- Convergence is within reach ----

  /** What calm steps keep: the store, its changes, the subscriptions and what the queue ever held. */
  ghost predicate Kept(s: State, s': State) {
    && s'.reg.store == s.reg.store && |s'.reg.log| == |s.reg.log|
    && (forall k :: 0 <= k < |s.reg.log| ==> s'.reg.log[k].id == s.reg.log[k].id)
    && (forall k :: 0 <= k < |s.reg.log| && s.reg.log[k].stamp.Some? ==> s'.reg.log[k] == s.reg.log[k])
    && s.published <= s'.published
    && |s.queue.history| <= |s'.queue.history| && s'.queue.history[..|s.queue.history|] == s.queue.history
    && s'.checkers.Keys == s.checkers.Keys
    && (forall c :: c in s.checkers ==> SameMember(s.checkers[c], s'.checkers[c]))
  }

  predicate SameMember(ch: Checker, ch': Checker) {
    ch'.subscribed == ch.subscribed && ch'.since == ch.since && ch'.seen == ch.seen
  }

  lemma CalmStepKeeps(sys: System, s: State, a: Action)
    requires Core(sys, s) && Enabled(sys, s, a) && Calm(a)
    ensures Kept(s, Apply(sys, s, a))
  {
    if a.Stamp? {
      assert HandInv(s.reg, a.k, s.hands[a.k]);
    }
  }

  lemma {:induction false} CalmKeeps(sys: System, s: State, acts: seq<Action>)
    requires Core(sys, s) && Runs(sys, s, acts) && AllCalm(acts)
    ensures Kept(s, Run(sys, s, acts))
    decreases |acts|
  {
    if acts == [] {
    } else {
      var s1 := Apply(sys, s, acts[0]);
      CalmStepKeeps(sys, s, acts[0]);
      StepCore(sys, s, acts[0]);
      CalmKeeps(sys, s1, acts[1..]);
      KeptOn(s, s1, Run(sys, s, acts));
    }
  }

  lemma KeptOn(s: State, mid: State, s': State)
    requires Kept(s, mid) && Kept(mid, s')
    ensures Kept(s, s')
  {
    assert s'.queue.history[..|mid.queue.history|][..|s.queue.history|] == s'.queue.history[..|s.queue.history|];
    forall c | c in s.checkers
      ensures SameMember(s.checkers[c], s'.checkers[c])
    {
      assert c in mid.checkers.Keys;
    }
  }

  lemma StillInformed(s: State, s': State, c: CheckerId, id: TenantId)
    requires Kept(s, s') && c in s.checkers && Informed(s, c, id)
    ensures c in s'.checkers.Keys && Informed(s', c, id)
  {
    assert SameMember(s.checkers[c], s'.checkers[c]);
    if k :| 0 <= k < |s.reg.log| && s.reg.log[k].id == id &&
            s.reg.log[k].stamp.Some? && s.reg.log[k].stamp.value > s.checkers[c].since {
      assert s'.reg.log[k] == s.reg.log[k];
    }
  }

  lemma StillNothingDropped(sys: System, s: State, s': State, id: TenantId)
    requires Core(sys, s) && Kept(s, s') && NoneDropped(s, s') && NothingDropped(s, id)
    ensures NothingDropped(s', id)
  {
    forall i | (i in s'.queue.evicted || i in s'.queue.exhausted) && i < |s'.queue.history| &&
               s'.queue.history[i].event.event.id == id
      ensures s'.queue.history[i].event.change in s'.published
    {
      assert Q.Places(s.queue, i) >= 1;
      assert s'.queue.history[i] == s'.queue.history[..|s.queue.history|][i];
    }
  }

  /** Calm steps begin no transition. */
  lemma {:induction false} CalmIsSerial(sys: System, s: State, acts: seq<Action>, id: TenantId)
    requires Runs(sys, s, acts) && AllCalm(acts)
    ensures SerialTransitions(sys, s, acts, id)
    decreases |acts|
  {
    if acts == [] {
    } else {
      assert Calm(acts[0]);
      CalmIsSerial(sys, Apply(sys, s, acts[0]), acts[1..], id);
    }
  }

  /** Transitions of the tenant did not overlap, nor did its applies at the checker. */
  predicate NoOverlap(sys: System, s: State, acts: seq<Action>, c: CheckerId, id: TenantId)
    requires Runs(sys, s, acts)
  {
    SerialTransitions(sys, s, acts, id) && SerialApplies(sys, s, acts, c, id)
  }

  /** What a continuation achieves: rest, and agreement with the store wherever nothing overlapped or was dropped. */
  ghost predicate Converges(sys: System, clock: int, acts: seq<Action>, s': State)
    requires Runs(sys, Init(clock), acts)
  {
    var s := Run(sys, Init(clock), acts);
    && Resting(s') && s'.reg.store == s.reg.store && s'.checkers.Keys == s.checkers.Keys
    && (forall c, id ::
          && c in s.checkers && id in s.reg.store && Informed(s, c, id)
          && NothingDropped(s', id) && NoOverlap(sys, Init(clock), acts, c, id)
          ==> c in s'.checkers && Agrees(s', c, id))
    && (NothingDoomed(sys, s) ==> forall id :: NothingDropped(s, id) ==> NothingDropped(s', id))
  }

  lemma AgreesInTheEnd(sys: System, clock: int, acts: seq<Action>, more: seq<Action>, c: CheckerId, id: TenantId)
    requires Runs(sys, Init(clock), acts) && NoOverlap(sys, Init(clock), acts, c, id)
    requires var s := Run(sys, Init(clock), acts);
             && Runs(sys, s, more) && AllCalm(more) && SerialApplies(sys, s, more, c, id)
             && c in s.checkers && id in s.reg.store && Informed(s, c, id)
    requires var s' := Run(sys, Run(sys, Init(clock), acts), more);
             Resting(s') && Kept(Run(sys, Init(clock), acts), s') && NothingDropped(s', id)
    ensures var s' := Run(sys, Run(sys, Init(clock), acts), more); c in s'.checkers && Agrees(s', c, id)
  {
    var s := Run(sys, Init(clock), acts);
    var s' := Run(sys, s, more);
    RunConcat(sys, Init(clock), acts, more);
    SerialConcat(sys, Init(clock), acts, more, c, id);
    CalmIsSerial(sys, s, more, id);
    StillInformed(s, s', c, id);
    RestingIsAtRest(s', c, id);
    EveryCheckerConverges(sys, clock, acts + more, c, id);
  }

  /**
   Every run can be continued, by calm steps alone, to a state of rest in which
   every informed subscriber agrees with the store about every tenant whose
   transitions, and applies at that checker, did not overlap and of which nothing
   was dropped; and if nothing is doomed yet, the continuation drops nothing itself.
   */
  lemma ConvergenceIsReachable(sys: System, clock: int, acts: seq<Action>)
    requires Runs(sys, Init(clock), acts) && (sys.hasQueue ==> sys.cfg.maxSize >= 1)
    ensures exists more :: AllCalm(more) && Runs(sys, Init(clock), acts + more) &&
              Converges(sys, clock, acts, Run(sys, Init(clock), acts + more))
  {
    var s := Run(sys, Init(clock), acts);
    var s' := RestIsReachable(sys, clock, acts);
    var more :| AllCalm(more) && Runs(sys, s, more) && AllSerial(sys, s, more) && Run(sys, s, more) == s';
    RunConcat(sys, Init(clock), acts, more);
    ReachableCore(sys, clock, acts);
    CalmKeeps(sys, s, more);
    forall c, id | && c in s.checkers && id in s.reg.store && Informed(s, c, id)
                   && NothingDropped(s', id) && NoOverlap(sys, Init(clock), acts, c, id)
      ensures c in s'.checkers && Agrees(s', c, id)
    {
      AgreesInTheEnd(sys, clock, acts, more, c, id);
    }
    if NothingDoomed(sys, s) {
      forall id | NothingDropped(s, id)
        ensures NothingDropped(s', id)
      {
        StillNothingDropped(sys, s, s', id);
      }
    }
    assert Converges(sys, clock, acts, Run(sys, Init(clock), acts + more));
  }

  // ---- Snapshots ----

  /** The store is left alone. */
  predicate NoTransitions(acts: seq<Action>) {
    forall i :: 0 <= i < |acts| ==> !acts[i].SetState? && !acts[i].Create?
  }

  /** A snapshot reads what the store holds at that time, and the subscriber is informed. */
  lemma SnapshotInforms(sys: System, s: State, c: CheckerId, id: TenantId) returns (acts: seq<Action>)
    requires c in s.checkers && s.checkers[c].subscribed && id in s.reg.store
    ensures Runs(sys, s, acts) && NoTransitions(acts)
    ensures SerialTransitions(sys, s, acts, id) && SerialApplies(sys, s, acts, c, id)
    ensures var s' := Run(sys, s, acts);
            && c in s'.checkers && Informed(s', c, id) && s'.reg.store == s.reg.store
            && s'.hands == s.hands && s'.queue == s.queue && NoneDropped(s, s')
            && s'.published == s.published && s'.reg.log == s.reg.log
  {
    var t := s.reg.clock + 1;
    var s1 := Apply(sys, s, SnapBegin(c, t));
    var s2 := Apply(sys, s1, SnapRead(c, t, id));
    var r := Record(id, s.reg.store[id] == Banned, t);
    assert r in s2.checkers[c].seen;
    RunCons(sys, s1, SnapRead(c, t, id), []);
    SerialCons(sys, s1, SnapRead(c, t, id), [], c, id);
    RunCons(sys, s, SnapBegin(c, t), [SnapRead(c, t, id)] + []);
    SerialCons(sys, s, SnapBegin(c, t), [SnapRead(c, t, id)] + [], c, id);
    acts := [SnapBegin(c, t)] + ([SnapRead(c, t, id)] + []);
  }

  /**
   From every run, a subscriber can learn of any tenant, however long ago it last
   changed, by one snapshot and calm steps: then it agrees with the store, if
   nothing of the tenant overlapped, was dropped or is doomed.
   */
  lemma SnapshotConverges(sys: System, clock: int, acts: seq<Action>, c: CheckerId, id: TenantId)
    requires Runs(sys, Init(clock), acts) && (sys.hasQueue ==> sys.cfg.maxSize >= 1)
    requires var s := Run(sys, Init(clock), acts);
             && c in s.checkers && s.checkers[c].subscribed && id in s.reg.store
             && NothingDropped(s, id) && NothingDoomed(sys, s)
    requires NoOverlap(sys, Init(clock), acts, c, id)
    ensures exists more :: NoTransitions(more) && Runs(sys, Init(clock), acts + more) &&
              var s, s' := Run(sys, Init(clock), acts), Run(sys, Init(clock), acts + more);
              s'.reg.store == s.reg.store && c in s'.checkers && Agrees(s', c, id)
  {
    var s := Run(sys, Init(clock), acts);
    var snap := SnapshotInforms(sys, s, c, id);
    RunConcat(sys, Init(clock), acts, snap);
    SerialConcat(sys, Init(clock), acts, snap, c, id);
    assert NothingDropped(Run(sys, s, snap), id);
    var calm := CalmAgreement(sys, clock, acts + snap, c, id);
    var more := snap + calm;
    assert acts + snap + calm == acts + more;
    assert NoTransitions(more) by {
      assert forall i :: 0 <= i < |calm| ==> Calm(calm[i]);
    }
  }

  /** An informed subscriber comes to agree by calm steps. */
  lemma CalmAgreement(sys: System, clock: int, acts: seq<Action>, c: CheckerId, id: TenantId)
    returns (calm: seq<Action>)
    requires Runs(sys, Init(clock), acts) && (sys.hasQueue ==> sys.cfg.maxSize >= 1)
    requires var s := Run(sys, Init(clock), acts);
             && c in s.checkers && id in s.reg.store && Informed(s, c, id)
             && NothingDropped(s, id) && NothingDoomed(sys, s)
    requires NoOverlap(sys, Init(clock), acts, c, id)
    ensures AllCalm(calm) && Runs(sys, Init(clock), acts + calm)
    ensures var s, s' := Run(sys, Init(clock), acts), Run(sys, Init(clock), acts + calm);
            s'.reg.store == s.reg.store && c in s'.checkers && Agrees(s', c, id)
  {
    ConvergenceIsReachable(sys, clock, acts);
    calm :| AllCalm(calm) && Runs(sys, Init(clock), acts + calm) &&
            Converges(sys, clock, acts, Run(sys, Init(clock), acts + calm));
  }

  lemma RestingIsAtRest(s: State, c: CheckerId, id: TenantId)
    requires Resting(s) && c in s.checkers
    ensures AtRest(s, c, id)
  {
    assert c !in Busy(s);
  }
}
