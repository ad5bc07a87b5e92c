/**
 The queue object against the state machine: any sequence of calls on the object
 leaves it as the corresponding run of the machine says, so what holds of every
 run holds of every object.
 */
module RetryReplay {
  import opened Tenants
  import opened RetrySlots
  import R = RetryRounds
  import Q = RetryQueue

  /** A call on the queue; a pass says what arrives meanwhile and what bus and clock answer. */
  datatype Call =
    | Enqueue(event: Event, now: int)
    | Pass(now: int, arrivals: seq<(Event, int)>, answer: nat -> bool, clock: nat -> int)

  /** The clock readings at the end of a pass are not before the one at its start. */
  ghost predicate Timely(call: Call) {
    call.Pass? ==> forall i :: call.now <= call.clock(i)
  }

  ghost predicate AllTimely(calls: seq<Call>) {
    forall i :: 0 <= i < |calls| ==> Timely(calls[i])
  }

  function EnqueueSteps(arrivals: seq<(Event, int)>): seq<R.Action<Event>> {
    seq(|arrivals|, i requires 0 <= i < |arrivals| => R.Enqueue(arrivals[i].0, arrivals[i].1))
  }

  function AnswerSteps(answers: seq<bool>): seq<R.Action<Event>> {
    seq(|answers|, i requires 0 <= i < |answers| => R.Answer(answers[i]))
  }

  /** From the copy of the due entries on: what arrives, the answers, and their application. */
  function PublishingSteps(arrivals: seq<(Event, int)>, answers: seq<bool>, times: seq<int>): seq<R.Action<Event>> {
    EnqueueSteps(arrivals) + (AnswerSteps(answers) + [R.Settle(times)])
  }

  /** The machine's steps for one call, given the list it starts from. */
  function Steps(slots: seq<Slot>, call: Call): seq<R.Action<Event>> {
    match call
    case Enqueue(event, now) => [R.Enqueue(event, now)]
    case Pass(now, arrivals, answer, clock) =>
      var n := |DueKeys(slots, now)|;
      if n == 0 then [R.Collect(now)]
      else [R.Collect(now)] + PublishingSteps(arrivals, FirstOf(n, answer), FirstOf(n, clock))
  }

  function Items(arrivals: seq<(Event, int)>): seq<R.Item<Event>> {
    seq(|arrivals|, i requires 0 <= i < |arrivals| => R.Item(arrivals[i].0, arrivals[i].1))
  }

  // ---- The machine's side of a pass ----

  /** A pass is running whose entries the queue has on record. */
  predicate CanAnswer(q: R.Queue<Event>) {
    q.round.Publishing? && forall i :: 0 <= i < |q.round.due| ==> q.round.due[i] < |q.tries|
  }

  lemma {:induction false} EnqueuesRun(cfg: Config, q: R.Queue<Event>, arrivals: seq<(Event, int)>)
    requires cfg.maxSize >= 1
    ensures R.Runs(cfg, q, EnqueueSteps(arrivals))
    ensures var q' := R.Run(cfg, q, EnqueueSteps(arrivals));
            && q'.slots == EnqueueAll(cfg, q.slots, |q.history|, Q.ArrivalTimes(arrivals))
            && q'.history == q.history + Items(arrivals) && q'.round == q.round && |q.tries| <= |q'.tries|
    decreases |arrivals|
  {
    if arrivals == [] {
    } else {
      var acts := EnqueueSteps(arrivals);
      assert acts[1..] == EnqueueSteps(arrivals[1..]);
      EnqueuesRun(cfg, R.Apply(cfg, q, acts[0]), arrivals[1..]);
      assert Q.ArrivalTimes(arrivals)[1..] == Q.ArrivalTimes(arrivals[1..]);
      assert Items(arrivals) == [R.Item(arrivals[0].0, arrivals[0].1)] + Items(arrivals[1..]);
    }
  }

  lemma {:induction false} AnswersRun(cfg: Config, q: R.Queue<Event>, answers: seq<bool>)
    requires CanAnswer(q) && |q.round.answers| + |answers| <= |q.round.due|
    ensures R.Runs(cfg, q, AnswerSteps(answers))
    ensures var q' := R.Run(cfg, q, AnswerSteps(answers));
            && q'.slots == q.slots && q'.history == q.history
            && q'.round == q.round.(answers := q.round.answers + answers)
    decreases |answers|
  {
    if answers == [] {
      assert q.round.answers + answers == q.round.answers;
    } else {
      var acts := AnswerSteps(answers);
      assert acts[1..] == AnswerSteps(answers[1..]);
      AnswersRun(cfg, R.Apply(cfg, q, acts[0]), answers[1..]);
      assert q.round.answers + [answers[0]] + answers[1..] == q.round.answers + answers;
    }
  }

  /** From the copy of the due entries to the application of the answers. */
  lemma PublishingRuns(cfg: Config, q: R.Queue<Event>, arrivals: seq<(Event, int)>, answers: seq<bool>, times: seq<int>)
    requires cfg.maxSize >= 1 && CanAnswer(q) && q.round.answers == []
    requires Matching(q.round.due, answers, times)
    requires forall i :: 0 <= i < |times| ==> q.round.now <= times[i]
    ensures var acts := PublishingSteps(arrivals, answers, times);
            && R.Runs(cfg, q, acts)
            && var q' := R.Run(cfg, q, acts);
            var during := EnqueueAll(cfg, q.slots, |q.history|, Q.ArrivalTimes(arrivals));
            && q'.slots == SettleSlots(cfg, during, q.round.due, answers, times)
            && q'.history == q.history + Items(arrivals) && q'.round.Idle?
  {
    EnqueuesRun(cfg, q, arrivals);
    var q1 := R.Run(cfg, q, EnqueueSteps(arrivals));
    EndOfPass(cfg, q1, answers, times);
    R.RunConcat(cfg, q, EnqueueSteps(arrivals), AnswerSteps(answers) + [R.Settle(times)]);
  }

  lemma EndOfPass(cfg: Config, q: R.Queue<Event>, answers: seq<bool>, times: seq<int>)
    requires CanAnswer(q) && q.round.answers == [] && Matching(q.round.due, answers, times)
    requires forall i :: 0 <= i < |times| ==> q.round.now <= times[i]
    ensures var acts := AnswerSteps(answers) + [R.Settle(times)];
            && R.Runs(cfg, q, acts)
            && var q' := R.Run(cfg, q, acts);
            && q'.slots == SettleSlots(cfg, q.slots, q.round.due, answers, times)
            && q'.history == q.history && q'.round.Idle?
  {
    AnswersRun(cfg, q, answers);
    var q1 := R.Run(cfg, q, AnswerSteps(answers));
    assert q1.round.answers == answers by { assert [] + answers == answers; }
    var end: seq<R.Action<Event>> := [R.Settle(times)];
    assert end[1..] == [];
    R.RunConcat(cfg, q, AnswerSteps(answers), end);
  }

  /** What one call makes of the machine's list and history. */
  ghost predicate Follows(cfg: Config, q: R.Queue<Event>, call: Call, q': R.Queue<Event>)
    requires cfg.maxSize >= 1
  {
    && q'.round.Idle?
    && match call
       case Enqueue(event, now) =>
         && q'.slots == EnqueueSlots(cfg, q.slots, |q.history|, now)
         && q'.history == q.history + [R.Item(event, now)]
       case Pass(now, arrivals, answer, clock) =>
         && q'.slots == AfterPass(cfg, q.slots, |q.history|, now, Q.ArrivalTimes(arrivals), answer, clock)
         && q'.history == if DueKeys(q.slots, now) == [] then q.history else q.history + Items(arrivals)
  }

  lemma PassRuns(cfg: Config, q: R.Queue<Event>, call: Call)
    requires cfg.maxSize >= 1 && R.Inv(cfg, q) && q.round.Idle? && call.Pass? && Timely(call)
    ensures R.Runs(cfg, q, Steps(q.slots, call))
    ensures Follows(cfg, q, call, R.Run(cfg, q, Steps(q.slots, call)))
  {
    var due := DueKeys(q.slots, call.now);
    var n := |due|;
    var collect: R.Action<Event> := R.Collect(call.now);
    var q1 := R.Apply(cfg, q, collect);
    if n == 0 {
      assert [collect][1..] == [];
    } else {
      R.CollectKeeps(cfg, q, call.now);
      PublishingRuns(cfg, q1, call.arrivals, FirstOf(n, call.answer), FirstOf(n, call.clock));
      var rest := PublishingSteps(call.arrivals, FirstOf(n, call.answer), FirstOf(n, call.clock));
      R.RunCons(cfg, q, collect, rest);
    }
  }

  lemma CallRuns(cfg: Config, q: R.Queue<Event>, call: Call)
    requires cfg.maxSize >= 1 && R.Inv(cfg, q) && q.round.Idle? && Timely(call)
    ensures R.Runs(cfg, q, Steps(q.slots, call))
    ensures Follows(cfg, q, call, R.Run(cfg, q, Steps(q.slots, call)))
  {
    if call.Pass? {
      PassRuns(cfg, q, call);
    } else {
      assert Steps(q.slots, call)[1..] == [];
    }
  }

  // ---- Any sequence of calls ----

  ghost predicate Reachable(cfg: Config, q: R.Queue<Event>) {
    exists acts :: R.Runs(cfg, R.NewQueue(), acts) && R.Run(cfg, R.NewQueue(), acts) == q
  }

  lemma ReachOn(cfg: Config, q: R.Queue<Event>, acts: seq<R.Action<Event>>)
    requires Reachable(cfg, q) && R.Runs(cfg, q, acts)
    ensures Reachable(cfg, R.Run(cfg, q, acts))
  {
    var before :| R.Runs(cfg, R.NewQueue(), before) && R.Run(cfg, R.NewQueue(), before) == q;
    R.RunConcat(cfg, R.NewQueue(), before, acts);
  }

  lemma NewIsReachable(cfg: Config)
    ensures Reachable(cfg, R.NewQueue())
  {
    var none: seq<R.Action<Event>> := [];
    assert R.Runs(cfg, R.NewQueue(), none) && R.Run(cfg, R.NewQueue(), none) == R.NewQueue();
  }

  lemma Facts(cfg: Config, q: R.Queue<Event>)
    requires Reachable(cfg, q)
    ensures R.Inv(cfg, q)
  {
    var acts :| R.Runs(cfg, R.NewQueue(), acts) && R.Run(cfg, R.NewQueue(), acts) == q;
    R.ReachableKeeps(cfg, acts);
  }

  /** The machine after a sequence of calls: it has run, between passes again. */
  ghost function Outcome(cfg: Config, calls: seq<Call>): (q: R.Queue<Event>)
    requires cfg.maxSize >= 1 && AllTimely(calls)
    ensures Reachable(cfg, q) && q.round.Idle?
  {
    if calls == [] then
      NewIsReachable(cfg);
      R.NewQueue()
    else
      var q := Outcome(cfg, calls[..|calls| - 1]);
      var call := calls[|calls| - 1];
      Facts(cfg, q);
      CallRuns(cfg, q, call);
      ReachOn(cfg, q, Steps(q.slots, call));
      R.Run(cfg, q, Steps(q.slots, call))
  }

  lemma OutcomeFollows(cfg: Config, calls: seq<Call>, i: nat)
    requires cfg.maxSize >= 1 && AllTimely(calls) && i < |calls|
    ensures Follows(cfg, Outcome(cfg, calls[..i]), calls[i], Outcome(cfg, calls[..i + 1]))
  {
    var q := Outcome(cfg, calls[..i]);
    assert calls[..i + 1][..i] == calls[..i];
    Facts(cfg, q);
    CallRuns(cfg, q, calls[i]);
  }

  /** The object holds the machine's list, and its entries the machine's events. */
  ghost predicate Mirrors(queue: Q.PublishRetryQueue, q: R.Queue<Event>)
    reads queue, queue.pending
  {
    queue.Valid() && queue.Slots() == q.slots && SameEvents(queue.history, q.history)
  }

  predicate SameEvents(entries: seq<Q.PendingEvent>, items: seq<R.Item<Event>>) {
    |entries| == |items| && forall i :: 0 <= i < |items| ==> entries[i].event == items[i].event
  }

  /** A history that keeps its entries and grows by these events mirrors one that grows by these items. */
  lemma EventsGrow(before: seq<Q.PendingEvent>, after: seq<Q.PendingEvent>, items: seq<R.Item<Event>>,
                   more: seq<R.Item<Event>>)
    requires SameEvents(before, items)
    requires |after| == |before| + |more| && after[..|before|] == before
    requires forall i :: 0 <= i < |more| ==> after[|before| + i].event == more[i].event
    ensures SameEvents(after, items + more)
  {
    forall i | 0 <= i < |items + more|
      ensures after[i].event == (items + more)[i].event
    {
      if i < |items| {
        assert after[i] == after[..|before|][i];
      } else {
        assert after[|before| + (i - |items|)].event == more[i - |items|].event;
      }
    }
  }

  method PerformEnqueue(queue: Q.PublishRetryQueue, event: Event, now: int, ghost q: R.Queue<Event>,
                        ghost q': R.Queue<Event>)
    requires queue.cfg.maxSize >= 1 && Mirrors(queue, q) && Follows(queue.cfg, q, Enqueue(event, now), q')
    modifies queue
    ensures Mirrors(queue, q')
    ensures forall pe :: pe in queue.pending ==> pe in old(queue.pending) || fresh(pe)
  {
    queue.Enqueue(event, now);
    EventsGrow(old(queue.history), queue.history, q.history, [R.Item(event, now)]);
  }

  method PerformPass(queue: Q.PublishRetryQueue, call: Call, ghost q: R.Queue<Event>, ghost q': R.Queue<Event>)
    requires queue.cfg.maxSize >= 1 && Mirrors(queue, q) && call.Pass? && Follows(queue.cfg, q, call, q')
    modifies queue, queue.pending
    ensures Mirrors(queue, q')
    ensures forall pe :: pe in queue.pending ==> pe in old(queue.pending) || fresh(pe)
  {
    ghost var due := DueKeys(q.slots, call.now);
    assert old(queue.Slots()) == q.slots && |old(queue.history)| == |q.history|;
    queue.RetryDue(call.now, call.arrivals, call.answer, call.clock);
    if due != [] {
      EventsGrow(old(queue.history), queue.history, q.history, Items(call.arrivals));
    } else {
      assert queue.history == old(queue.history) && q'.history == q.history;
    }
    assert queue.Slots() == q'.slots;
  }

  method Perform(queue: Q.PublishRetryQueue, call: Call, ghost q: R.Queue<Event>, ghost q': R.Queue<Event>)
    requires queue.cfg.maxSize >= 1 && Mirrors(queue, q) && Follows(queue.cfg, q, call, q')
    modifies queue, queue.pending
    ensures Mirrors(queue, q')
    ensures forall i :: 0 <= i < |queue.pending| ==> queue.pending[i] in old(queue.pending) || fresh(queue.pending[i])
  {
    match call
    case Enqueue(event, now) => PerformEnqueue(queue, event, now, q, q');
    case Pass(_, _, _, _) => PerformPass(queue, call, q, q');
    assert forall i :: 0 <= i < |queue.pending| ==> queue.pending[i] in queue.pending;
  }

  /** Any sequence of calls on a new queue leaves it as the machine's run says. */
  method Replay(cfg: Config, calls: seq<Call>) returns (queue: Q.PublishRetryQueue)
    requires cfg.maxSize >= 1 && AllTimely(calls)
    ensures queue.cfg == cfg && Mirrors(queue, Outcome(cfg, calls))
    ensures fresh(queue) && forall i :: 0 <= i < |queue.pending| ==> fresh(queue.pending[i])
  {
    if calls == [] {
      queue := new Q.PublishRetryQueue(cfg);
    } else {
      var n := |calls| - 1;
      queue := Replay(cfg, calls[..n]);
      OutcomeFollows(cfg, calls, n);
      assert calls[..n + 1] == calls;
      Perform(queue, calls[n], Outcome(cfg, calls[..n]), Outcome(cfg, calls));
    }
  }

  /**
   So the object itself is bounded and accounts for every entry it ever held, and
   a pending entry has been published exactly as often as its attempts say.
   */
  lemma ObjectKeepsPromises(cfg: Config, calls: seq<Call>, queue: Q.PublishRetryQueue)
    requires cfg.maxSize >= 1 && AllTimely(calls) && Mirrors(queue, Outcome(cfg, calls))
    ensures var q := Outcome(cfg, calls);
            && |queue.pending| <= cfg.maxSize && R.Accounted(q)
            && |queue.history| == |queue.pending| + |q.evicted| + |q.retried| + |q.exhausted|
            && (forall pe :: pe in queue.pending ==>
                  pe.serial < |q.tries| && q.tries[pe.serial] == pe.attempts <= cfg.maxRetries)
  {
    var q := Outcome(cfg, calls);
    var acts :| R.Runs(cfg, R.NewQueue(), acts) && R.Run(cfg, R.NewQueue(), acts) == q;
    R.QueueConservation(cfg, acts);
    R.BackoffIsReal(cfg, acts);
    forall pe | pe in queue.pending
      ensures pe.serial < |q.tries| && q.tries[pe.serial] == pe.attempts <= cfg.maxRetries
    {
      var i :| 0 <= i < |queue.pending| && queue.pending[i] == pe;
      assert q.slots[i] == pe.View() && q.slots[i] in q.slots;
    }
  }
}
