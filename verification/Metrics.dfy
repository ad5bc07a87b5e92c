/**
 A tenant's latency counters, lock-free: an observation adds to the sum and then
 to the count, a snapshot reads the count and then the sum, each one atomic step.
 Durations are non-negative and the sums fit an int64.
 */
module Metrics {
  import opened Division

  /** An observation between its two steps, or after both. */
  datatype Observation = Observation(duration: nat, counted: bool)

  /** `observations` lists the calls in the order of their first step. */
  datatype Counters = Counters(latencySum: nat, latencyCount: nat, observations: seq<Observation>)

  /** A snapshot between its two reads: the count it read, and which observations that count stands for. */
  datatype Reader = Idle | HasCount(count: nat, counted: seq<nat>) | Has(average: nat, count: nat, counted: seq<nat>)

  datatype State = State(counters: Counters, reader: Reader)

  datatype Action = AddSum(duration: nat) | AddCount(i: nat) | ReadCount | ReadSum

  const Start := State(Counters(0, 0, []), Idle)

  predicate Enabled(s: State, a: Action) {
    match a
    case AddSum(_) => true
    case AddCount(i) => i < |s.counters.observations| && !s.counters.observations[i].counted
    case ReadCount => true
    case ReadSum => s.reader.HasCount?
  }

  /** The durations of the observations that have taken both steps. */
  function Durations(obs: seq<Observation>): seq<nat> {
    if obs == [] then []
    else Durations(obs[..|obs| - 1]) + if obs[|obs| - 1].counted then [obs[|obs| - 1].duration] else []
  }

  function Apply(s: State, a: Action): State
    requires Enabled(s, a)
  {
    var c := s.counters;
    match a
    case AddSum(d) =>
      s.(counters := c.(latencySum := c.latencySum + d, observations := c.observations + [Observation(d, false)]))
    case AddCount(i) =>
      s.(counters := c.(latencyCount := c.latencyCount + 1,
                        observations := c.observations[i := c.observations[i].(counted := true)]))
    case ReadCount => s.(reader := HasCount(c.latencyCount, Durations(c.observations)))
    case ReadSum =>
      var n := s.reader.count;
      s.(reader := Has(if n > 0 then c.latencySum / n else 0, n, s.reader.counted))
  }

  predicate Runs(s: State, acts: seq<Action>)
    decreases |acts|
  {
    acts == [] || (Enabled(s, acts[0]) && Runs(Apply(s, acts[0]), acts[1..]))
  }

  function Run(s: State, acts: seq<Action>): State
    requires Runs(s, acts)
    decreases |acts|
  {
    if acts == [] then s else Run(Apply(s, acts[0]), acts[1..])
  }

  function Sum(ds: seq<nat>): nat {
    if ds == [] then 0 else Sum(ds[..|ds| - 1]) + ds[|ds| - 1]
  }

  /** What is in the sum but not in the count. */
  function Pending(obs: seq<Observation>): nat {
    if obs == [] then 0
    else Pending(obs[..|obs| - 1]) + if obs[|obs| - 1].counted then 0 else obs[|obs| - 1].duration
  }

  lemma SumSnoc(ds: seq<nat>, d: nat)
    ensures Sum(ds + [d]) == Sum(ds) + d
  {
    assert (ds + [d])[..|ds|] == ds;
  }

  /** Taking its second step moves an observation from the pending part into the counted one. */
  lemma {:induction false} CountingMoves(obs: seq<Observation>, i: nat)
    requires i < |obs| && !obs[i].counted
    ensures var obs' := obs[i := obs[i].(counted := true)];
            && |Durations(obs')| == |Durations(obs)| + 1
            && Sum(Durations(obs')) == Sum(Durations(obs)) + obs[i].duration
            && Pending(obs') + obs[i].duration == Pending(obs)
  {
    var n := |obs| - 1;
    var obs' := obs[i := obs[i].(counted := true)];
    if i == n {
      assert obs'[..n] == obs[..n];
      assert Durations(obs) == Durations(obs[..n]);
      SumSnoc(Durations(obs[..n]), obs[i].duration);
    } else {
      CountingMoves(obs[..n], i);
      assert obs'[..n] == obs[..n][i := obs[i].(counted := true)];
      if obs[n].counted {
        SumSnoc(Durations(obs[..n]), obs[n].duration);
        SumSnoc(Durations(obs'[..n]), obs[n].duration);
      } else {
        assert Durations(obs) == Durations(obs[..n]) && Durations(obs') == Durations(obs'[..n]);
      }
    }
  }

  /** The counters always split into counted and pending observations. */
  ghost predicate Inv(s: State) {
    var c := s.counters;
    && c.latencyCount == |Durations(c.observations)|
    && c.latencySum == Sum(Durations(c.observations)) + Pending(c.observations)
    && (s.reader.HasCount? ==>
          s.reader.count == |s.reader.counted| && Sum(s.reader.counted) <= Sum(Durations(c.observations)))
    && (s.reader.Has? ==>
          && s.reader.count == |s.reader.counted|
          && (s.reader.count > 0 ==> Sum(s.reader.counted) / s.reader.count <= s.reader.average))
  }

  lemma StepKeeps(s: State, a: Action)
    requires Inv(s) && Enabled(s, a)
    ensures Inv(Apply(s, a))
  {
    var obs := s.counters.observations;
    match a
    case AddSum(d) =>
      assert (obs + [Observation(d, false)])[..|obs|] == obs;
      assert Durations(obs + [Observation(d, false)]) == Durations(obs);
    case AddCount(i) => CountingMoves(obs, i);
    case ReadCount =>
    case ReadSum =>
      if s.reader.count > 0 {
        DivMonotone(Sum(s.reader.counted), s.counters.latencySum, s.reader.count);
      }
  }

  lemma {:induction false} RunKeeps(s: State, acts: seq<Action>)
    requires Inv(s) && Runs(s, acts)
    ensures Inv(Run(s, acts))
    decreases |acts|
  {
    if acts == [] {
    } else {
      StepKeeps(s, acts[0]);
      RunKeeps(Apply(s, acts[0]), acts[1..]);
    }
  }

  /** The reported average is never below the floor mean of the observations it counts. */
  lemma AverageIsNotLow(acts: seq<Action>)
    requires Runs(Start, acts) && Run(Start, acts).reader.Has? && Run(Start, acts).reader.count > 0
    ensures var r := Run(Start, acts).reader;
            r.count == |r.counted| && Sum(r.counted) / r.count <= r.average
  {
    RunKeeps(Start, acts);
  }

  // ---- Snapshots that no observation overlaps ----

  predicate Within(ds: seq<nat>, lo: nat, hi: nat) {
    forall i :: 0 <= i < |ds| ==> lo <= ds[i] <= hi
  }

  lemma {:induction false} SumWithin(ds: seq<nat>, lo: nat, hi: nat)
    requires Within(ds, lo, hi)
    ensures |ds| * lo <= Sum(ds) <= |ds| * hi
  {
    if ds == [] {
    } else {
      var n := |ds| - 1;
      SumWithin(ds[..n], lo, hi);
      assert (n + 1) * lo == n * lo + lo && (n + 1) * hi == n * hi + hi;
    }
  }

  lemma MeanWithin(total: nat, n: nat, lo: nat, hi: nat)
    requires n > 0 && n * lo <= total <= n * hi
    ensures lo <= total / n <= hi
  {
    DivMonotone(n * lo, total, n);
    DivMonotone(total, n * hi, n);
    DivUnique(n * lo, lo, 0, n);
    DivUnique(n * hi, hi, 0, n);
  }

  /**
   A snapshot taken while no observation is between its two steps reports exactly
   the floor mean of all observations, which lies between their extremes.
   */
  lemma QuietAverageIsExact(acts: seq<Action>, lo: nat, hi: nat)
    requires Runs(Start, acts)
    requires var c := Run(Start, acts).counters;
             Pending(c.observations) == 0 && c.latencyCount > 0 && Within(Durations(c.observations), lo, hi)
    ensures var s := Run(Start, acts);
            var r := Apply(Apply(s, ReadCount), ReadSum).reader;
            var ds := Durations(s.counters.observations);
            && r.count == |ds| && r.average == Sum(ds) / |ds|
            && lo <= r.average <= hi
  {
    RunKeeps(Start, acts);
    var ds := Durations(Run(Start, acts).counters.observations);
    SumWithin(ds, lo, hi);
    MeanWithin(Sum(ds), |ds|, lo, hi);
  }

  // ---- What is counted, and what a snapshot makes of it ----

  /** The durations observed so far, and how many observations have ended. */
  function Observed(acts: seq<Action>): nat {
    if acts == [] then 0 else (if acts[0].AddSum? then acts[0].duration else 0) + Observed(acts[1..])
  }

  function Ended(acts: seq<Action>): nat {
    if acts == [] then 0 else (if acts[0].AddCount? then 1 else 0) + Ended(acts[1..])
  }

  /** The counters hold exactly what was observed. */
  lemma {:induction false} CountersAddUp(s: State, acts: seq<Action>)
    requires Runs(s, acts)
    ensures var c, c' := s.counters, Run(s, acts).counters;
            c'.latencySum == c.latencySum + Observed(acts) && c'.latencyCount == c.latencyCount + Ended(acts)
    decreases |acts|
  {
    if acts == [] {
    } else {
      CountersAddUp(Apply(s, acts[0]), acts[1..]);
    }
  }

  predicate NoReads(acts: seq<Action>) {
    forall i :: 0 <= i < |acts| ==> !acts[i].ReadCount? && !acts[i].ReadSum?
  }

  lemma {:induction false} ReaderWaits(s: State, acts: seq<Action>)
    requires Runs(s, acts) && NoReads(acts)
    ensures Run(s, acts).reader == s.reader
    decreases |acts|
  {
    if acts == [] {
    } else {
      ReaderWaits(Apply(s, acts[0]), acts[1..]);
    }
  }

  /**
   Whatever observations run before and between its two reads, a snapshot reports
   zero if none had ended at the first, and otherwise everything observed up to
   the second over those that had ended at the first.
   */
  lemma SnapshotMeaning(before: seq<Action>, between: seq<Action>)
    requires Runs(Start, before) && Runs(Apply(Run(Start, before), ReadCount), between) && NoReads(between)
    ensures var s := Run(Apply(Run(Start, before), ReadCount), between);
            && Enabled(s, ReadSum)
            && var r := Apply(s, ReadSum).reader;
            && r.count == Ended(before)
            && r.average == if Ended(before) == 0 then 0 else (Observed(before) + Observed(between)) / Ended(before)
  {
    CountersAddUp(Start, before);
    var s := Apply(Run(Start, before), ReadCount);
    CountersAddUp(s, between);
    ReaderWaits(s, between);
  }
}
