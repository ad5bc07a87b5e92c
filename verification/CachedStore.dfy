/**
 The TTL cache in front of a changing source, as interleaved steps of any number
 of `Get` calls. The singleflight group is its usual contract: at most one
 running call per key, joiners get its result, the key is freed when it ends.
 */
module CachedStore {
  import opened Tenants

  type CallId = nat

  /** What a read of the source returned, and which of the source's versions it saw. */
  datatype Fetched = Fetched(value: Profile, version: nat)

  /** A cache entry; it expires `ttl` after it was written. */
  datatype CacheEntry = CacheEntry(got: Fetched, writtenAt: int)

  /**
   Where a `Get` call stands. `Fetching`, `Read` and `Written` are the leader of a
   flight; `Read(None)` is a source error and `Returned(None)` an error result.
   */
  datatype Phase =
    | Started
    | Looked(entry: Option<CacheEntry>)
    | Missed
    | Fetching
    | Read(got: Option<Fetched>)
    | Written(stored: Fetched)
    | Waiting
    | Returned(result: Option<Fetched>)

  /** `after` are the calls for the same tenant that had returned when this one started. */
  datatype Call = Call(id: TenantId, after: set<CallId>, phase: Phase)

  datatype State = State(
    clock: int,
    versions: seq<map<TenantId, Profile>>,
    cache: map<TenantId, CacheEntry>,
    flights: map<TenantId, CallId>,
    calls: map<CallId, Call>)

  datatype Action =
    | Change(source: map<TenantId, Profile>)
    | Begin(c: CallId, id: TenantId)
    | Look(c: CallId)
    | Decide(c: CallId, t: int)
    | Join(c: CallId)
    | Fetch(c: CallId, ok: bool)
    | Store(c: CallId, t: int)
    | Finish(c: CallId)

  function Init(clock: int, source: map<TenantId, Profile>): State {
    State(clock, [source], map[], map[], map[])
  }

  function Peek(cache: map<TenantId, CacheEntry>, id: TenantId): Option<CacheEntry> {
    if id in cache then Some(cache[id]) else None
  }

  predicate Fresh(ttl: int, entry: Option<CacheEntry>, t: int) {
    entry.Some? && t < entry.value.writtenAt + ttl
  }

  predicate Enabled(s: State, a: Action) {
    match a
    case Change(_) => true
    case Begin(c, _) => c !in s.calls
    case Look(c) => c in s.calls && s.calls[c].phase.Started?
    case Decide(c, t) => c in s.calls && s.calls[c].phase.Looked? && s.clock <= t
    case Join(c) => c in s.calls && s.calls[c].phase.Missed?
    case Fetch(c, _) => c in s.calls && s.calls[c].phase.Fetching? && s.versions != []
    case Store(c, t) => c in s.calls && s.calls[c].phase.Read? && s.calls[c].phase.got.Some? && s.clock <= t
    case Finish(c) => c in s.calls && (s.calls[c].phase.Written? || s.calls[c].phase == Read(None))
  }

  function SetPhase(s: State, c: CallId, p: Phase): State
    requires c in s.calls
  {
    s.(calls := s.calls[c := s.calls[c].(phase := p)])
  }

  function FlightResult(p: Phase): Option<Fetched> {
    if p.Written? then Some(p.stored) else None
  }

  /** The end of a flight: the leader and everyone waiting for it get the result. */
  function Land(calls: map<CallId, Call>, leader: CallId, id: TenantId, result: Option<Fetched>): map<CallId, Call> {
    map c | c in calls ::
      if c == leader || (calls[c].id == id && calls[c].phase.Waiting?) then calls[c].(phase := Returned(result))
      else calls[c]
  }

  function Apply(ttl: int, s: State, a: Action): State
    requires Enabled(s, a)
  {
    match a
    case Change(source) => s.(versions := s.versions + [source])
    case Begin(c, id) =>
      var after := set d | d in s.calls && s.calls[d].id == id && s.calls[d].phase.Returned?;
      s.(calls := s.calls[c := Call(id, after, Started)])
    case Look(c) => SetPhase(s, c, Looked(Peek(s.cache, s.calls[c].id)))
    case Decide(c, t) =>
      var entry := s.calls[c].phase.entry;
      SetPhase(s.(clock := t), c, if Fresh(ttl, entry, t) then Returned(Some(entry.value.got)) else Missed)
    case Join(c) =>
      if s.calls[c].id in s.flights then SetPhase(s, c, Waiting)
      else SetPhase(s.(flights := s.flights[s.calls[c].id := c]), c, Fetching)
    case Fetch(c, ok) =>
      var id, now := s.calls[c].id, |s.versions| - 1;
      SetPhase(s, c, Read(if ok && id in s.versions[now] then Some(Fetched(s.versions[now][id], now)) else None))
    case Store(c, t) =>
      var got := s.calls[c].phase.got.value;
      SetPhase(s.(clock := t, cache := s.cache[s.calls[c].id := CacheEntry(got, t)]), c, Written(got))
    case Finish(c) =>
      var id := s.calls[c].id;
      s.(flights := s.flights - {id}, calls := Land(s.calls, c, id, FlightResult(s.calls[c].phase)))
  }

  predicate Runs(ttl: int, s: State, acts: seq<Action>)
    decreases |acts|
  {
    acts == [] || (Enabled(s, acts[0]) && Runs(ttl, Apply(ttl, s, acts[0]), acts[1..]))
  }

  function Run(ttl: int, s: State, acts: seq<Action>): State
    requires Runs(ttl, s, acts)
    decreases |acts|
  {
    if acts == [] then s else Run(ttl, Apply(ttl, s, acts[0]), acts[1..])
  }

  // ---- What every step keeps ----

  /** The value is what the source held for the tenant in that version. */
  predicate Genuine(versions: seq<map<TenantId, Profile>>, id: TenantId, g: Fetched) {
    g.version < |versions| && id in versions[g.version] && g.value == versions[g.version][id]
  }

  predicate Leads(p: Phase) {
    p.Fetching? || p.Read? || p.Written?
  }

  /** The cache already holds something at least as recent for the tenant. */
  predicate Covered(s: State, id: TenantId, g: Fetched) {
    id in s.cache && g.version <= s.cache[id].got.version
  }

  /** Everything returned before the call started is no more recent than g. */
  ghost predicate NotBefore(s: State, call: Call, g: Fetched) {
    forall d :: d in call.after && d in s.calls && s.calls[d].phase.Returned? && s.calls[d].phase.result.Some? ==>
      s.calls[d].phase.result.value.version <= g.version
  }

  /** A genuine value that the cache covers and that nothing returned before surpasses. */
  ghost predicate Usable(s: State, call: Call, g: Fetched) {
    Genuine(s.versions, call.id, g) && Covered(s, call.id, g) && NotBefore(s, call, g)
  }

  ghost predicate PhaseInv(s: State, call: Call) {
    match call.phase
    case Started => true
    case Looked(e) => e.Some? ==> Usable(s, call, e.value.got)
    case Missed => true
    case Fetching => true
    case Read(g) =>
      g.Some? ==>
        && Genuine(s.versions, call.id, g.value)
        && (call.id in s.cache ==> s.cache[call.id].got.version <= g.value.version)
    case Written(g) => Genuine(s.versions, call.id, g) && call.id in s.cache && s.cache[call.id].got == g
    case Waiting => call.id in s.flights
    case Returned(g) => g.Some? ==> Usable(s, call, g.value)
  }

  ghost predicate CallInv(s: State, c: CallId, call: Call) {
    && PhaseInv(s, call)
    && (Leads(call.phase) ==> call.id in s.flights && s.flights[call.id] == c)
    && (forall d :: d in call.after ==> d in s.calls && s.calls[d].id == call.id && s.calls[d].phase.Returned?)
  }

  ghost predicate Inv(s: State) {
    && s.versions != []
    && (forall id :: id in s.cache ==> Genuine(s.versions, id, s.cache[id].got))
    && (forall id :: id in s.flights ==>
          s.flights[id] in s.calls && s.calls[s.flights[id]].id == id && Leads(s.calls[s.flights[id]].phase))
    && (forall c :: c in s.calls ==> CallInv(s, c, s.calls[c]))
  }

  lemma ChangeKeeps(ttl: int, s: State, source: map<TenantId, Profile>)
    requires Inv(s)
    ensures Inv(Apply(ttl, s, Change(source)))
  {
    var s' := Apply(ttl, s, Change(source));
    assert forall id, g :: Genuine(s.versions, id, g) ==> Genuine(s'.versions, id, g);
    forall c | c in s'.calls
      ensures CallInv(s', c, s'.calls[c])
    {
      assert CallInv(s, c, s.calls[c]);
      assert forall g :: NotBefore(s, s.calls[c], g) ==> NotBefore(s', s.calls[c], g);
    }
  }

  lemma BeginKeeps(ttl: int, s: State, c: CallId, id: TenantId)
    requires Inv(s) && Enabled(s, Begin(c, id))
    ensures Inv(Apply(ttl, s, Begin(c, id)))
  {
    var s' := Apply(ttl, s, Begin(c, id));
    forall d | d in s'.calls
      ensures CallInv(s', d, s'.calls[d])
    {
      if d != c {
        assert CallInv(s, d, s.calls[d]);
        assert forall g :: NotBefore(s, s.calls[d], g) ==> NotBefore(s', s.calls[d], g);
      }
    }
  }

  /** A step of call c that leaves every other call, and c's start, as they were. */
  predicate OnlyMoves(s: State, s': State, c: CallId) {
    && c in s.calls && !s.calls[c].phase.Returned?
    && s'.calls.Keys == s.calls.Keys
    && s'.versions == s.versions
    && s'.calls[c].id == s.calls[c].id && s'.calls[c].after == s.calls[c].after
    && (forall d :: d in s.calls && d != c ==> s'.calls[d] == s.calls[d])
  }

  /** The other calls keep their invariant when the cache only becomes more recent. */
  lemma OthersKeep(s: State, s': State, c: CallId, d: CallId)
    requires Inv(s) && OnlyMoves(s, s', c) && d in s.calls && d != c
    requires forall id :: id in s.flights ==> id in s'.flights && s'.flights[id] == s.flights[id]
    requires forall id :: id in s.cache ==> id in s'.cache && s.cache[id].got.version <= s'.cache[id].got.version
    requires forall id :: id in s'.cache && !(id in s.cache && s'.cache[id] == s.cache[id]) ==>
               id == s.calls[c].id && Leads(s.calls[c].phase)
    ensures CallInv(s', d, s'.calls[d])
  {
    var call := s.calls[d];
    assert CallInv(s, d, call);
    assert CallInv(s, c, s.calls[c]);
    assert c !in call.after;
    forall g | NotBefore(s, call, g)
      ensures NotBefore(s', call, g)
    {
      assert forall e :: e in call.after ==> s'.calls[e] == s.calls[e];
    }
  }

  lemma LookKeeps(ttl: int, s: State, c: CallId)
    requires Inv(s) && Enabled(s, Look(c))
    ensures Inv(Apply(ttl, s, Look(c)))
  {
    var s' := Apply(ttl, s, Look(c));
    forall d | d in s'.calls && d != c
      ensures CallInv(s', d, s'.calls[d])
    {
      OthersKeep(s, s', c, d);
    }
    var call := s.calls[c];
    assert CallInv(s, c, call);
    forall d | d in call.after && s.calls[d].phase.result.Some?
      ensures Covered(s, call.id, s.calls[d].phase.result.value)
    {
      assert CallInv(s, d, s.calls[d]);
    }
    assert c !in call.after;
  }

  lemma DecideKeeps(ttl: int, s: State, c: CallId, t: int)
    requires Inv(s) && Enabled(s, Decide(c, t))
    ensures Inv(Apply(ttl, s, Decide(c, t)))
  {
    var s' := Apply(ttl, s, Decide(c, t));
    forall d | d in s'.calls && d != c
      ensures CallInv(s', d, s'.calls[d])
    {
      OthersKeep(s, s', c, d);
    }
    assert CallInv(s, c, s.calls[c]);
    assert c !in s.calls[c].after;
    assert CallInv(s', c, s'.calls[c]);
  }

  lemma JoinKeeps(ttl: int, s: State, c: CallId)
    requires Inv(s) && Enabled(s, Join(c))
    ensures Inv(Apply(ttl, s, Join(c)))
  {
    var s' := Apply(ttl, s, Join(c));
    forall d | d in s'.calls && d != c
      ensures CallInv(s', d, s'.calls[d])
    {
      OthersKeep(s, s', c, d);
    }
    JoinerKeeps(ttl, s, c);
    FlightsLed(s, s', c);
  }

  lemma JoinerKeeps(ttl: int, s: State, c: CallId)
    requires Inv(s) && Enabled(s, Join(c))
    ensures CallInv(Apply(ttl, s, Join(c)), c, Apply(ttl, s, Join(c)).calls[c])
  {
    assert CallInv(s, c, s.calls[c]);
    assert c !in s.calls[c].after;
  }

  /** A step of one call keeps every flight led, if it leads the new ones and goes on leading its own. */
  lemma FlightsLed(s: State, s': State, c: CallId)
    requires Inv(s) && OnlyMoves(s, s', c)
    requires forall id :: id in s'.flights ==>
               (id in s.flights && s'.flights[id] == s.flights[id]) || (id == s.calls[c].id && s'.flights[id] == c)
    requires c in s'.flights.Values || Leads(s.calls[c].phase) ==> Leads(s'.calls[c].phase)
    ensures forall id :: id in s'.flights ==>
              s'.flights[id] in s'.calls && s'.calls[s'.flights[id]].id == id && Leads(s'.calls[s'.flights[id]].phase)
  {
    forall id | id in s'.flights
      ensures s'.flights[id] in s'.calls && s'.calls[s'.flights[id]].id == id
      ensures Leads(s'.calls[s'.flights[id]].phase)
    {
      if s'.flights[id] == c {
        assert c in s'.flights.Values;
      }
    }
  }

  lemma FetchKeeps(ttl: int, s: State, c: CallId, ok: bool)
    requires Inv(s) && Enabled(s, Fetch(c, ok))
    ensures Inv(Apply(ttl, s, Fetch(c, ok)))
  {
    var s' := Apply(ttl, s, Fetch(c, ok));
    forall d | d in s'.calls && d != c
      ensures CallInv(s', d, s'.calls[d])
    {
      OthersKeep(s, s', c, d);
    }
    assert CallInv(s, c, s.calls[c]);
    assert c !in s.calls[c].after;
  }

  lemma StoreKeeps(ttl: int, s: State, c: CallId, t: int)
    requires Inv(s) && Enabled(s, Store(c, t))
    ensures Inv(Apply(ttl, s, Store(c, t)))
  {
    var s' := Apply(ttl, s, Store(c, t));
    StorerKeeps(ttl, s, c, t);
    forall d | d in s'.calls && d != c
      ensures CallInv(s', d, s'.calls[d])
    {
      OthersKeep(s, s', c, d);
    }
    FlightsLed(s, s', c);
  }

  lemma StorerKeeps(ttl: int, s: State, c: CallId, t: int)
    requires Inv(s) && Enabled(s, Store(c, t))
    ensures var s' := Apply(ttl, s, Store(c, t));
            && CallInv(s', c, s'.calls[c])
            && (s.calls[c].id in s.cache ==> s.cache[s.calls[c].id].got.version <= s.calls[c].phase.got.value.version)
            && Genuine(s.versions, s.calls[c].id, s.calls[c].phase.got.value)
  {
    assert CallInv(s, c, s.calls[c]);
    assert c !in s.calls[c].after;
  }

  /** Landing turns the flight's calls into returned ones and leaves the rest. */
  lemma FinishKeeps(ttl: int, s: State, c: CallId)
    requires Inv(s) && Enabled(s, Finish(c))
    ensures Inv(Apply(ttl, s, Finish(c)))
  {
    var s' := Apply(ttl, s, Finish(c));
    assert CallInv(s, c, s.calls[c]);
    forall d | d in s'.calls
      ensures CallInv(s', d, s'.calls[d])
    {
      LandKeeps(ttl, s, c, d);
    }
    forall id | id in s'.flights
      ensures s'.flights[id] in s'.calls && s'.calls[s'.flights[id]].id == id && Leads(s'.calls[s'.flights[id]].phase)
    {
      assert s'.flights[id] == s.flights[id] && id != s.calls[c].id;
    }
  }

  /** Calls that had returned when another started are not touched by a landing. */
  lemma EarlierStay(ttl: int, s: State, c: CallId, d: CallId)
    requires Inv(s) && Enabled(s, Finish(c)) && d in s.calls
    ensures var s' := Apply(ttl, s, Finish(c));
            && (forall e :: e in s.calls[d].after ==> e in s.calls && s'.calls[e] == s.calls[e])
            && (forall g :: NotBefore(s, s.calls[d], g) ==> NotBefore(s', s.calls[d], g))
  {
    var s', call := Apply(ttl, s, Finish(c)), s.calls[d];
    assert CallInv(s, d, call);
    forall e | e in call.after
      ensures e in s.calls && s'.calls[e] == s.calls[e]
    {
      assert s.calls[e].phase.Returned?;
    }
  }

  /** What a flight stored is at least as recent as everything returned before. */
  lemma LandedNotBefore(s: State, c: CallId, d: CallId)
    requires Inv(s) && c in s.calls && d in s.calls && s.calls[c].phase.Written? && s.calls[c].id == s.calls[d].id
    ensures NotBefore(s, s.calls[d], s.calls[c].phase.stored)
  {
    assert CallInv(s, c, s.calls[c]);
    assert CallInv(s, d, s.calls[d]);
    forall e | e in s.calls[d].after && s.calls[e].phase.result.Some?
      ensures s.calls[e].phase.result.value.version <= s.calls[c].phase.stored.version
    {
      assert CallInv(s, e, s.calls[e]);
    }
  }

  lemma LandKeeps(ttl: int, s: State, c: CallId, d: CallId)
    requires Inv(s) && Enabled(s, Finish(c)) && d in s.calls
    ensures CallInv(Apply(ttl, s, Finish(c)), d, Apply(ttl, s, Finish(c)).calls[d])
  {
    var s' := Apply(ttl, s, Finish(c));
    assert CallInv(s, c, s.calls[c]);
    assert CallInv(s, d, s.calls[d]);
    EarlierStay(ttl, s, c, d);
    if s'.calls[d] != s.calls[d] && s.calls[c].phase.Written? {
      LandedNotBefore(s, c, d);
    }
  }

  lemma StepKeeps(ttl: int, s: State, a: Action)
    requires Inv(s) && Enabled(s, a)
    ensures Inv(Apply(ttl, s, a))
  {
    match a
    case Change(source) => ChangeKeeps(ttl, s, source);
    case Begin(c, id) => BeginKeeps(ttl, s, c, id);
    case Look(c) => LookKeeps(ttl, s, c);
    case Decide(c, t) => DecideKeeps(ttl, s, c, t);
    case Join(c) => JoinKeeps(ttl, s, c);
    case Fetch(c, ok) => FetchKeeps(ttl, s, c, ok);
    case Store(c, t) => StoreKeeps(ttl, s, c, t);
    case Finish(c) => FinishKeeps(ttl, s, c);
  }

  lemma {:induction false} RunKeeps(ttl: int, s: State, acts: seq<Action>)
    requires Inv(s) && Runs(ttl, s, acts)
    ensures Inv(Run(ttl, s, acts))
    decreases |acts|
  {
    if acts == [] {
    } else {
      StepKeeps(ttl, s, acts[0]);
      RunKeeps(ttl, Apply(ttl, s, acts[0]), acts[1..]);
    }
  }

  // ---- The properties of every run ----

  /** The first call has returned; the second has not begun, or is for another tenant, or knows of it. */
  predicate Precedes(s: State, first: CallId, returned: Call, second: CallId) {
    && first in s.calls && s.calls[first] == returned && returned.phase.Returned?
    && (second in s.calls && s.calls[second].id == returned.id ==> first in s.calls[second].after)
  }

  lemma {:induction false} StillPrecedes(ttl: int, s: State, acts: seq<Action>,
                                         first: CallId, returned: Call, second: CallId)
    requires Runs(ttl, s, acts) && Precedes(s, first, returned, second)
    ensures Precedes(Run(ttl, s, acts), first, returned, second)
    decreases |acts|
  {
    if acts == [] {
    } else {
      StillPrecedes(ttl, Apply(ttl, s, acts[0]), acts[1..], first, returned, second);
    }
  }

  /** A call that begins after another for the tenant has returned never gets an older version of the source. */
  lemma MonotonicReads(ttl: int, clock: int, source: map<TenantId, Profile>, before: seq<Action>, after: seq<Action>,
                       first: CallId, second: CallId)
    requires Runs(ttl, Init(clock, source), before)
    requires var s := Run(ttl, Init(clock, source), before);
             && first in s.calls && s.calls[first].phase.Returned? && s.calls[first].phase.result.Some?
             && second !in s.calls
             && Runs(ttl, s, after)
    requires var s := Run(ttl, Init(clock, source), before);
             var s' := Run(ttl, s, after);
             && second in s'.calls && s'.calls[second].id == s.calls[first].id
             && s'.calls[second].phase.Returned? && s'.calls[second].phase.result.Some?
    ensures var s := Run(ttl, Init(clock, source), before);
            var s' := Run(ttl, s, after);
            s.calls[first].phase.result.value.version <= s'.calls[second].phase.result.value.version
  {
    var s := Run(ttl, Init(clock, source), before);
    var s' := Run(ttl, s, after);
    RunKeeps(ttl, Init(clock, source), before);
    RunKeeps(ttl, s, after);
    StillPrecedes(ttl, s, after, first, s.calls[first], second);
    assert CallInv(s', second, s'.calls[second]);
  }

  /** Two calls never fetch the same tenant from the source at the same time. */
  lemma OneFetchAtATime(ttl: int, clock: int, source: map<TenantId, Profile>, acts: seq<Action>, c: CallId, d: CallId)
    requires Runs(ttl, Init(clock, source), acts)
    requires var s := Run(ttl, Init(clock, source), acts);
             && c in s.calls && d in s.calls && s.calls[c].id == s.calls[d].id
             && Leads(s.calls[c].phase) && Leads(s.calls[d].phase)
    ensures c == d
  {
    RunKeeps(ttl, Init(clock, source), acts);
    var s := Run(ttl, Init(clock, source), acts);
    assert CallInv(s, c, s.calls[c]);
    assert CallInv(s, d, s.calls[d]);
  }

  /** Whatever is returned or cached is what the source really held in that version. */
  lemma ResultsAreGenuine(ttl: int, clock: int, source: map<TenantId, Profile>, acts: seq<Action>)
    requires Runs(ttl, Init(clock, source), acts)
    ensures var s := Run(ttl, Init(clock, source), acts);
            && (forall c :: c in s.calls && s.calls[c].phase.Returned? && s.calls[c].phase.result.Some? ==>
                  Genuine(s.versions, s.calls[c].id, s.calls[c].phase.result.value))
            && (forall id :: id in s.cache ==> Genuine(s.versions, id, s.cache[id].got))
  {
    RunKeeps(ttl, Init(clock, source), acts);
    var s := Run(ttl, Init(clock, source), acts);
    forall c | c in s.calls && s.calls[c].phase.Returned? && s.calls[c].phase.result.Some?
      ensures Genuine(s.versions, s.calls[c].id, s.calls[c].phase.result.value)
    {
      assert CallInv(s, c, s.calls[c]);
    }
  }

  // ---- Fetches are current ----

  /** The call fetches, or has fetched, nothing older than version n; or its fetch failed. */
  predicate NothingOlder(p: Phase, n: int) {
    match p
    case Fetching => true
    case Read(got) => got.Some? ==> n <= got.value.version
    case Written(g) => n <= g.version
    case Returned(result) => result.Some? ==> n <= result.value.version
    case _ => false
  }

  lemma {:induction false} FetchesNothingOlder(ttl: int, s: State, acts: seq<Action>, c: CallId, n: int)
    requires Runs(ttl, s, acts) && c in s.calls && NothingOlder(s.calls[c].phase, n) && n < |s.versions|
    ensures var s' := Run(ttl, s, acts);
            && c in s'.calls && s'.calls[c].id == s.calls[c].id
            && NothingOlder(s'.calls[c].phase, n) && n < |s'.versions|
    decreases |acts|
  {
    if acts == [] {
    } else {
      FetchesNothingOlder(ttl, Apply(ttl, s, acts[0]), acts[1..], c, n);
    }
  }

  /** From any state in which a call is about to fetch, it returns nothing older than the source is there. */
  lemma FetchIsCurrent(ttl: int, s: State, acts: seq<Action>, c: CallId)
    requires Runs(ttl, s, acts) && c in s.calls && s.calls[c].phase.Fetching?
    ensures var s' := Run(ttl, s, acts);
            && c in s'.calls
            && (s'.calls[c].phase.Returned? && s'.calls[c].phase.result.Some? ==>
                  s'.calls[c].phase.result.value.version >= |s.versions| - 1)
  {
    FetchesNothingOlder(ttl, s, acts, c, |s.versions| - 1);
  }

  predicate NoChange(acts: seq<Action>) {
    forall i :: 0 <= i < |acts| ==> !acts[i].Change?
  }

  lemma {:induction false} VersionsStay(ttl: int, s: State, acts: seq<Action>)
    requires Runs(ttl, s, acts) && NoChange(acts)
    ensures Run(ttl, s, acts).versions == s.versions
    decreases |acts|
  {
    if acts == [] {
    } else {
      VersionsStay(ttl, Apply(ttl, s, acts[0]), acts[1..]);
    }
  }

  /**
   A call that fetches after the source has changed, and before it changes again,
   returns what the source then holds.
   */
  lemma FetchSeesTheChange(ttl: int, clock: int, initial: map<TenantId, Profile>, before: seq<Action>,
                           source: map<TenantId, Profile>, first: seq<Action>, second: seq<Action>, c: CallId)
    requires Runs(ttl, Init(clock, initial), before)
    requires var s := Apply(ttl, Run(ttl, Init(clock, initial), before), Change(source));
             && Runs(ttl, s, first) && NoChange(first)
             && var mid := Run(ttl, s, first);
             && c in mid.calls && mid.calls[c].phase.Fetching?
             && Runs(ttl, mid, second) && NoChange(second)
    ensures var mid := Run(ttl, Apply(ttl, Run(ttl, Init(clock, initial), before), Change(source)), first);
            var s' := Run(ttl, mid, second);
            && c in s'.calls
            && (s'.calls[c].phase.Returned? && s'.calls[c].phase.result.Some? ==>
                  mid.calls[c].id in source && s'.calls[c].phase.result.value.value == source[mid.calls[c].id])
  {
    var s0 := Run(ttl, Init(clock, initial), before);
    var s := Apply(ttl, s0, Change(source));
    var mid := Run(ttl, s, first);
    var s' := Run(ttl, mid, second);
    RunKeeps(ttl, Init(clock, initial), before);
    ChangeKeeps(ttl, s0, source);
    RunKeeps(ttl, s, first);
    RunKeeps(ttl, mid, second);
    VersionsStay(ttl, s, first);
    VersionsStay(ttl, mid, second);
    FetchesNothingOlder(ttl, mid, second, c, |mid.versions| - 1);
    assert CallInv(s', c, s'.calls[c]);
    assert s'.versions[|s'.versions| - 1] == source;
  }

  /** A fetch succeeds exactly when the source answers and knows the tenant, with the value it holds. */
  lemma FetchReadsTheSource(ttl: int, s: State, source: map<TenantId, Profile>, c: CallId, ok: bool)
    requires Enabled(Apply(ttl, s, Change(source)), Fetch(c, ok))
    ensures var s1 := Apply(ttl, s, Change(source));
            var p := Apply(ttl, s1, Fetch(c, ok)).calls[c].phase;
            && p.Read?
            && (p.got.Some? <==> ok && s.calls[c].id in source)
            && (p.got.Some? ==> p.got.value.value == source[s.calls[c].id])
  {
  }

  /**
   When a flight ends, its leader and everyone waiting return the same: what it
   stored, or the error if its fetch failed; nobody else moves, the cache stays
   and the tenant is free for the next flight.
   */
  lemma FlightSharesResult(ttl: int, clock: int, source: map<TenantId, Profile>, acts: seq<Action>, c: CallId)
    requires Runs(ttl, Init(clock, source), acts) && Enabled(Run(ttl, Init(clock, source), acts), Finish(c))
    ensures var s := Run(ttl, Init(clock, source), acts);
            var s', id := Apply(ttl, s, Finish(c)), s.calls[c].id;
            var failed := s.calls[c].phase == Read(None);
            && s'.cache == s.cache && id !in s'.flights && s'.calls.Keys == s.calls.Keys
            && (!failed ==> id in s.cache)
            && (forall d :: d in s.calls ==>
                  if d == c || (s.calls[d].id == id && s.calls[d].phase.Waiting?)
                  then s'.calls[d].phase == Returned(if failed then None else Some(s.cache[id].got))
                  else s'.calls[d] == s.calls[d])
  {
    RunKeeps(ttl, Init(clock, source), acts);
    var s := Run(ttl, Init(clock, source), acts);
    assert CallInv(s, c, s.calls[c]);
  }

  /** A flight whose fetch fails ends in an error for everyone and leaves the cache as it was. */
  lemma FailedFetchLeavesCache(ttl: int, s: State, c: CallId)
    requires c in s.calls && s.calls[c].phase.Fetching? && s.versions != []
    ensures Runs(ttl, s, [Fetch(c, false), Finish(c)])
    ensures var s' := Run(ttl, s, [Fetch(c, false), Finish(c)]);
            && s'.cache == s.cache && s.calls[c].id !in s'.flights
            && c in s'.calls && s'.calls[c].phase == Returned(None)
            && (forall d :: d in s.calls && s.calls[d].id == s.calls[c].id && s.calls[d].phase.Waiting? ==>
                  d in s'.calls && s'.calls[d].phase == Returned(None))
  {
    var acts := [Fetch(c, false), Finish(c)];
    var s1 := Apply(ttl, s, acts[0]);
    RunCons(ttl, s1, Finish(c), []);
    RunCons(ttl, s, Fetch(c, false), [Finish(c)] + []);
    assert acts == [Fetch(c, false)] + ([Finish(c)] + []);
  }

  // ---- Hits are fresh ----

  /** Some flight of this run wrote g into the tenant's cache entry at time w. */
  ghost predicate StoredAt(ttl: int, s: State, acts: seq<Action>, id: TenantId, g: Fetched, w: int)
    requires Runs(ttl, s, acts)
    decreases |acts|
  {
    acts != [] &&
    ((acts[0].Store? && acts[0].t == w && s.calls[acts[0].c].id == id && s.calls[acts[0].c].phase.got == Some(g))
     || StoredAt(ttl, Apply(ttl, s, acts[0]), acts[1..], id, g, w))
  }

  lemma {:induction false} ClockAdvances(ttl: int, s: State, acts: seq<Action>)
    requires Runs(ttl, s, acts)
    ensures s.clock <= Run(ttl, s, acts).clock
    decreases |acts|
  {
    if acts == [] {
    } else {
      ClockAdvances(ttl, Apply(ttl, s, acts[0]), acts[1..]);
    }
  }

  lemma {:induction false} StoredInThePast(ttl: int, s: State, acts: seq<Action>, id: TenantId, g: Fetched, w: int)
    requires Runs(ttl, s, acts) && StoredAt(ttl, s, acts, id, g, w)
    ensures w <= Run(ttl, s, acts).clock
    decreases |acts|
  {
    var s1 := Apply(ttl, s, acts[0]);
    if StoredAt(ttl, s1, acts[1..], id, g, w) {
      StoredInThePast(ttl, s1, acts[1..], id, g, w);
    } else {
      ClockAdvances(ttl, s1, acts[1..]);
    }
  }

  /** A cache entry at the end of a run was there at its start or was stored during it. */
  lemma {:induction false} CachedWasStored(ttl: int, s: State, acts: seq<Action>, id: TenantId)
    requires Runs(ttl, s, acts) && id in Run(ttl, s, acts).cache
    ensures var e := Run(ttl, s, acts).cache[id];
            Peek(s.cache, id) == Some(e) || StoredAt(ttl, s, acts, id, e.got, e.writtenAt)
    decreases |acts|
  {
    if acts == [] {
    } else {
      CachedWasStored(ttl, Apply(ttl, s, acts[0]), acts[1..], id);
    }
  }

  /** The same for an entry that a call has looked up. */
  lemma {:induction false} LookedWasStored(ttl: int, s: State, acts: seq<Action>, c: CallId)
    requires Runs(ttl, s, acts)
    requires c in Run(ttl, s, acts).calls && Run(ttl, s, acts).calls[c].phase.Looked?
    requires Run(ttl, s, acts).calls[c].phase.entry.Some?
    ensures var call := Run(ttl, s, acts).calls[c];
            var e := call.phase.entry.value;
            || (c in s.calls && s.calls[c] == call)
            || Peek(s.cache, call.id) == Some(e)
            || StoredAt(ttl, s, acts, call.id, e.got, e.writtenAt)
    decreases |acts|
  {
    if acts == [] {
    } else {
      var s1 := Apply(ttl, s, acts[0]);
      LookedWasStored(ttl, s1, acts[1..], c);
    }
  }

  /** The state after the first n steps. */
  function At(ttl: int, s: State, acts: seq<Action>, n: nat): State
    requires n <= |acts| && Runs(ttl, s, acts[..n])
  {
    Run(ttl, s, acts[..n])
  }

  lemma {:induction false} Split(ttl: int, s: State, a: seq<Action>, b: seq<Action>)
    requires Runs(ttl, s, a + b)
    ensures Runs(ttl, s, a) && Runs(ttl, Run(ttl, s, a), b) && Run(ttl, s, a + b) == Run(ttl, Run(ttl, s, a), b)
    decreases |a|
  {
    if a == [] {
      assert a + b == b;
    } else {
      assert (a + b)[0] == a[0] && (a + b)[1..] == a[1..] + b;
      Split(ttl, Apply(ttl, s, a[0]), a[1..], b);
    }
  }

  /** In step i of the run the call began a flight, and what it fetched is no older than the source was then. */
  ghost predicate FlightBegan(ttl: int, s: State, acts: seq<Action>, i: nat, c: CallId, version: nat) {
    && i < |acts| && acts[i] == Join(c) && Runs(ttl, s, acts[..i]) && Runs(ttl, s, acts[..i + 1])
    && c in At(ttl, s, acts, i + 1).calls && At(ttl, s, acts, i + 1).calls[c].phase.Fetching?
    && version >= |At(ttl, s, acts, i).versions| - 1
  }

  lemma LastStep(ttl: int, s: State, acts: seq<Action>)
    requires Runs(ttl, s, acts) && acts != []
    ensures var n := |acts| - 1;
            && Runs(ttl, s, acts[..n]) && Enabled(Run(ttl, s, acts[..n]), acts[n])
            && Run(ttl, s, acts) == Apply(ttl, Run(ttl, s, acts[..n]), acts[n])
  {
    var n := |acts| - 1;
    assert acts == acts[..n] + [acts[n]];
    Split(ttl, s, acts[..n], [acts[n]]);
    assert [acts[n]][1..] == [];
  }

  lemma LeaderGoesOn(ttl: int, s: State, a: Action, c: CallId, n: int)
    requires Enabled(s, a) && c in s.calls && NothingOlder(s.calls[c].phase, n) && n < |s.versions|
    ensures var s' := Apply(ttl, s, a);
            c in s'.calls && NothingOlder(s'.calls[c].phase, n) && n < |s'.versions|
  {
  }

  lemma LeaderStarts(ttl: int, s: State, a: Action, c: CallId)
    requires Enabled(s, a) && !(c in s.calls && Leads(s.calls[c].phase))
    requires c in Apply(ttl, s, a).calls && Leads(Apply(ttl, s, a).calls[c].phase)
    ensures a == Join(c) && Apply(ttl, s, a).calls[c].phase.Fetching? && Apply(ttl, s, a).versions == s.versions
  {
  }

  /** A leader began its flight at some step; from there on it has fetched nothing older. */
  lemma {:induction false} LeaderBegan(ttl: int, s: State, acts: seq<Action>, c: CallId) returns (i: nat)
    requires Runs(ttl, s, acts) && s.calls == map[]
    requires c in Run(ttl, s, acts).calls && Leads(Run(ttl, s, acts).calls[c].phase)
    ensures i < |acts| && acts[i] == Join(c) && Runs(ttl, s, acts[..i]) && Runs(ttl, s, acts[..i + 1])
    ensures c in At(ttl, s, acts, i + 1).calls && At(ttl, s, acts, i + 1).calls[c].phase.Fetching?
    ensures var n := |At(ttl, s, acts, i).versions| - 1;
            NothingOlder(Run(ttl, s, acts).calls[c].phase, n) && n < |Run(ttl, s, acts).versions|
    decreases |acts|
  {
    if acts == [] {
      assert false;
    } else {
      LastStep(ttl, s, acts);
      var n := |acts| - 1;
      var front := acts[..n];
      var mid := Run(ttl, s, front);
      if c in mid.calls && Leads(mid.calls[c].phase) {
        i := LeaderBegan(ttl, s, front, c);
        assert front[..i] == acts[..i] && front[..i + 1] == acts[..i + 1];
        LeaderGoesOn(ttl, mid, acts[n], c, |At(ttl, s, acts, i).versions| - 1);
      } else {
        i := n;
        assert acts[..n + 1] == acts;
        LeaderStarts(ttl, mid, acts[n], c);
      }
    }
  }

  /** A flight of this run wrote g into the tenant's entry at time w; g is no older than the source when it began. */
  ghost predicate FlightStored(ttl: int, s: State, acts: seq<Action>, id: TenantId, g: Fetched, w: int) {
    exists c, i: nat, j: nat ::
      && i < j < |acts| && acts[j] == Store(c, w) && FlightBegan(ttl, s, acts, i, c, g.version)
      && Runs(ttl, s, acts[..j]) && c in At(ttl, s, acts, j).calls && At(ttl, s, acts, j).calls[c].id == id
      && At(ttl, s, acts, j).calls[c].phase == Read(Some(g))
  }

  /** The step at which something was stored. */
  lemma {:induction false} StoredStep(ttl: int, s: State, acts: seq<Action>, id: TenantId, g: Fetched, w: int)
    returns (j: nat)
    requires Runs(ttl, s, acts) && StoredAt(ttl, s, acts, id, g, w)
    ensures j < |acts| && acts[j].Store? && acts[j].t == w && Runs(ttl, s, acts[..j])
    ensures var at := At(ttl, s, acts, j); var c := acts[j].c;
            c in at.calls && at.calls[c].id == id && at.calls[c].phase == Read(Some(g))
    decreases |acts|
  {
    var s1 := Apply(ttl, s, acts[0]);
    if StoredAt(ttl, s1, acts[1..], id, g, w) {
      var k := StoredStep(ttl, s1, acts[1..], id, g, w);
      j := k + 1;
      assert acts[..j][1..] == acts[1..][..k];
    } else {
      j := 0;
      assert acts[..0] == [];
    }
  }

  lemma StoredByFlight(ttl: int, s: State, acts: seq<Action>, id: TenantId, g: Fetched, w: int)
    requires Runs(ttl, s, acts) && s.calls == map[] && StoredAt(ttl, s, acts, id, g, w)
    ensures FlightStored(ttl, s, acts, id, g, w)
  {
    var j := StoredStep(ttl, s, acts, id, g, w);
    var c := acts[j].c;
    var i := LeaderBegan(ttl, s, acts[..j], c);
    assert acts[..j][..i] == acts[..i] && acts[..j][..i + 1] == acts[..i + 1];
    assert FlightBegan(ttl, s, acts, i, c, g.version);
  }

  /**
   A hit at time t returns exactly what a flight wrote less than `ttl` before, and
   that is no older than the source was when the flight began.
   */
  lemma HitsAreFresh(ttl: int, clock: int, source: map<TenantId, Profile>, acts: seq<Action>, c: CallId, t: int)
    requires Runs(ttl, Init(clock, source), acts)
    requires var s := Run(ttl, Init(clock, source), acts);
             Enabled(s, Decide(c, t)) && Apply(ttl, s, Decide(c, t)).calls[c].phase.Returned?
    ensures var s := Run(ttl, Init(clock, source), acts);
            var hit := Apply(ttl, s, Decide(c, t)).calls[c];
            exists w :: hit.phase.result.Some? && w <= t < w + ttl &&
              FlightStored(ttl, Init(clock, source), acts, hit.id, hit.phase.result.value, w)
  {
    var s := Run(ttl, Init(clock, source), acts);
    var e := s.calls[c].phase.entry.value;
    LookedWasStored(ttl, Init(clock, source), acts, c);
    StoredInThePast(ttl, Init(clock, source), acts, s.calls[c].id, e.got, e.writtenAt);
    StoredByFlight(ttl, Init(clock, source), acts, s.calls[c].id, e.got, e.writtenAt);
  }

  // ---- When a fetch is redundant ----

  /** The entry a call looked up stays with it, and it missed because that entry had expired by then. */
  predicate Remembers(ttl: int, s: State, c: CallId, id: TenantId, entry: Option<CacheEntry>) {
    && c in s.calls && s.calls[c].id == id
    && !s.calls[c].phase.Started?
    && (s.calls[c].phase.Looked? ==> s.calls[c].phase.entry == entry)
    && (s.calls[c].phase.Missed? ==> !Fresh(ttl, entry, s.clock))
  }

  lemma {:induction false} StillRemembers(ttl: int, s: State, acts: seq<Action>, c: CallId, id: TenantId,
                                          entry: Option<CacheEntry>)
    requires Runs(ttl, s, acts) && Remembers(ttl, s, c, id, entry)
    ensures Remembers(ttl, Run(ttl, s, acts), c, id, entry)
    decreases |acts|
  {
    if acts == [] {
    } else {
      StillRemembers(ttl, Apply(ttl, s, acts[0]), acts[1..], c, id, entry);
    }
  }

  /** An entry is only ever replaced by a later one. */
  lemma {:induction false} EntryIsReplacedByLater(ttl: int, s: State, acts: seq<Action>, id: TenantId, w: int)
    requires Runs(ttl, s, acts) && id in s.cache && w <= s.cache[id].writtenAt && w <= s.clock
    ensures var s' := Run(ttl, s, acts); id in s'.cache && w <= s'.cache[id].writtenAt
    decreases |acts|
  {
    if acts == [] {
    } else {
      EntryIsReplacedByLater(ttl, Apply(ttl, s, acts[0]), acts[1..], id, w);
    }
  }

  /** After a store, the entry is that one or a later one. */
  lemma {:induction false} StoredIsCached(ttl: int, s: State, acts: seq<Action>, id: TenantId, g: Fetched, w: int)
    requires Runs(ttl, s, acts) && StoredAt(ttl, s, acts, id, g, w)
    ensures var s' := Run(ttl, s, acts); id in s'.cache && w <= s'.cache[id].writtenAt
    decreases |acts|
  {
    var s1 := Apply(ttl, s, acts[0]);
    if StoredAt(ttl, s1, acts[1..], id, g, w) {
      StoredIsCached(ttl, s1, acts[1..], id, g, w);
    } else {
      EntryIsReplacedByLater(ttl, s1, acts[1..], id, w);
    }
  }

  /** A flight wrote the tenant's entry during this run, less than `ttl` before its end. */
  ghost predicate StoredLately(ttl: int, s: State, acts: seq<Action>, id: TenantId)
    requires Runs(ttl, s, acts)
  {
    exists g, w :: StoredAt(ttl, s, acts, id, g, w) && Run(ttl, s, acts).clock < w + ttl
  }

  /**
   From any state: a call that looks up its entry, misses and is about to join
   has a usable entry in the cache exactly when a flight wrote one since that
   lookup, less than `ttl` ago. Joining then starts a redundant fetch exactly
   when moreover no flight of the tenant is running.
   */
  lemma RedundantFetch(ttl: int, before: State, c: CallId, acts: seq<Action>)
    requires Enabled(before, Look(c)) && Runs(ttl, Apply(ttl, before, Look(c)), acts)
    requires Enabled(Run(ttl, Apply(ttl, before, Look(c)), acts), Join(c))
    ensures var s := Apply(ttl, before, Look(c));
            var s' := Run(ttl, s, acts);
            var id := before.calls[c].id;
            && (Fresh(ttl, Peek(s'.cache, id), s'.clock) <==> StoredLately(ttl, s, acts, id))
            && (Apply(ttl, s', Join(c)).calls[c].phase.Fetching? && Fresh(ttl, Peek(s'.cache, id), s'.clock)
                <==> StoredLately(ttl, s, acts, id) && id !in s'.flights)
  {
    var s := Apply(ttl, before, Look(c));
    var s' := Run(ttl, s, acts);
    var id := before.calls[c].id;
    StillRemembers(ttl, s, acts, c, id, Peek(s.cache, id));
    if Fresh(ttl, Peek(s'.cache, id), s'.clock) {
      CachedWasStored(ttl, s, acts, id);
      var e := s'.cache[id];
      assert StoredAt(ttl, s, acts, id, e.got, e.writtenAt);
    }
    if StoredLately(ttl, s, acts, id) {
      var g, w :| StoredAt(ttl, s, acts, id, g, w) && s'.clock < w + ttl;
      StoredIsCached(ttl, s, acts, id, g, w);
    }
  }

  /** Source reads in a run. */
  function Fetches(acts: seq<Action>): nat {
    if acts == [] then 0 else (if acts[0].Fetch? then 1 else 0) + Fetches(acts[1..])
  }

  lemma RunCons(ttl: int, s: State, a: Action, rest: seq<Action>)
    requires Enabled(s, a) && Runs(ttl, Apply(ttl, s, a), rest)
    ensures Runs(ttl, s, [a] + rest) && Run(ttl, s, [a] + rest) == Run(ttl, Apply(ttl, s, a), rest)
    ensures Fetches([a] + rest) == Fetches(rest) + if a.Fetch? then 1 else 0
  {
    assert ([a] + rest)[1..] == rest;
  }

  lemma {:induction false} RunConcat(ttl: int, s: State, a: seq<Action>, b: seq<Action>)
    requires Runs(ttl, s, a) && Runs(ttl, Run(ttl, s, a), b)
    ensures Runs(ttl, s, a + b) && Run(ttl, s, a + b) == Run(ttl, Run(ttl, s, a), b)
    ensures Fetches(a + b) == Fetches(a) + Fetches(b)
    decreases |a|
  {
    if a == [] {
      assert a + b == b;
    } else {
      RunConcat(ttl, Apply(ttl, s, a[0]), a[1..], b);
      assert a + b == [a[0]] + (a[1..] + b) && a == [a[0]] + a[1..];
      RunCons(ttl, s, a[0], a[1..] + b);
    }
  }

  /** Two calls that both missed, before either has joined a flight. */
  function TwoMisses(p: Profile): State {
    State(0, [map[p.id := p]], map[], map[],
          map[0 := Call(p.id, {}, Missed), 1 := Call(p.id, {}, Missed)])
  }

  lemma ReachTwoMisses(ttl: int, p: Profile) returns (acts: seq<Action>)
    ensures Runs(ttl, Init(0, map[p.id := p]), acts) && Fetches(acts) == 0
    ensures Run(ttl, Init(0, map[p.id := p]), acts) == TwoMisses(p)
  {
    var s0 := Init(0, map[p.id := p]);
    var s1 := Apply(ttl, s0, Begin(0, p.id));
    var s2 := Apply(ttl, s1, Begin(1, p.id));
    var s3 := Apply(ttl, s2, Look(0));
    var s4 := Apply(ttl, s3, Look(1));
    var s5 := Apply(ttl, s4, Decide(0, 0));
    assert s1.calls[0].after == {} && s2.calls[1].after == {};
    assert s2.calls == map[0 := Call(p.id, {}, Started), 1 := Call(p.id, {}, Started)];
    assert s4.calls == map[0 := Call(p.id, {}, Looked(None)), 1 := Call(p.id, {}, Looked(None))];
    assert Apply(ttl, s5, Decide(1, 0)).calls == TwoMisses(p).calls;
    RunCons(ttl, s5, Decide(1, 0), []);
    RunCons(ttl, s4, Decide(0, 0), [Decide(1, 0)] + []);
    var a4 := [Decide(0, 0)] + ([Decide(1, 0)] + []);
    RunCons(ttl, s3, Look(1), a4);
    RunCons(ttl, s2, Look(0), [Look(1)] + a4);
    var a2 := [Look(0)] + ([Look(1)] + a4);
    RunCons(ttl, s1, Begin(1, p.id), a2);
    RunCons(ttl, s0, Begin(0, p.id), [Begin(1, p.id)] + a2);
    acts := [Begin(0, p.id)] + ([Begin(1, p.id)] + a2);
  }

  lemma ReachTwoFetches(ttl: int, p: Profile) returns (acts: seq<Action>)
    requires ttl > 0
    ensures Runs(ttl, TwoMisses(p), acts) && Fetches(acts) == 2
    ensures var s := Run(ttl, TwoMisses(p), acts); Fresh(ttl, Peek(s.cache, p.id), s.clock)
  {
    var s0 := TwoMisses(p);
    var s1 := Apply(ttl, s0, Join(0));
    var s2 := Apply(ttl, s1, Fetch(0, true));
    var s3 := Apply(ttl, s2, Store(0, 0));
    var s4 := Apply(ttl, s3, Finish(0));
    assert s4.calls[1] == s0.calls[1] && s4.flights == map[];
    var s5 := Apply(ttl, s4, Join(1));
    var s6 := Apply(ttl, s5, Fetch(1, true));
    var a4 := [Join(1)] + ([Fetch(1, true)] + []);
    RunCons(ttl, s5, Fetch(1, true), []);
    RunCons(ttl, s4, Join(1), [Fetch(1, true)] + []);
    RunCons(ttl, s3, Finish(0), a4);
    RunCons(ttl, s2, Store(0, 0), [Finish(0)] + a4);
    var a2 := [Store(0, 0)] + ([Finish(0)] + a4);
    RunCons(ttl, s1, Fetch(0, true), a2);
    RunCons(ttl, s0, Join(0), [Fetch(0, true)] + a2);
    acts := [Join(0)] + ([Fetch(0, true)] + a2);
    assert Peek(s6.cache, p.id) == Some(CacheEntry(Fetched(p, 0), 0));
    assert Run(ttl, s0, acts) == s6;
  }

  /**
   Deduplication is not total: the second of two concurrent misses, late to join,
   reads the source again although the entry the first one wrote is still fresh.
   */
  lemma SecondFetchIsPossible(ttl: int, p: Profile)
    requires ttl > 0
    ensures exists acts :: && Runs(ttl, Init(0, map[p.id := p]), acts) && Fetches(acts) == 2
                           && var s := Run(ttl, Init(0, map[p.id := p]), acts); Fresh(ttl, Peek(s.cache, p.id), s.clock)
  {
    var a := ReachTwoMisses(ttl, p);
    var b := ReachTwoFetches(ttl, p);
    RunConcat(ttl, Init(0, map[p.id := p]), a, b);
    assert Runs(ttl, Init(0, map[p.id := p]), a + b);
  }
}
