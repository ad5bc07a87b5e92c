/**
 The fixed-window limiter shared by every instance through Redis. The Lua script
 is one atomic step on the server's counters. Times are nanoseconds since the
 zero time that windows are aligned to; a key expires once its TTL has elapsed.
 */
module RateLimiter {
  import opened Tenants
  import opened RateLimitKeys
  import opened Division

  const MILLISECOND: int := 1_000_000
  /** The Unix epoch, counted from the zero time. */
  const UNIX_EPOCH: int := 62_135_596_800_000_000_000

  datatype Counter = Counter(count: nat, expireAt: int)
  type Server = map<string, Counter>

  datatype Plan = Plan(limit: int, window: int)
  type Plans = TenantId -> Plan

  datatype FailurePolicy = FailOpen | FailClosed

  /** What happens to the command: answered, never executed, or executed with its reply lost. */
  datatype Fault = Healthy | Unreachable | ReplyLost

  /** One `Allow` call of some instance. */
  datatype Request = Request(id: TenantId, now: int, policy: FailurePolicy, fault: Fault)

  function WindowStart(now: int, window: int): int {
    if window <= 0 then now else now - now % window
  }

  /** Whole milliseconds of a duration, truncated toward zero. */
  function Milliseconds(d: int): int {
    if d >= 0 then d / MILLISECOND else -((-d) / MILLISECOND)
  }

  function Max(a: int, b: int): int {
    if a >= b then a else b
  }

  function Min(a: int, b: int): int {
    if a <= b then a else b
  }

  function LiveCount(server: Server, key: string, now: int): nat {
    if key in server && now < server[key].expireAt then server[key].count else 0
  }

  /** INCR, PEXPIRE on the first increment (which deletes the key if not positive), compare. */
  function Script(server: Server, key: string, now: int, ms: int, limit: int): (Server, bool) {
    var current := LiveCount(server, key, now) + 1;
    var server' :=
      if current > 1 then server[key := server[key].(count := current)]
      else if ms <= 0 then server - {key}
      else server[key := Counter(current, now + ms * MILLISECOND)];
    (server', current <= limit)
  }

  function WindowKey(id: TenantId, now: int, window: int): string {
    Key(id, WindowStart(now, window) - UNIX_EPOCH)
  }

  function Handle(plans: Plans, server: Server, r: Request): (Server, bool) {
    var plan := plans(r.id);
    var run := Script(server, WindowKey(r.id, r.now, plan.window), r.now, Milliseconds(plan.window), plan.limit);
    match r.fault
    case Healthy => run
    case Unreachable => (server, r.policy == FailOpen)
    case ReplyLost => (run.0, r.policy == FailOpen)
  }

  /** The server after a sequence of requests, in the order Redis sees them. */
  function After(plans: Plans, reqs: seq<Request>): Server {
    if reqs == [] then map[] else Handle(plans, After(plans, reqs[..|reqs| - 1]), reqs[|reqs| - 1]).0
  }

  /** Whether the last request of the sequence is allowed. */
  predicate LastAllowed(plans: Plans, reqs: seq<Request>)
    requires reqs != []
  {
    Handle(plans, After(plans, reqs[..|reqs| - 1]), reqs[|reqs| - 1]).1
  }

  class RedisServer {
    var counters: Server

    constructor ()
      ensures counters == map[]
    {
      counters := map[];
    }

    /** The Lua script, statement by statement. */
    method RunScript(key: string, now: int, ms: int, limit: int) returns (allowed: bool)
      modifies this
      ensures (counters, allowed) == Script(old(counters), key, now, ms, limit)
    {
      if key in counters && counters[key].expireAt <= now {
        counters := counters - {key};
      }
      var current := 1;
      if key in counters {
        current := counters[key].count + 1;
        counters := counters[key := counters[key].(count := current)];
      }
      if current == 1 {
        if ms <= 0 {
          counters := counters - {key};
        } else {
          counters := counters[key := Counter(current, now + ms * MILLISECOND)];
        }
      }
      allowed := current <= limit;
      assert counters == Script(old(counters), key, now, ms, limit).0;
    }
  }

  class RedisRateLimiter {
    const server: RedisServer
    const limitFunc: Plans
    const failurePolicy: FailurePolicy

    constructor (server: RedisServer, limitFunc: Plans, failurePolicy: FailurePolicy)
      ensures this.server == server && this.limitFunc == limitFunc && this.failurePolicy == failurePolicy
    {
      this.server, this.limitFunc, this.failurePolicy := server, limitFunc, failurePolicy;
    }

    method Allow(id: TenantId, now: int, fault: Fault) returns (allowed: bool)
      modifies server
      ensures (server.counters, allowed) ==
                Handle(limitFunc, old(server.counters), Request(id, now, failurePolicy, fault))
      ensures fault != Healthy ==> (allowed <==> failurePolicy == FailOpen)
      ensures fault == Unreachable ==> server.counters == old(server.counters)
    {
      var plan := limitFunc(id);
      var key := WindowKey(id, now, plan.window);
      if fault != Unreachable {
        allowed := server.RunScript(key, now, Milliseconds(plan.window), plan.limit);
      }
      if fault != Healthy {
        return failurePolicy == FailOpen;
      }
    }
  }

  // ---- Counting over a sequence of requests ----

  /** The number of the window a request of this tenant falls in. */
  predicate InWindow(plans: Plans, r: Request, id: TenantId, j: int)
    requires plans(id).window > 0
  {
    r.id == id && r.now / plans(id).window == j
  }

  /** Script executions for the tenant in window j. */
  function Ran(plans: Plans, reqs: seq<Request>, id: TenantId, j: int): nat
    requires plans(id).window > 0
  {
    if reqs == [] then 0
    else
      var r := reqs[|reqs| - 1];
      Ran(plans, reqs[..|reqs| - 1], id, j) + if InWindow(plans, r, id, j) && r.fault != Unreachable then 1 else 0
  }

  /** Approvals the script gave the tenant in window j. */
  function Granted(plans: Plans, reqs: seq<Request>, id: TenantId, j: int): nat
    requires plans(id).window > 0
  {
    if reqs == [] then 0
    else
      var r := reqs[|reqs| - 1];
      Granted(plans, reqs[..|reqs| - 1], id, j) +
      if InWindow(plans, r, id, j) && r.fault == Healthy && LastAllowed(plans, reqs) then 1 else 0
  }

  /** Requests of the tenant allowed between two times, both included. */
  function AllowedBetween(plans: Plans, reqs: seq<Request>, id: TenantId, a: int, b: int): nat {
    if reqs == [] then 0
    else
      var r := reqs[|reqs| - 1];
      AllowedBetween(plans, reqs[..|reqs| - 1], id, a, b) +
      if r.id == id && a <= r.now <= b && LastAllowed(plans, reqs) then 1 else 0
  }

  /** Approvals the script gave the tenant between two times, both included. */
  function GrantedBetween(plans: Plans, reqs: seq<Request>, id: TenantId, a: int, b: int): nat {
    if reqs == [] then 0
    else
      var r := reqs[|reqs| - 1];
      GrantedBetween(plans, reqs[..|reqs| - 1], id, a, b) +
      if r.id == id && a <= r.now <= b && r.fault == Healthy && LastAllowed(plans, reqs) then 1 else 0
  }

  /** Failed calls of the tenant between two times that were let through by FailOpen. */
  function FailedOpen(reqs: seq<Request>, id: TenantId, a: int, b: int): nat {
    if reqs == [] then 0
    else
      var r := reqs[|reqs| - 1];
      FailedOpen(reqs[..|reqs| - 1], id, a, b) +
      if r.id == id && a <= r.now <= b && r.fault != Healthy && r.policy == FailOpen then 1 else 0
  }

  predicate AllHealthy(reqs: seq<Request>) {
    forall i :: 0 <= i < |reqs| ==> reqs[i].fault == Healthy
  }

  predicate Chronological(reqs: seq<Request>) {
    forall i, j :: 0 <= i < j < |reqs| ==> reqs[i].now <= reqs[j].now
  }

  // ---- One execution ----

  /**
   What one execution does to the counters: a live one goes up by one and keeps the
   expiry its first request gave it, any other starts at one and lasts the window's
   whole milliseconds from now, if there are any; all other keys stay.
   */
  lemma ScriptEffect(server: Server, key: string, now: int, ms: int, limit: int, other: string)
    ensures var live := key in server && now < server[key].expireAt && server[key].count > 0;
            var server' := Script(server, key, now, ms, limit).0;
            && (live ==>
                  && key in server' && server'[key].count == server[key].count + 1
                  && server'[key].expireAt == server[key].expireAt)
            && (!live && ms > 0 ==> key in server' && server'[key] == Counter(1, now + ms * MILLISECOND))
            && (!live && ms <= 0 ==> key !in server')
            && (other != key ==> (other in server <==> other in server'))
            && (other != key && other in server ==> server'[other] == server[other])
  {
  }

  // ---- The failure policy ----

  /** Whatever came before it, a call that Redis did not answer is allowed exactly under FailOpen. */
  lemma FailurePolicyDecides(plans: Plans, reqs: seq<Request>)
    requires reqs != [] && reqs[|reqs| - 1].fault != Healthy
    ensures LastAllowed(plans, reqs) <==> reqs[|reqs| - 1].policy == FailOpen
  {
  }

  /** What is allowed is what the script approved and what failed open, and nothing else. */
  lemma {:induction false} AllowedSplits(plans: Plans, reqs: seq<Request>, id: TenantId, a: int, b: int)
    ensures AllowedBetween(plans, reqs, id, a, b) ==
              GrantedBetween(plans, reqs, id, a, b) + FailedOpen(reqs, id, a, b)
  {
    if reqs == [] {
    } else {
      AllowedSplits(plans, reqs[..|reqs| - 1], id, a, b);
      if reqs[|reqs| - 1].fault != Healthy {
        FailurePolicyDecides(plans, reqs);
      }
    }
  }

  // ---- The counter of a window ----

  predicate WholeMilliseconds(window: int) {
    window > 0 && window % MILLISECOND == 0
  }

  lemma WindowStartIndex(now: int, window: int)
    requires window > 0
    ensures WindowStart(now, window) == (now / window) * window
    ensures now < (now / window + 1) * window
  {
    DivSplits(now, window);
  }

  /** A window's key is its own: a request shares it exactly when it is the tenant's and in the window. */
  lemma KeyOfWindow(plans: Plans, r: Request, id: TenantId, j: int)
    requires plans(id).window > 0
    ensures WindowKey(r.id, r.now, plans(r.id).window) == Key(id, j * plans(id).window - UNIX_EPOCH)
       <==> InWindow(plans, r, id, j)
  {
    var w := plans(id).window;
    KeyInjective(r.id, WindowStart(r.now, plans(r.id).window) - UNIX_EPOCH, id, j * w - UNIX_EPOCH);
    if r.id == id {
      WindowStartIndex(r.now, w);
      if WindowStart(r.now, w) == j * w {
        DivUnique(r.now, j, r.now % w, w);
      }
    }
  }

  /** The counter of a window holds the executions in it, and outlives the window. */
  predicate Tracks(plans: Plans, server: Server, ran: nat, id: TenantId, j: int)
    requires plans(id).window > 0
  {
    var key := Key(id, j * plans(id).window - UNIX_EPOCH);
    if ran == 0 then key !in server
    else key in server && server[key].count == ran && server[key].expireAt >= (j + 1) * plans(id).window
  }

  lemma MillisecondsExact(window: int)
    requires WholeMilliseconds(window)
    ensures Milliseconds(window) * MILLISECOND == window && Milliseconds(window) > 0
  {
  }

  lemma ScriptTracks(plans: Plans, server: Server, ran: nat, r: Request, id: TenantId, j: int)
    requires WholeMilliseconds(plans(id).window) && Tracks(plans, server, ran, id, j) && InWindow(plans, r, id, j)
    ensures var plan := plans(id);
            var run := Script(server, WindowKey(id, r.now, plan.window), r.now, Milliseconds(plan.window), plan.limit);
            Tracks(plans, run.0, ran + 1, id, j) && (run.1 <==> ran + 1 <= plan.limit)
  {
    var w := plans(id).window;
    KeyOfWindow(plans, r, id, j);
    MillisecondsExact(w);
    WindowStartIndex(r.now, w);
    assert WindowStart(r.now, w) == j * w;
    assert r.now + w >= (j + 1) * w by {
      assert r.now >= j * w;
      assert (j + 1) * w == j * w + w;
    }
  }

  lemma {:induction false} CounterTracks(plans: Plans, reqs: seq<Request>, id: TenantId, j: int)
    requires WholeMilliseconds(plans(id).window)
    ensures Tracks(plans, After(plans, reqs), Ran(plans, reqs, id, j), id, j)
  {
    if reqs == [] {
    } else {
      var front, r := reqs[..|reqs| - 1], reqs[|reqs| - 1];
      CounterTracks(plans, front, id, j);
      if InWindow(plans, r, id, j) {
        ScriptTracks(plans, After(plans, front), Ran(plans, front, id, j), r, id, j);
      } else {
        KeyOfWindow(plans, r, id, j);
      }
    }
  }

  // ---- Exact quota ----

  /** In a window of whole milliseconds the script approves the first `limit` executions and no other. */
  lemma {:induction false} ExactQuota(plans: Plans, reqs: seq<Request>, id: TenantId, j: int)
    requires WholeMilliseconds(plans(id).window)
    ensures Granted(plans, reqs, id, j) <= Min(Ran(plans, reqs, id, j), Max(plans(id).limit, 0))
    ensures AllHealthy(reqs) ==> Granted(plans, reqs, id, j) == Min(Ran(plans, reqs, id, j), Max(plans(id).limit, 0))
  {
    if reqs == [] {
    } else {
      var front, r := reqs[..|reqs| - 1], reqs[|reqs| - 1];
      ExactQuota(plans, front, id, j);
      if InWindow(plans, r, id, j) {
        CounterTracks(plans, front, id, j);
        ScriptTracks(plans, After(plans, front), Ran(plans, front, id, j), r, id, j);
      }
    }
  }

  // ---- The sliding bound ----

  /** The window numbers of the tenant's script approvals, in order. */
  function GrantedWindows(plans: Plans, reqs: seq<Request>, id: TenantId): seq<int>
    requires plans(id).window > 0
  {
    if reqs == [] then []
    else
      var r := reqs[|reqs| - 1];
      GrantedWindows(plans, reqs[..|reqs| - 1], id) +
      if r.id == id && r.fault == Healthy && LastAllowed(plans, reqs) then [r.now / plans(id).window] else []
  }

  lemma {:induction false} GrantedIsCount(plans: Plans, reqs: seq<Request>, id: TenantId, j: int)
    requires plans(id).window > 0
    ensures Granted(plans, reqs, id, j) == CountIn(GrantedWindows(plans, reqs, id), j, 1)
  {
    if reqs == [] {
    } else {
      var r := reqs[|reqs| - 1];
      var front := GrantedWindows(plans, reqs[..|reqs| - 1], id);
      GrantedIsCount(plans, reqs[..|reqs| - 1], id, j);
      if r.id == id && r.fault == Healthy && LastAllowed(plans, reqs) {
        CountSnoc(front, r.now / plans(id).window, j, 1);
      } else {
        assert GrantedWindows(plans, reqs, id) == front;
      }
    }
  }

  /** How many of these numbers lie in the n from lo on. */
  function CountIn(ws: seq<int>, lo: int, n: nat): nat {
    if ws == [] then 0
    else CountIn(ws[..|ws| - 1], lo, n) + if lo <= ws[|ws| - 1] < lo + n then 1 else 0
  }

  lemma CountSnoc(ws: seq<int>, x: int, lo: int, n: nat)
    ensures CountIn(ws + [x], lo, n) == CountIn(ws, lo, n) + if lo <= x < lo + n then 1 else 0
  {
    assert (ws + [x])[..|ws|] == ws;
  }

  lemma {:induction false} CountSplits(ws: seq<int>, lo: int, n: nat)
    ensures CountIn(ws, lo, n + 1) == CountIn(ws, lo, n) + CountIn(ws, lo + n, 1)
  {
    if ws == [] {
    } else {
      CountSplits(ws[..|ws| - 1], lo, n);
    }
  }

  lemma {:induction false} CountBound(ws: seq<int>, lo: int, n: nat, m: nat)
    requires forall j :: CountIn(ws, j, 1) <= m
    ensures CountIn(ws, lo, n) <= n * m
  {
    if n == 0 {
      CountNone(ws, lo);
    } else {
      CountBound(ws, lo, n - 1, m);
      CountSplits(ws, lo, n - 1);
      NextMultiple(n, m);
    }
  }

  lemma {:induction false} CountNone(ws: seq<int>, lo: int)
    ensures CountIn(ws, lo, 0) == 0
  {
    if ws == [] {
    } else {
      CountNone(ws[..|ws| - 1], lo);
    }
  }

  /** The windows from lo on, n of them, cover every time between a and b. */
  predicate Covers(lo: int, n: nat, a: int, b: int, w: int)
    requires w > 0
  {
    forall t :: a <= t <= b ==> lo <= t / w < lo + n
  }

  /** Everything approved between two times was approved in a window they touch. */
  lemma {:induction false} GrantedWithinRange(plans: Plans, reqs: seq<Request>, id: TenantId,
                                              a: int, b: int, lo: int, n: nat)
    requires plans(id).window > 0 && Covers(lo, n, a, b, plans(id).window)
    ensures GrantedBetween(plans, reqs, id, a, b) <= CountIn(GrantedWindows(plans, reqs, id), lo, n)
  {
    if reqs == [] {
    } else {
      var r := reqs[|reqs| - 1];
      var front := GrantedWindows(plans, reqs[..|reqs| - 1], id);
      GrantedWithinRange(plans, reqs[..|reqs| - 1], id, a, b, lo, n);
      if r.id == id && r.fault == Healthy && LastAllowed(plans, reqs) {
        CountSnoc(front, r.now / plans(id).window, lo, n);
      } else {
        assert GrantedWindows(plans, reqs, id) == front;
      }
    }
  }

  /** An interval as long as k windows touches at most k + 1 of them. */
  lemma IntervalWindows(a: int, b: int, k: nat, w: int)
    requires w > 0 && a <= b <= a + k * w
    ensures Covers(a / w, k + 1, a, b, w)
  {
    forall t | a <= t <= b
      ensures a / w <= t / w < a / w + k + 1
    {
      DivMonotone(a, t, w);
      DivMonotone(t, a + k * w, w);
      DivShift(a, k, w);
    }
  }

  /** No window has more script approvals than the limit. */
  lemma WindowsBounded(plans: Plans, reqs: seq<Request>, id: TenantId)
    requires WholeMilliseconds(plans(id).window)
    ensures forall j :: CountIn(GrantedWindows(plans, reqs, id), j, 1) <= Max(plans(id).limit, 0)
  {
    forall j
      ensures CountIn(GrantedWindows(plans, reqs, id), j, 1) <= Max(plans(id).limit, 0)
    {
      GrantedIsCount(plans, reqs, id, j);
      ExactQuota(plans, reqs, id, j);
    }
  }

  /**
   In any interval as long as k windows the script approves at most (k + 1) * limit
   requests of a tenant over all instances; those and the calls that failed open
   are exactly what is allowed.
   */
  lemma SlidingBound(plans: Plans, reqs: seq<Request>, id: TenantId, a: int, b: int, k: nat)
    requires WholeMilliseconds(plans(id).window) && a <= b <= a + k * plans(id).window
    ensures GrantedBetween(plans, reqs, id, a, b) <= (k + 1) * Max(plans(id).limit, 0)
    ensures AllowedBetween(plans, reqs, id, a, b) ==
              GrantedBetween(plans, reqs, id, a, b) + FailedOpen(reqs, id, a, b)
  {
    var lo := a / plans(id).window;
    IntervalWindows(a, b, k, plans(id).window);
    AllowedSplits(plans, reqs, id, a, b);
    GrantedWithinRange(plans, reqs, id, a, b, lo, k + 1);
    WindowsBounded(plans, reqs, id);
    CountBound(GrantedWindows(plans, reqs, id), lo, k + 1, Max(plans(id).limit, 0));
  }

  // ---- For which windows the quota holds ----

  /** Script approvals of the tenant in the window that starts then; a window that is not positive is one instant. */
  function GrantedFrom(plans: Plans, reqs: seq<Request>, id: TenantId, start: int): nat {
    if reqs == [] then 0
    else
      var r := reqs[|reqs| - 1];
      GrantedFrom(plans, reqs[..|reqs| - 1], id, start) +
      if r.id == id && WindowStart(r.now, plans(id).window) == start && r.fault == Healthy && LastAllowed(plans, reqs)
      then 1 else 0
  }

  /** No healthy sequence of requests gets more than the limit out of one window. */
  ghost predicate QuotaKept(plans: Plans, id: TenantId) {
    forall reqs, start :: AllHealthy(reqs) && Chronological(reqs) ==>
      GrantedFrom(plans, reqs, id, start) <= Max(plans(id).limit, 0)
  }

  /** Positive windows start at their multiples. */
  lemma {:induction false} GrantedFromIndex(plans: Plans, reqs: seq<Request>, id: TenantId, start: int)
    requires plans(id).window > 0
    ensures var j := start / plans(id).window;
            GrantedFrom(plans, reqs, id, start) ==
              if start == j * plans(id).window then Granted(plans, reqs, id, j) else 0
  {
    if reqs == [] {
    } else {
      GrantedFromIndex(plans, reqs[..|reqs| - 1], id, start);
      StartIsIndex(reqs[|reqs| - 1].now, start, plans(id).window);
    }
  }

  lemma StartIsIndex(now: int, start: int, w: int)
    requires w > 0
    ensures WindowStart(now, w) == start <==> start == (start / w) * w && now / w == start / w
  {
    WindowStartIndex(now, w);
    if start == (now / w) * w {
      DivUnique(start, now / w, 0, w);
    }
  }

  /** One more healthy request. */
  lemma OneMore(plans: Plans, front: seq<Request>, r: Request, id: TenantId, j: int)
    requires plans(id).window > 0 && r.fault == Healthy && InWindow(plans, r, id, j)
    ensures var outcome := Handle(plans, After(plans, front), r);
            && After(plans, front + [r]) == outcome.0
            && Granted(plans, front + [r], id, j) == Granted(plans, front, id, j) + if outcome.1 then 1 else 0
  {
    var reqs := front + [r];
    assert reqs[..|reqs| - 1] == front && reqs[|reqs| - 1] == r;
  }

  /** The server after n of them; a TTL of zero milliseconds deletes the counter each time. */
  function BurstServer(plans: Plans, id: TenantId, n: nat): Server {
    var ms := Milliseconds(plans(id).window);
    if n == 0 || ms == 0 then map[] else map[WindowKey(id, 0, plans(id).window) := Counter(n, ms * MILLISECOND)]
  }

  lemma BurstStep(plans: Plans, id: TenantId, n: nat)
    requires plans(id).window > 0 && n < plans(id).limit
    ensures Handle(plans, BurstServer(plans, id, n), Request(id, 0, FailClosed, Healthy))
         == (BurstServer(plans, id, n + 1), true)
  {
    ScriptOnFirst(WindowKey(id, 0, plans(id).window), Milliseconds(plans(id).window), plans(id).limit, n);
  }

  lemma ScriptOnFirst(key: string, ms: int, limit: int, n: nat)
    requires 0 <= ms && n < limit
    ensures var before: Server := if n == 0 || ms == 0 then map[] else map[key := Counter(n, ms * MILLISECOND)];
            var after: Server := if ms == 0 then map[] else map[key := Counter(n + 1, ms * MILLISECOND)];
            Script(before, key, 0, ms, limit) == (after, true)
  {
    var before: Server := if n == 0 || ms == 0 then map[] else map[key := Counter(n, ms * MILLISECOND)];
    if ms == 0 {
      assert before - {key} == map[];
    } else {
      assert Script(before, key, 0, ms, limit).0 == map[key := Counter(n + 1, ms * MILLISECOND)];
    }
  }

  /** n requests at time 0 that were all approved, and the server they leave. */
  ghost predicate Burst(plans: Plans, id: TenantId, n: nat, reqs: seq<Request>)
    requires plans(id).window > 0
  {
    && (forall i :: 0 <= i < |reqs| ==> reqs[i] == Request(id, 0, FailClosed, Healthy))
    && Granted(plans, reqs, id, 0) == n
    && After(plans, reqs) == BurstServer(plans, id, n)
  }

  lemma NoBurst(plans: Plans, id: TenantId)
    requires plans(id).window > 0
    ensures Burst(plans, id, 0, [])
  {
  }

  lemma BurstNext(plans: Plans, id: TenantId, n: nat, front: seq<Request>)
    requires plans(id).window > 0 && n < plans(id).limit && Burst(plans, id, n, front)
    ensures Burst(plans, id, n + 1, front + [Request(id, 0, FailClosed, Healthy)])
  {
    var r := Request(id, 0, FailClosed, Healthy);
    BurstStep(plans, id, n);
    InFirstWindow(plans, r, id);
    OneMore(plans, front, r, id, 0);
  }

  /** Requests at time 0 are all approved up to the limit; the TTL drops the fraction of a millisecond. */
  lemma BurstGranted(plans: Plans, id: TenantId, n: nat) returns (reqs: seq<Request>)
    requires plans(id).window > 0 && n <= plans(id).limit
    ensures Burst(plans, id, n, reqs)
  {
    reqs := [];
    NoBurst(plans, id);
    for i := 0 to n
      invariant Burst(plans, id, i, reqs)
    {
      BurstNext(plans, id, i, reqs);
      reqs := reqs + [Request(id, 0, FailClosed, Healthy)];
    }
  }

  /** Once the TTL has elapsed the count starts again. */
  lemma ExpiredRestarts(plans: Plans, id: TenantId, n: nat, r: Request)
    requires plans(id).window > 0 && plans(id).limit > 0
    requires r.id == id && r.fault == Healthy && r.now == Milliseconds(plans(id).window) * MILLISECOND
    ensures Handle(plans, BurstServer(plans, id, n), r).1
  {
    assert LiveCount(BurstServer(plans, id, n), WindowKey(id, r.now, plans(id).window), r.now) == 0;
  }

  lemma FractionIsLost(window: int)
    requires window > 0 && window % MILLISECOND != 0
    ensures 0 <= Milliseconds(window) * MILLISECOND < window
  {
  }

  lemma InFirstWindow(plans: Plans, r: Request, id: TenantId)
    requires r.id == id && 0 <= r.now < plans(id).window
    ensures InWindow(plans, r, id, 0)
  {
    DivUnique(r.now, 0, r.now, plans(id).window);
  }

  /** A last request once the truncated TTL is over, still inside the window, exceeds the limit. */
  lemma FractionLeaks(plans: Plans, id: TenantId) returns (reqs: seq<Request>)
    requires plans(id).window > 0 && plans(id).window % MILLISECOND != 0 && plans(id).limit > 0
    ensures AllHealthy(reqs) && Chronological(reqs) && Granted(plans, reqs, id, 0) == plans(id).limit + 1
  {
    FractionIsLost(plans(id).window);
    var late := Request(id, Milliseconds(plans(id).window) * MILLISECOND, FailClosed, Healthy);
    var burst := BurstGranted(plans, id, plans(id).limit);
    InFirstWindow(plans, late, id);
    OneMore(plans, burst, late, id, 0);
    ExpiredRestarts(plans, id, plans(id).limit, late);
    LateShape(burst, late);
    reqs := burst + [late];
  }

  lemma LateShape(burst: seq<Request>, late: Request)
    requires forall i :: 0 <= i < |burst| ==> burst[i].now == 0 && burst[i].fault == Healthy
    requires late.now >= 0 && late.fault == Healthy
    ensures AllHealthy(burst + [late]) && Chronological(burst + [late])
  {
  }

  // ---- Windows that are not positive ----

  /** Without a positive window no counter of the tenant survives its own script. */
  lemma {:induction false} NoCounterStays(plans: Plans, reqs: seq<Request>, id: TenantId, t: int)
    requires plans(id).window <= 0
    ensures Key(id, t) !in After(plans, reqs)
  {
    if reqs == [] {
    } else {
      var r := reqs[|reqs| - 1];
      NoCounterStays(plans, reqs[..|reqs| - 1], id, t);
      NoCounterStays(plans, reqs[..|reqs| - 1], id, r.now - UNIX_EPOCH);
      KeyInjective(r.id, WindowStart(r.now, plans(r.id).window) - UNIX_EPOCH, id, t);
    }
  }

  /** So there is no quota at all: after any requests, a healthy one is approved exactly when the limit allows any. */
  lemma NoWindowNoQuota(plans: Plans, reqs: seq<Request>, r: Request)
    requires plans(r.id).window <= 0 && r.fault == Healthy
    ensures LastAllowed(plans, reqs + [r]) <==> plans(r.id).limit >= 1
  {
    assert (reqs + [r])[..|reqs|] == reqs;
    NoCounterStays(plans, reqs, r.id, r.now - UNIX_EPOCH);
  }

  lemma OneMoreGranted(plans: Plans, reqs: seq<Request>, r: Request)
    requires plans(r.id).window <= 0 && r.fault == Healthy && plans(r.id).limit >= 1
    ensures GrantedFrom(plans, reqs + [r], r.id, r.now) == GrantedFrom(plans, reqs, r.id, r.now) + 1
  {
    assert (reqs + [r])[..|reqs|] == reqs;
    NoWindowNoQuota(plans, reqs, r);
  }

  /** Any number of requests at one instant are all approved. */
  lemma {:induction false} Unlimited(plans: Plans, id: TenantId, n: nat) returns (reqs: seq<Request>)
    requires plans(id).window <= 0 && plans(id).limit >= 1
    ensures forall i :: 0 <= i < |reqs| ==> reqs[i] == Request(id, 0, FailClosed, Healthy)
    ensures GrantedFrom(plans, reqs, id, 0) == n
  {
    if n == 0 {
      reqs := [];
    } else {
      reqs := Unlimited(plans, id, n - 1);
      OneMoreGranted(plans, reqs, Request(id, 0, FailClosed, Healthy));
      reqs := reqs + [Request(id, 0, FailClosed, Healthy)];
    }
  }

  lemma WholeWindowsKeep(plans: Plans, id: TenantId)
    requires WholeMilliseconds(plans(id).window)
    ensures QuotaKept(plans, id)
  {
    forall reqs, start
      ensures GrantedFrom(plans, reqs, id, start) <= Max(plans(id).limit, 0)
    {
      GrantedFromIndex(plans, reqs, id, start);
      ExactQuota(plans, reqs, id, start / plans(id).window);
    }
  }

  lemma NothingAllowedKeeps(plans: Plans, id: TenantId)
    requires plans(id).limit <= 0
    ensures QuotaKept(plans, id)
  {
    forall reqs, start
      ensures GrantedFrom(plans, reqs, id, start) == 0
    {
      NothingGranted(plans, reqs, id, start);
    }
  }

  lemma OtherWindowsBreak(plans: Plans, id: TenantId) returns (reqs: seq<Request>)
    requires !WholeMilliseconds(plans(id).window) && plans(id).limit >= 1
    ensures AllHealthy(reqs) && Chronological(reqs) && GrantedFrom(plans, reqs, id, 0) == plans(id).limit + 1
  {
    if plans(id).window <= 0 {
      reqs := Unlimited(plans, id, plans(id).limit + 1);
    } else {
      reqs := FractionLeaks(plans, id);
      GrantedFromIndex(plans, reqs, id, 0);
    }
  }

  /**
   For every plan: the quota is enforced exactly for positive windows of whole
   milliseconds, and trivially for limits that allow nothing.
   */
  lemma QuotaCondition(plans: Plans, id: TenantId)
    ensures QuotaKept(plans, id) <==> WholeMilliseconds(plans(id).window) || plans(id).limit <= 0
  {
    if plans(id).limit <= 0 {
      NothingAllowedKeeps(plans, id);
    } else if WholeMilliseconds(plans(id).window) {
      WholeWindowsKeep(plans, id);
    } else {
      var reqs := OtherWindowsBreak(plans, id);
      assert GrantedFrom(plans, reqs, id, 0) > Max(plans(id).limit, 0);
    }
  }

  lemma {:induction false} NothingGranted(plans: Plans, reqs: seq<Request>, id: TenantId, start: int)
    requires plans(id).limit <= 0
    ensures GrantedFrom(plans, reqs, id, start) == 0
  {
    if reqs == [] {
    } else {
      NothingGranted(plans, reqs[..|reqs| - 1], id, start);
    }
  }
}
