/** Which tenant a request's host names, and the cache keys built from it. */
module Resolver {
  import opened Tenants
  import L = RateLimitKeys

  predicate HasSuffix(s: string, suffix: string) {
    |suffix| <= |s| && s[|s| - |suffix|..] == suffix
  }

  /** The host without what follows its first colon. */
  function StripPort(host: string): (h: string)
    ensures ':' !in h
    ensures h == host || (h + ":" <= host)
  {
    if host == [] then []
    else if host[0] == ':' then []
    else [host[0]] + StripPort(host[1..])
  }

  /** The tenant named by the subdomain, as the resolver computes it. */
  function Resolve(host: string, baseDomain: string): Option<TenantId> {
    var h := StripPort(host);
    var suffix := "." + baseDomain;
    if !HasSuffix(h, suffix) then None
    else
      var subdomain := h[..|h| - |suffix|];
      if subdomain == "" || '.' in subdomain then None else Some(subdomain)
  }

  /** A host names a tenant exactly when, before any port, it is a non-empty dot-free label and then the base domain. */
  lemma ResolveMeaning(host: string, baseDomain: string, id: TenantId)
    ensures Resolve(host, baseDomain) == Some(id) <==>
            id != "" && '.' !in id && StripPort(host) == id + "." + baseDomain
  {
    var h, suffix := StripPort(host), "." + baseDomain;
    if HasSuffix(h, suffix) {
      assert h == h[..|h| - |suffix|] + suffix;
    }
    assert id + "." + baseDomain == id + suffix;
    if h == id + suffix {
      assert h[|h| - |suffix|..] == suffix && h[..|h| - |suffix|] == id;
    }
  }

  /** What precedes the first colon is all that counts: any port resolves alike. */
  lemma {:induction false} PortIsIgnored(h: string, port: string)
    requires ':' !in h
    ensures StripPort(h) == h && StripPort(h + ":" + port) == h
  {
    if h == [] {
      assert h + ":" + port == ":" + port;
    } else {
      PortIsIgnored(h[1..], port);
      assert (h + ":" + port)[1..] == h[1..] + ":" + port;
      assert h == [h[0]] + h[1..];
    }
  }

  /** A resolved tenant has a host that resolves to it, with or without a port. */
  lemma ResolveRoundTrip(id: TenantId, baseDomain: string, port: string)
    requires id != "" && '.' !in id && ':' !in id && ':' !in baseDomain
    ensures Resolve(id + "." + baseDomain, baseDomain) == Some(id)
    ensures Resolve(id + "." + baseDomain + ":" + port, baseDomain) == Some(id)
  {
    var h := id + "." + baseDomain;
    assert ':' !in h;
    PortIsIgnored(h, port);
    ResolveMeaning(h, baseDomain, id);
    ResolveMeaning(h + ":" + port, baseDomain, id);
  }

  /** The cache key of a tenant's entry. */
  function Key(id: TenantId, key: string): string {
    "tenant:" + (id + (":" + key))
  }

  lemma SharedKeyPrefix(a: string, x: string, b: string, y: string)
    requires |a| <= |b| && a + (":" + x) == b + (":" + y)
    ensures (a == b && x == y) || (a + ":" <= b && x == b[|a| + 1..] + (":" + y))
  {
    var s := b + (":" + y);
    assert a == s[..|a|] && b == s[..|b|];
    assert s[|a|] == ':' && x == s[|a| + 1..];
    if |a| < |b| {
      assert a + ":" == b[..|a| + 1];
      assert s[|a| + 1..] == b[|a| + 1..] + (":" + y);
    }
  }

  /** One ID, continued by a colon, starts the other, and its application key makes up for the rest. */
  predicate Continues(a: string, x: string, b: string, y: string) {
    a + ":" <= b && x == b[|a| + 1..] + (":" + y)
  }

  /** Exactly which arguments share a cache key, for all IDs and application keys. */
  lemma SameKey(a: TenantId, x: string, b: TenantId, y: string)
    ensures Key(a, x) == Key(b, y) <==> (a == b && x == y) || Continues(a, x, b, y) || Continues(b, y, a, x)
  {
    var p := |"tenant:"|;
    assert Key(a, x)[p..] == a + (":" + x) && Key(b, y)[p..] == b + (":" + y);
    if Key(a, x) == Key(b, y) {
      if |a| <= |b| {
        SharedKeyPrefix(a, x, b, y);
      } else {
        SharedKeyPrefix(b, y, a, x);
      }
    }
    if Continues(a, x, b, y) {
      ContinuedKey(a, x, b, y);
    } else if Continues(b, y, a, x) {
      ContinuedKey(b, y, a, x);
    }
  }

  lemma ContinuedKey(a: string, x: string, b: string, y: string)
    requires Continues(a, x, b, y)
    ensures a + (":" + x) == b + (":" + y)
  {
    assert b == a + ":" + b[|a| + 1..];
  }

  /** Two tenants have a cache key in common exactly when they are one or one ID with a colon starts the other. */
  lemma TenantsShareAKey(a: TenantId, b: TenantId)
    ensures (exists x, y :: Key(a, x) == Key(b, y)) <==> a == b || a + ":" <= b || b + ":" <= a
  {
    if x, y :| Key(a, x) == Key(b, y) {
      SameKey(a, x, b, y);
    }
    if a == b {
      assert Key(a, "") == Key(b, "");
    } else if a + ":" <= b {
      SameKey(a, b[|a| + 1..] + (":" + ""), b, "");
    } else if b + ":" <= a {
      SameKey(a, "", b, a[|b| + 1..] + (":" + ""));
    }
  }

  /** Keys of resolved tenants never collide, whatever hosts and application keys they come from. */
  lemma ResolvedKeysDoNotCollide(hostA: string, baseA: string, hostB: string, baseB: string, keyA: string, keyB: string)
    requires Resolve(hostA, baseA).Some? && Resolve(hostB, baseB).Some?
    ensures Key(Resolve(hostA, baseA).value, keyA) == Key(Resolve(hostB, baseB).value, keyB) <==>
            Resolve(hostA, baseA) == Resolve(hostB, baseB) && keyA == keyB
  {
    var a, b := Resolve(hostA, baseA).value, Resolve(hostB, baseB).value;
    NoColonInResolved(hostA, baseA, b);
    NoColonInResolved(hostB, baseB, a);
    SameKey(a, keyA, b, keyB);
  }

  lemma NoColonInResolved(host: string, baseDomain: string, other: string)
    requires Resolve(host, baseDomain).Some?
    ensures ':' !in Resolve(host, baseDomain).value
    ensures !(other + ":" <= Resolve(host, baseDomain).value)
  {
    var h, suffix := StripPort(host), "." + baseDomain;
    var id := Resolve(host, baseDomain).value;
    assert forall c :: c in id ==> c in h;
    if other + ":" <= id {
      ColonInside(other, id);
    }
  }

  lemma ColonInside(a: string, b: string)
    requires a + ":" <= b
    ensures ':' in b
  {
    assert b[|a|] == ':';
  }

  /** IDs that were not resolved can contain colons, and every such ID collides with what precedes its colon. */
  lemma ColonsCollide(a: TenantId, b: TenantId, y: string)
    ensures Key(a + ":" + b, y) == Key(a, b + (":" + y))
  {
    assert (a + ":" + b)[|a| + 1..] == b;
    assert a + ":" <= a + ":" + b;
    SameKey(a, b + (":" + y), a + ":" + b, y);
  }

  /** What stands in a cache key: the prefix, the tenant, and the application key as it is. */
  lemma KeyText(id: TenantId, key: string)
    ensures "tenant:" + id + ":" <= Key(id, key) && Key(id, key)[|"tenant:" + id + ":"|..] == key
  {
    assert Key(id, key) == ("tenant:" + id + ":") + key;
  }

  /** No cache key is a key of the rate limiter, whatever the tenants. */
  lemma KeyspacesApart(id: TenantId, key: string, other: TenantId, start: int)
    ensures Key(id, key) != L.Key(other, start)
  {
    KeyText(id, key);
    L.KeyText(other, start);
    assert Key(id, key)[0] == 't' && L.Key(other, start)[0] == 'r';
  }
}
