/** The ban checker as the object each server instance keeps, and the startup snapshot. */
module BanChecker {
  import opened Tenants
  import opened LastWriter
  import M = MemoryStore

  /** What the snapshot of a source finds for these tenants. */
  function SnapshotRecords<R>(source: map<TenantId, M.Row<R>>, ids: seq<TenantId>, at: int): (rs: seq<Record>)
    requires forall id :: id in ids ==> id in source
    ensures |rs| == |ids|
  {
    if ids == [] then []
    else SnapshotRecords(source, ids[..|ids| - 1], at)
         + [Record(ids[|ids| - 1], source[ids[|ids| - 1]].state == Banned, at)]
  }

  lemma SnapshotNext<R>(source: map<TenantId, M.Row<R>>, ids: seq<TenantId>, n: nat, at: int, entries: Entries)
    requires n < |ids| && forall i :: 0 <= i <= n ==> ids[i] in source
    ensures MergeAll(entries, SnapshotRecords(source, ids[..n + 1], at))
         == Merge(MergeAll(entries, SnapshotRecords(source, ids[..n], at)),
                  Record(ids[n], source[ids[n]].state == Banned, at))
  {
    assert ids[..n + 1][..n] == ids[..n];
    var rs, r := SnapshotRecords(source, ids[..n], at), Record(ids[n], source[ids[n]].state == Banned, at);
    assert SnapshotRecords(source, ids[..n + 1], at) == rs + [r];
    assert (rs + [r])[..|rs|] == rs;
  }

  class BanChecker {
    var banned: Entries

    constructor ()
      ensures banned == map[]
    {
      banned := map[];
    }

    /** Records information unless something strictly newer is known. */
    method Apply(id: TenantId, isBanned: bool, at: int)
      modifies this
      ensures banned == Merge(old(banned), Record(id, isBanned, at))
    {
      if id in banned {
        var e := banned[id];
        if e.at > at {
          return;
        }
      }
      banned := banned[id := Entry(isBanned, at)];
    }

    method HandleEvent(event: Event)
      modifies this
      ensures banned == Merge(old(banned), Record(event.id, event.state == Banned, event.at))
    {
      Apply(event.id, event.state == Banned, event.at);
    }

    method IsBanned(id: TenantId) returns (b: bool)
      ensures b <==> id in banned && banned[id].banned
    {
      if id !in banned {
        return false;
      }
      return banned[id].banned;
    }

    /** One iteration of the snapshot: asks the source about a tenant and applies its answer. */
    method LoadOne(source: M.MemoryStore, id: TenantId, now: int) returns (known: bool)
      requires source.Valid()
      modifies this
      ensures known <==> id in source.View()
      ensures banned ==
                if known then Merge(old(banned), Record(id, source.View()[id].state == Banned, now)) else old(banned)
    {
      var status, isBanned := source.IsBanned(id);
      if status != M.Done {
        return false;
      }
      Apply(id, isBanned, now);
      return true;
    }

    /** Applies the source's answers in order, and stops at the first tenant it does not know. */
    method LoadInitialBannedList(source: M.MemoryStore, ids: seq<TenantId>, now: int) returns (loaded: nat, ok: bool)
      requires source.Valid()
      modifies this
      ensures loaded <= |ids| && (forall i :: 0 <= i < loaded ==> ids[i] in source.View())
      ensures ok <==> loaded == |ids|
      ensures !ok ==> ids[loaded] !in source.View()
      ensures banned == MergeAll(old(banned), SnapshotRecords(source.View(), ids[..loaded], now))
    {
      ghost var view := source.View();
      loaded := 0;
      while loaded < |ids|
        invariant 0 <= loaded <= |ids| && source.Valid() && source.View() == view
        invariant forall i :: 0 <= i < loaded ==> ids[i] in view
        invariant banned == MergeAll(old(banned), SnapshotRecords(view, ids[..loaded], now))
      {
        var known := LoadOne(source, ids[loaded], now);
        if !known {
          return loaded, false;
        }
        SnapshotNext(view, ids, loaded, now, old(banned));
        loaded := loaded + 1;
      }
      return loaded, true;
    }
  }

  /** What a snapshot leaves: anything newer stays, otherwise the source's answer. */
  function SnapshotEntry<R>(entries: Entries, source: map<TenantId, M.Row<R>>, ids: seq<TenantId>, at: int,
                            id: TenantId): Option<Entry>
    requires forall x :: x in ids ==> x in source
  {
    if id in entries && (id !in ids || entries[id].at > at) then Some(entries[id])
    else if id in ids then Some(Entry(source[id].state == Banned, at))
    else None
  }

  function Known(entries: Entries, id: TenantId): Option<Entry> {
    if id in entries then Some(entries[id]) else None
  }

  /** One more tenant of a snapshot. */
  lemma SnapshotStep<R>(entries: Entries, mid: Entries, source: map<TenantId, M.Row<R>>,
                        front: seq<TenantId>, last: TenantId, at: int, id: TenantId)
    requires last in source && forall x :: x in front ==> x in source
    requires forall x :: Known(mid, x) == SnapshotEntry(entries, source, front, at, x)
    ensures forall x :: x in front + [last] ==> x in source
    ensures Known(Merge(mid, Record(last, source[last].state == Banned, at)), id)
         == SnapshotEntry(entries, source, front + [last], at, id)
  {
    assert id in front + [last] <==> id in front || id == last;
    assert Known(mid, id) == SnapshotEntry(entries, source, front, at, id);
    assert Known(mid, last) == SnapshotEntry(entries, source, front, at, last);
  }

  /** A snapshot never displaces anything newer, and otherwise leaves the source's answer. */
  lemma {:induction false} SnapshotEffect<R>(entries: Entries, source: map<TenantId, M.Row<R>>, ids: seq<TenantId>,
                                             at: int)
    requires forall x :: x in ids ==> x in source
    ensures forall id :: Known(MergeAll(entries, SnapshotRecords(source, ids, at)), id)
                      == SnapshotEntry(entries, source, ids, at, id)
  {
    if ids == [] {
    } else {
      var n := |ids| - 1;
      var front, last := ids[..n], ids[n];
      assert ids == front + [last] && last in ids;
      assert forall x :: x in front ==> x in ids;
      SnapshotEffect(entries, source, front, at);
      var mid := MergeAll(entries, SnapshotRecords(source, front, at));
      SnapshotNext(source, ids, n, at, entries);
      assert ids[..n + 1] == ids;
      forall id
        ensures Known(MergeAll(entries, SnapshotRecords(source, ids, at)), id)
             == SnapshotEntry(entries, source, ids, at, id)
      {
        SnapshotStep(entries, mid, source, front, last, at, id);
      }
    }
  }
}
