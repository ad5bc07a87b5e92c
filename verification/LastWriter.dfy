/**
 The ban checker's rule for competing information: a record replaces what is
 known about its tenant unless that is strictly newer.
 */
module LastWriter {
  import opened Tenants

  datatype Entry = Entry(banned: bool, at: int)

  /** What `apply` is called with, from an event or from the startup snapshot. */
  datatype Record = Record(id: TenantId, banned: bool, at: int)

  type Entries = map<TenantId, Entry>

  /** What is known about the record's tenant is strictly newer than the record. */
  predicate Stale(entries: Entries, r: Record) {
    r.id in entries && entries[r.id].at > r.at
  }

  function Write(entries: Entries, r: Record): Entries {
    entries[r.id := Entry(r.banned, r.at)]
  }

  /** One whole `apply`, load and store together. */
  function Merge(entries: Entries, r: Record): Entries {
    if Stale(entries, r) then entries else Write(entries, r)
  }

  function MergeAll(entries: Entries, rs: seq<Record>): Entries {
    if rs == [] then entries else Merge(MergeAll(entries, rs[..|rs| - 1]), rs[|rs| - 1])
  }

  predicate Lookup(entries: Entries, id: TenantId) {
    id in entries && entries[id].banned
  }

  // ---- The two halves of an apply ----

  /** `writing` holds the records that passed their load and have not stored yet. */
  datatype Cells = Cells(entries: Entries, writing: multiset<Record>)

  function LoadCells(c: Cells, r: Record): Cells {
    if Stale(c.entries, r) then c else c.(writing := c.writing + multiset{r})
  }

  function StoreCells(c: Cells, r: Record): Cells {
    Cells(Write(c.entries, r), c.writing - multiset{r})
  }

  /** No apply of this tenant is between its load and its store. */
  predicate Alone(c: Cells, id: TenantId) {
    forall w :: w in c.writing ==> w.id != id
  }

  /** At most one record of the tenant is being written, and it is not stale. */
  ghost predicate Exclusive(c: Cells, id: TenantId) {
    && (forall w :: w in c.writing && w.id == id ==> c.writing[w] == 1 && !Stale(c.entries, w))
    && (forall w, v :: w in c.writing && v in c.writing && w.id == v.id == id ==> w == v)
  }

  // ---- Sequences of whole applies ----

  /** Position i holds the tenant's greatest timestamp, and the last arrival of it. */
  predicate Wins(rs: seq<Record>, id: TenantId, i: nat) {
    && i < |rs| && rs[i].id == id
    && (forall j :: 0 <= j < |rs| && rs[j].id == id ==> rs[j].at <= rs[i].at)
    && (forall j :: i < j < |rs| && rs[j].id == id ==> rs[j].at < rs[i].at)
  }

  /** One more record: it wins its tenant unless the previous winner is strictly newer. */
  lemma WinsSnoc(front: seq<Record>, r: Record, id: TenantId, i: nat)
    requires Wins(front, id, i)
    ensures if r.id == id && front[i].at <= r.at then Wins(front + [r], id, |front|) else Wins(front + [r], id, i)
  {
  }

  lemma FirstWins(front: seq<Record>, r: Record)
    requires forall i :: 0 <= i < |front| ==> front[i].id != r.id
    ensures Wins(front + [r], r.id, |front|)
  {
  }

  /** After any sequence of applies a tenant's entry is its winning record, and no other tenant has one. */
  lemma {:induction false} MergeAllKeepsWinner(rs: seq<Record>, id: TenantId)
    ensures id in MergeAll(map[], rs) <==> exists i :: 0 <= i < |rs| && rs[i].id == id
    ensures id in MergeAll(map[], rs) ==>
              exists i: nat :: Wins(rs, id, i) && MergeAll(map[], rs)[id] == Entry(rs[i].banned, rs[i].at)
  {
    if rs == [] {
    } else {
      var n := |rs| - 1;
      var front, r := rs[..n], rs[n];
      assert rs == front + [r];
      MergeAllKeepsWinner(front, id);
      if id in MergeAll(map[], front) {
        var i: nat :| Wins(front, id, i) && MergeAll(map[], front)[id] == Entry(front[i].banned, front[i].at);
        WinsSnoc(front, r, id, i);
        assert rs[i].id == id;
      } else {
        assert forall i :: 0 <= i < n ==> front[i].id != id;
        if r.id == id {
          FirstWins(front, r);
          assert rs[n].id == id;
        }
      }
    }
  }

  /** What a checker answers after any applies: the winning record's word, and no for a tenant that none names. */
  lemma LookupMeaning(rs: seq<Record>, id: TenantId)
    ensures Lookup(MergeAll(map[], rs), id) <==> exists i: nat :: Wins(rs, id, i) && rs[i].banned
    ensures (forall i :: 0 <= i < |rs| ==> rs[i].id != id) ==> !Lookup(MergeAll(map[], rs), id)
  {
    MergeAllKeepsWinner(rs, id);
    forall i: nat, j: nat | Wins(rs, id, i) && Wins(rs, id, j)
      ensures i == j
    {
    }
  }

  predicate Newest(rs: seq<Record>, r: Record) {
    r in rs && forall o :: o in rs && o.id == r.id ==> o.at <= r.at
  }

  /** Records that tie for the newest of a tenant say the same. */
  ghost predicate NewestAgree(rs: seq<Record>) {
    forall r, o :: Newest(rs, r) && Newest(rs, o) && r.id == o.id ==> r.banned == o.banned
  }

  /** Every delivery order of the same records leads to the same entries. */
  ghost predicate OrderIrrelevant(rs: seq<Record>) {
    forall other :: multiset(other) == multiset(rs) ==> MergeAll(map[], other) == MergeAll(map[], rs)
  }

  /** Delivery order is irrelevant exactly when tied newest records agree. */
  lemma DeliveryOrder(rs: seq<Record>)
    ensures OrderIrrelevant(rs) <==> NewestAgree(rs)
  {
    if NewestAgree(rs) {
      forall other | multiset(other) == multiset(rs)
        ensures MergeAll(map[], other) == MergeAll(map[], rs)
      {
        SameEntries(rs, other);
      }
    }
    if OrderIrrelevant(rs) {
      forall r, o | Newest(rs, r) && Newest(rs, o) && r.id == o.id
        ensures r.banned == o.banned
      {
        LastNewestWins(rs, r);
        LastNewestWins(rs, o);
      }
    }
  }

  /** The entry of a tenant is a newest record of it. */
  lemma EntryIsNewest(rs: seq<Record>, id: TenantId)
    ensures id in MergeAll(map[], rs) <==> exists r :: r in rs && r.id == id
    ensures id in MergeAll(map[], rs) ==>
              var e := MergeAll(map[], rs)[id]; Newest(rs, Record(id, e.banned, e.at))
  {
    MergeAllKeepsWinner(rs, id);
    if id in MergeAll(map[], rs) {
      var i: nat :| Wins(rs, id, i) && MergeAll(map[], rs)[id] == Entry(rs[i].banned, rs[i].at);
      assert rs[i] in rs;
    }
  }

  lemma SameMembers(rs: seq<Record>, other: seq<Record>)
    requires multiset(other) == multiset(rs)
    ensures forall r :: r in rs <==> r in other
    ensures forall r :: Newest(rs, r) <==> Newest(other, r)
  {
    forall r
      ensures r in rs <==> r in other
    {
      assert r in rs <==> r in multiset(rs);
      assert r in other <==> r in multiset(other);
    }
  }

  lemma SameEntries(rs: seq<Record>, other: seq<Record>)
    requires multiset(other) == multiset(rs) && NewestAgree(rs)
    ensures MergeAll(map[], other) == MergeAll(map[], rs)
  {
    SameMembers(rs, other);
    forall id
      ensures id in MergeAll(map[], other) <==> id in MergeAll(map[], rs)
      ensures id in MergeAll(map[], rs) ==> MergeAll(map[], other)[id] == MergeAll(map[], rs)[id]
    {
      EntryIsNewest(rs, id);
      EntryIsNewest(other, id);
    }
  }

  function MoveLast(rs: seq<Record>, i: nat): (moved: seq<Record>)
    requires i < |rs|
    ensures multiset(moved) == multiset(rs)
  {
    assert rs == rs[..i] + [rs[i]] + rs[i + 1..];
    rs[..i] + rs[i + 1..] + [rs[i]]
  }

  /** A newest record that arrives last is the one that stays. */
  lemma LastNewestWins(rs: seq<Record>, r: Record)
    requires Newest(rs, r) && OrderIrrelevant(rs)
    ensures r.id in MergeAll(map[], rs)
    ensures MergeAll(map[], rs)[r.id] == Entry(r.banned, r.at)
  {
    var i :| 0 <= i < |rs| && rs[i] == r;
    var moved := MoveLast(rs, i);
    SameMembers(rs, moved);
    var n := |moved| - 1;
    EntryIsNewest(moved[..n], r.id);
    assert !Stale(MergeAll(map[], moved[..n]), r);
    assert MergeAll(map[], moved) == Write(MergeAll(map[], moved[..n]), r);
  }
}
