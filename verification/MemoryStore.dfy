/**
 The in-memory store: a map of heap objects that callers must never share. Each
 write copies the caller's object in and each read hands out a copy.
 */
module MemoryStore {
  import opened Tenants

  /**
   The fields of a tenant. A struct copy copies them one by one, and of the roles
   slice only the reference: `R` is what stands for that reference.
   */
  datatype Row<R> = Row(id: TenantId, state: TenantState, roles: R)

  datatype Status = Done | NotFound | AlreadyExists

  class Tenant {
    var id: TenantId
    var state: TenantState
    var roles: array<string>

    constructor (row: Row<array<string>>)
      ensures Value() == row
    {
      id, state, roles := row.id, row.state, row.roles;
    }

    function Value(): Row<array<string>>
      reads this
    {
      Row(id, state, roles)
    }
  }

  class MemoryStore {
    var tenants: map<TenantId, Tenant>

    /** Every stored object carries its key as ID, and no two keys share an object. */
    ghost predicate Valid()
      reads this, tenants.Values
    {
      && (forall id :: id in tenants ==> tenants[id].id == id)
      && (forall a, b :: a in tenants && b in tenants && tenants[a] == tenants[b] ==> a == b)
    }

    /** The store as a plain map of rows. */
    ghost function View(): map<TenantId, Row<array<string>>>
      reads this, tenants.Values
    {
      map id | id in tenants :: tenants[id].Value()
    }

    constructor ()
      ensures Valid() && View() == map[] && tenants == map[]
    {
      tenants := map[];
    }

    method Get(id: TenantId) returns (status: Status, t: Tenant?)
      requires Valid()
      ensures id !in View() ==> status == NotFound && t == null
      ensures id in View() ==> status == Done && t != null && fresh(t) && t.Value() == View()[id]
    {
      if id !in tenants {
        return NotFound, null;
      }
      var copy := new Tenant(tenants[id].Value());
      return Done, copy;
    }

    method IsBanned(id: TenantId) returns (status: Status, banned: bool)
      requires Valid()
      ensures status == if id in View() then Done else NotFound
      ensures banned <==> id in View() && View()[id].state == Banned
    {
      if id !in tenants {
        return NotFound, false;
      }
      return Done, tenants[id].state == Banned;
    }

    method Create(t: Tenant) returns (status: Status)
      requires Valid()
      modifies this
      ensures Valid()
      ensures forall o :: o in tenants.Values ==> o in old(tenants.Values) || fresh(o)
      ensures t.id in old(View()) ==> status == AlreadyExists && View() == old(View())
      ensures t.id !in old(View()) ==> status == Done && View() == old(View())[t.id := t.Value()]
    {
      if t.id in tenants {
        return AlreadyExists;
      }
      Put(t);
      return Done;
    }

    method Update(t: Tenant) returns (status: Status)
      requires Valid()
      modifies this
      ensures Valid()
      ensures forall o :: o in tenants.Values ==> o in old(tenants.Values) || fresh(o)
      ensures t.id !in old(View()) ==> status == NotFound && View() == old(View())
      ensures t.id in old(View()) ==> status == Done && View() == old(View())[t.id := t.Value()]
    {
      if t.id !in tenants {
        return NotFound;
      }
      Put(t);
      return Done;
    }

    /** Stores a copy under the object's own ID. */
    method Put(t: Tenant)
      requires Valid()
      modifies this
      ensures Valid()
      ensures forall o :: o in tenants.Values ==> o in old(tenants.Values) || fresh(o)
      ensures View() == old(View())[t.id := t.Value()]
    {
      var copy := new Tenant(t.Value());
      ghost var before := tenants;
      tenants := tenants[t.id := copy];
      assert forall id :: id in before ==> before[id] in before.Values;
    }

    method SetState(id: TenantId, state: TenantState) returns (status: Status)
      requires Valid()
      modifies tenants.Values
      ensures Valid() && tenants == old(tenants)
      ensures id !in old(View()) ==> status == NotFound && View() == old(View())
      ensures id in old(View()) ==> status == Done && View() == old(View())[id := old(View())[id].(state := state)]
    {
      if id !in tenants {
        return NotFound;
      }
      assert tenants[id] in tenants.Values;
      tenants[id].state := state;
      return Done;
    }
  }

  // ---- Any sequence of operations, with callers changing what they hold ----

  /**
   What a program using the store does; `h` and `from` number the objects the
   callers hold. `SetRole` writes an element of an object's roles slice and
   `ShareRoles` assigns one object's slice to another.
   */
  datatype Op =
    | New(p: Profile)
    | Mutate(h: nat, id: TenantId, state: TenantState)
    | ShareRoles(h: nat, from: nat)
    | SetRole(h: nat, i: nat, role: string)
    | GetOp(id: TenantId)
    | IsBannedOp(id: TenantId)
    | CreateOp(h: nat)
    | UpdateOp(h: nat)
    | SetStateOp(id: TenantId, state: TenantState)

  /** A world of values only: rows in the store and in the callers' hands, and the numbered slices they refer to. */
  datatype World = World(
    store: map<TenantId, Row<nat>>,
    held: seq<Row<nat>>,
    slices: seq<seq<string>>,
    answers: seq<(Status, bool)>)

  function Answer(w: World, status: Status): World {
    w.(answers := w.answers + [(status, false)])
  }

  /** The caller can index that far into the roles of that object. */
  predicate InRange(w: World, h: nat, i: nat) {
    h < |w.held| && w.held[h].roles < |w.slices| && i < |w.slices[w.held[h].roles]|
  }

  function Step(w: World, op: Op): World {
    match op
    case New(p) => w.(held := w.held + [Row(p.id, p.state, |w.slices|)], slices := w.slices + [p.roles])
    case Mutate(h, id, state) =>
      if h < |w.held| then w.(held := w.held[h := w.held[h].(id := id, state := state)]) else w
    case ShareRoles(h, from) =>
      if h < |w.held| && from < |w.held| then w.(held := w.held[h := w.held[h].(roles := w.held[from].roles)]) else w
    case SetRole(h, i, role) =>
      if InRange(w, h, i) then w.(slices := w.slices[w.held[h].roles := w.slices[w.held[h].roles][i := role]]) else w
    case GetOp(id) =>
      if id in w.store then Answer(w.(held := w.held + [w.store[id]]), Done) else Answer(w, NotFound)
    case IsBannedOp(id) =>
      if id in w.store then w.(answers := w.answers + [(Done, w.store[id].state == Banned)]) else Answer(w, NotFound)
    case CreateOp(h) =>
      if h >= |w.held| then w
      else if w.held[h].id in w.store then Answer(w, AlreadyExists)
      else Answer(w.(store := w.store[w.held[h].id := w.held[h]]), Done)
    case UpdateOp(h) =>
      if h >= |w.held| then w
      else if w.held[h].id in w.store then Answer(w.(store := w.store[w.held[h].id := w.held[h]]), Done)
      else Answer(w, NotFound)
    case SetStateOp(id, state) =>
      if id in w.store then Answer(w.(store := w.store[id := w.store[id].(state := state)]), Done)
      else Answer(w, NotFound)
  }

  function Outcome(ops: seq<Op>): World {
    if ops == [] then World(map[], [], [], []) else Step(Outcome(ops[..|ops| - 1]), ops[|ops| - 1])
  }

  /** Each stored ID equals its key, and every row refers to a slice that exists. */
  predicate Sound(w: World) {
    && (forall id :: id in w.store ==> w.store[id].id == id && w.store[id].roles < |w.slices|)
    && (forall h :: 0 <= h < |w.held| ==> w.held[h].roles < |w.slices|)
  }

  lemma StepSound(w: World, op: Op)
    requires Sound(w)
    ensures Sound(Step(w, op))
  {
  }

  /** Whatever the callers do to their objects, each stored ID equals its key. */
  lemma {:induction false} StoredIdIsKey(ops: seq<Op>)
    ensures Sound(Outcome(ops))
  {
    if ops == [] {
    } else {
      StoredIdIsKey(ops[..|ops| - 1]);
      StepSound(Outcome(ops[..|ops| - 1]), ops[|ops| - 1]);
    }
  }

  // ---- What callers can do to the store through the objects they hold ----

  /** Everything the store will answer about its tenants. */
  function Contents(w: World): map<TenantId, Profile>
    requires Sound(w)
  {
    map id | id in w.store :: Profile(id, w.store[id].state, w.slices[w.store[id].roles])
  }

  /** What callers do on their own, without calling the store. */
  predicate Outside(op: Op) {
    op.New? || op.Mutate? || op.ShareRoles? || op.SetRole?
  }

  /** A write of a different role into a slice that a stored tenant shares with the caller's object. */
  ghost predicate Leaks(w: World, op: Op) {
    && op.SetRole? && InRange(w, op.h, op.i)
    && op.role != w.slices[w.held[op.h].roles][op.i]
    && exists id :: id in w.store && w.store[id].roles == w.held[op.h].roles
  }

  /** After any operations, what callers do on their own leaves the store as it was exactly when it does not leak. */
  lemma IsolationCondition(ops: seq<Op>, op: Op)
    requires Outside(op)
    ensures Sound(Outcome(ops)) && Sound(Step(Outcome(ops), op))
    ensures Contents(Step(Outcome(ops), op)) == Contents(Outcome(ops)) <==> !Leaks(Outcome(ops), op)
  {
    StoredIdIsKey(ops);
    StepSound(Outcome(ops), op);
    StepIsolated(Outcome(ops), op);
  }

  lemma StepIsolated(w: World, op: Op)
    requires Sound(w) && Sound(Step(w, op)) && Outside(op)
    ensures Contents(Step(w, op)) == Contents(w) <==> !Leaks(w, op)
  {
    var w' := Step(w, op);
    if op.SetRole? && InRange(w, op.h, op.i) {
      WriteIsolated(w, op.h, op.i, op.role);
    } else {
      assert forall id :: id in w.store ==> w'.slices[w.store[id].roles] == w.slices[w.store[id].roles];
    }
  }

  lemma WriteIsolated(w: World, h: nat, i: nat, role: string)
    requires Sound(w) && InRange(w, h, i) && Sound(Step(w, SetRole(h, i, role)))
    ensures Contents(Step(w, SetRole(h, i, role))) == Contents(w) <==> !Leaks(w, SetRole(h, i, role))
  {
    var w', k := Step(w, SetRole(h, i, role)), w.held[h].roles;
    if id :| id in w.store && w.store[id].roles == k {
      assert Contents(w')[id].roles == Contents(w)[id].roles[i := role];
      if role == w.slices[k][i] {
        assert w'.slices[k] == w.slices[k];
        assert w'.slices == w.slices;
      }
    } else {
      assert forall id :: id in w.store ==> w'.slices[w.store[id].roles] == w.slices[w.store[id].roles];
    }
  }

  /** So whoever gets a tenant can rewrite its stored roles, against the promise of a copy. */
  lemma RolesAreShared(ops: seq<Op>, id: TenantId, i: nat, role: string)
    requires Sound(Outcome(ops)) && id in Outcome(ops).store
    requires i < |Contents(Outcome(ops))[id].roles|
    ensures var w := Outcome(ops);
            var w' := Step(Step(w, GetOp(id)), SetRole(|w.held|, i, role));
            && Sound(w')
            && id in Contents(w') && Contents(w')[id] == Contents(w)[id].(roles := Contents(w)[id].roles[i := role])
  {
    var w := Outcome(ops);
    StepSound(w, GetOp(id));
    StepSound(Step(w, GetOp(id)), SetRole(|w.held|, i, role));
  }

  // ---- The object does what the world of values does ----

  /** The row of an object is the row of the world, with the slices by number. */
  predicate SameRow(row: Row<array<string>>, v: Row<nat>, slices: seq<array<string>>) {
    row.id == v.id && row.state == v.state && v.roles < |slices| && row.roles == slices[v.roles]
  }

  predicate SameRows(rows: map<TenantId, Row<array<string>>>, vs: map<TenantId, Row<nat>>, slices: seq<array<string>>) {
    rows.Keys == vs.Keys && forall id :: id in vs ==> SameRow(rows[id], vs[id], slices)
  }

  /** Rows stay the same when the same row is put under one key. */
  lemma PutRow(rows: map<TenantId, Row<array<string>>>, vs: map<TenantId, Row<nat>>, slices: seq<array<string>>,
               id: TenantId, row: Row<array<string>>, v: Row<nat>)
    requires SameRows(rows, vs, slices) && SameRow(row, v, slices)
    ensures SameRows(rows[id := row], vs[id := v], slices)
  {
  }

  ghost predicate Matches(store: MemoryStore, held: seq<Tenant>, slices: seq<array<string>>, w: World)
    reads store, store.tenants.Values, held, slices
  {
    && store.Valid() && SameRows(store.View(), w.store, slices)
    && |held| == |w.held| && (forall h :: 0 <= h < |held| ==> SameRow(held[h].Value(), w.held[h], slices))
    && |slices| == |w.slices| && (forall k :: 0 <= k < |slices| ==> slices[k][..] == w.slices[k])
    && Separate(store, held, slices)
  }

  /** Callers hold distinct objects, none of them the store's; slices are distinct arrays. */
  ghost predicate Separate(store: MemoryStore, held: seq<Tenant>, slices: seq<array<string>>)
    reads store
  {
    && (forall i, j :: 0 <= i < j < |held| ==> held[i] != held[j])
    && (forall i, j :: 0 <= i < j < |slices| ==> slices[i] != slices[j])
    && (forall h :: 0 <= h < |held| ==> held[h] !in store.tenants.Values)
  }

  /** Callers making and changing their own objects, behind the store's back. */
  method PerformOutside(store: MemoryStore, held: seq<Tenant>, slices: seq<array<string>>, op: Op, ghost w: World)
    returns (held': seq<Tenant>, slices': seq<array<string>>)
    requires Outside(op) && Matches(store, held, slices, w)
    modifies held, slices
    ensures Matches(store, held', slices', Step(w, op)) && Step(w, op).answers == w.answers
    ensures forall h :: 0 <= h < |held'| ==> (h < |held| && held'[h] == held[h]) || fresh(held'[h])
    ensures forall k :: 0 <= k < |slices'| ==> (k < |slices| && slices'[k] == slices[k]) || fresh(slices'[k])
  {
    held', slices' := held, slices;
    match op
    case New(p) => held', slices' := PerformNew(store, held, slices, p, w);
    case Mutate(h, id, state) => PerformMutate(store, held, slices, h, id, state, w);
    case ShareRoles(h, from) => PerformShare(store, held, slices, h, from, w);
    case SetRole(h, i, role) => PerformSetRole(store, held, slices, h, i, role, w);
  }

  method PerformMutate(store: MemoryStore, held: seq<Tenant>, slices: seq<array<string>>,
                       h: nat, id: TenantId, state: TenantState, ghost w: World)
    requires Matches(store, held, slices, w)
    modifies held
    ensures Matches(store, held, slices, Step(w, Mutate(h, id, state)))
  {
    if h < |held| {
      held[h].id, held[h].state := id, state;
      assert forall j :: 0 <= j < |held| && j != h ==> held[j].Value() == old(held[j].Value());
      assert store.View() == old(store.View());
    }
  }

  method PerformShare(store: MemoryStore, held: seq<Tenant>, slices: seq<array<string>>, h: nat, from: nat,
                      ghost w: World)
    requires Matches(store, held, slices, w)
    modifies held
    ensures Matches(store, held, slices, Step(w, ShareRoles(h, from)))
  {
    if h < |held| && from < |held| {
      held[h].roles := held[from].roles;
    }
  }

  method PerformSetRole(store: MemoryStore, held: seq<Tenant>, slices: seq<array<string>>,
                        h: nat, i: nat, role: string, ghost w: World)
    requires Matches(store, held, slices, w)
    modifies slices
    ensures Matches(store, held, slices, Step(w, SetRole(h, i, role)))
  {
    if h < |held| && i < held[h].roles.Length {
      ghost var k := w.held[h].roles;
      held[h].roles[i] := role;
      assert slices[k][..] == w.slices[k][i := role];
      assert forall j :: 0 <= j < |slices| && j != k ==> slices[j][..] == old(slices[j][..]);
    }
  }

  method PerformNew(store: MemoryStore, held: seq<Tenant>, slices: seq<array<string>>, p: Profile, ghost w: World)
    returns (held': seq<Tenant>, slices': seq<array<string>>)
    requires Matches(store, held, slices, w)
    ensures Matches(store, held', slices', Step(w, New(p)))
    ensures forall h :: 0 <= h < |held'| ==> (h < |held| && held'[h] == held[h]) || fresh(held'[h])
    ensures forall k :: 0 <= k < |slices'| ==> (k < |slices| && slices'[k] == slices[k]) || fresh(slices'[k])
  {
    var roles := new string[|p.roles|](i requires 0 <= i < |p.roles| => p.roles[i]);
    var t := new Tenant(Row(p.id, p.state, roles));
    held', slices' := held + [t], slices + [roles];
    assert roles[..] == p.roles;
  }

  method PerformRead(store: MemoryStore, held: seq<Tenant>, slices: seq<array<string>>, op: Op, ghost w: World)
    returns (held': seq<Tenant>, answer: (Status, bool))
    requires op.GetOp? || op.IsBannedOp?
    requires Matches(store, held, slices, w)
    ensures Matches(store, held', slices, Step(w, op)) && Step(w, op).answers == w.answers + [answer]
    ensures forall h :: 0 <= h < |held'| ==> (h < |held| && held'[h] == held[h]) || fresh(held'[h])
  {
    held' := held;
    match op
    case GetOp(id) => held', answer := PerformGet(store, held, slices, id, w);
    case IsBannedOp(id) => answer := PerformIsBanned(store, held, slices, id, w);
  }

  method PerformGet(store: MemoryStore, held: seq<Tenant>, slices: seq<array<string>>, id: TenantId, ghost w: World)
    returns (held': seq<Tenant>, answer: (Status, bool))
    requires Matches(store, held, slices, w)
    ensures Matches(store, held', slices, Step(w, GetOp(id))) && Step(w, GetOp(id)).answers == w.answers + [answer]
    ensures forall h :: 0 <= h < |held'| ==> (h < |held| && held'[h] == held[h]) || fresh(held'[h])
  {
    held' := held;
    var status, t := store.Get(id);
    if t != null {
      held' := held + [t];
    }
    answer := (status, false);
  }

  method PerformIsBanned(store: MemoryStore, held: seq<Tenant>, slices: seq<array<string>>, id: TenantId,
                         ghost w: World)
    returns (answer: (Status, bool))
    requires Matches(store, held, slices, w)
    ensures Matches(store, held, slices, Step(w, IsBannedOp(id)))
    ensures Step(w, IsBannedOp(id)).answers == w.answers + [answer]
  {
    var status, banned := store.IsBanned(id);
    answer := (status, banned);
  }

  method PerformWrite(store: MemoryStore, held: seq<Tenant>, slices: seq<array<string>>, op: Op, ghost w: World)
    returns (answers: seq<(Status, bool)>)
    requires op.CreateOp? || op.UpdateOp? || op.SetStateOp?
    requires Matches(store, held, slices, w)
    modifies store, store.tenants.Values
    ensures Matches(store, held, slices, Step(w, op)) && Step(w, op).answers == w.answers + answers
    ensures forall o :: o in store.tenants.Values ==> o in old(store.tenants.Values) || fresh(o)
  {
    match op
    case CreateOp(h) => answers := PerformCreate(store, held, slices, h, w);
    case UpdateOp(h) => answers := PerformUpdate(store, held, slices, h, w);
    case SetStateOp(id, state) => answers := PerformSetState(store, held, slices, id, state, w);
  }

  method PerformCreate(store: MemoryStore, held: seq<Tenant>, slices: seq<array<string>>, h: nat, ghost w: World)
    returns (answers: seq<(Status, bool)>)
    requires Matches(store, held, slices, w)
    modifies store
    ensures Matches(store, held, slices, Step(w, CreateOp(h))) && Step(w, CreateOp(h)).answers == w.answers + answers
    ensures forall o :: o in store.tenants.Values ==> o in old(store.tenants.Values) || fresh(o)
  {
    if h >= |held| {
      return [];
    }
    PutRow(store.View(), w.store, slices, held[h].id, held[h].Value(), w.held[h]);
    var status := store.Create(held[h]);
    assert forall i :: 0 <= i < |held| ==> held[i].Value() == old(held[i].Value());
    return [(status, false)];
  }

  method PerformUpdate(store: MemoryStore, held: seq<Tenant>, slices: seq<array<string>>, h: nat, ghost w: World)
    returns (answers: seq<(Status, bool)>)
    requires Matches(store, held, slices, w)
    modifies store
    ensures Matches(store, held, slices, Step(w, UpdateOp(h))) && Step(w, UpdateOp(h)).answers == w.answers + answers
    ensures forall o :: o in store.tenants.Values ==> o in old(store.tenants.Values) || fresh(o)
  {
    if h >= |held| {
      return [];
    }
    PutRow(store.View(), w.store, slices, held[h].id, held[h].Value(), w.held[h]);
    var status := store.Update(held[h]);
    assert forall i :: 0 <= i < |held| ==> held[i].Value() == old(held[i].Value());
    return [(status, false)];
  }

  method PerformSetState(store: MemoryStore, held: seq<Tenant>, slices: seq<array<string>>,
                         id: TenantId, state: TenantState, ghost w: World)
    returns (answers: seq<(Status, bool)>)
    requires Matches(store, held, slices, w)
    modifies store.tenants.Values
    ensures Matches(store, held, slices, Step(w, SetStateOp(id, state)))
    ensures Step(w, SetStateOp(id, state)).answers == w.answers + answers
    ensures store.tenants == old(store.tenants)
  {
    if id in w.store {
      ghost var row, v := store.View()[id].(state := state), w.store[id].(state := state);
      PutRow(store.View(), w.store, slices, id, row, v);
    }
    var status := store.SetState(id, state);
    assert forall h :: 0 <= h < |held| ==> held[h].Value() == old(held[h].Value());
    return [(status, false)];
  }

  method Perform(store: MemoryStore, held: seq<Tenant>, slices: seq<array<string>>, op: Op, ghost w: World)
    returns (held': seq<Tenant>, slices': seq<array<string>>, answers: seq<(Status, bool)>)
    requires Matches(store, held, slices, w)
    modifies store, store.tenants.Values, held, slices
    ensures Matches(store, held', slices', Step(w, op)) && Step(w, op).answers == w.answers + answers
    ensures forall o :: o in store.tenants.Values ==> o in old(store.tenants.Values) || fresh(o)
    ensures forall h :: 0 <= h < |held'| ==> (h < |held| && held'[h] == held[h]) || fresh(held'[h])
    ensures forall k :: 0 <= k < |slices'| ==> (k < |slices| && slices'[k] == slices[k]) || fresh(slices'[k])
  {
    held', slices', answers := held, slices, [];
    if Outside(op) {
      held', slices' := PerformOutside(store, held, slices, op, w);
    } else if op.GetOp? || op.IsBannedOp? {
      var answer;
      held', answer := PerformRead(store, held, slices, op, w);
      answers := [answer];
    } else {
      answers := PerformWrite(store, held, slices, op, w);
    }
  }

  /** Through any such sequence the store and its callers behave as the world of values does. */
  method Replay(ops: seq<Op>)
    returns (store: MemoryStore, held: seq<Tenant>, slices: seq<array<string>>, answers: seq<(Status, bool)>)
    ensures Matches(store, held, slices, Outcome(ops)) && answers == Outcome(ops).answers
    ensures forall id :: id in store.tenants ==> store.tenants[id].id == id
  {
    store := new MemoryStore();
    held, slices, answers := [], [], [];
    var i := 0;
    while i < |ops|
      invariant 0 <= i <= |ops|
      invariant Matches(store, held, slices, Outcome(ops[..i])) && answers == Outcome(ops[..i]).answers
      invariant fresh(store) && fresh(store.tenants.Values)
      invariant forall h :: 0 <= h < |held| ==> fresh(held[h])
      invariant forall k :: 0 <= k < |slices| ==> fresh(slices[k])
    {
      assert ops[..i + 1][..i] == ops[..i];
      var more;
      held, slices, more := Perform(store, held, slices, ops[i], Outcome(ops[..i]));
      answers := answers + more;
      i := i + 1;
    }
    assert ops[..i] == ops;
  }
}
