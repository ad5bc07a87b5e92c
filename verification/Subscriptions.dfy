/**
 Subscribe against Stop on the Redis and NATS buses, as interleaved steps of any
 number of calls of each. Closing a subscription is assumed to succeed.
 */
module Subscriptions {
  type SubId = nat

  datatype Kind = Redis | Nats

  /**
   A Subscribe call: connecting, confirmed but not registered, registered but not
   returned, refused but not closed, or returned.
   */
  datatype Phase = Dialing | Confirmed | Registered | Refused | Returned(ok: bool)

  /**
   `waiting` counts the messages that reached the subscription and not yet its
   handler; `receiving` says that something hands them on: on NATS the callback
   given to the connection, on Redis the goroutine that Subscribe starts.
   */
  datatype Sub = Sub(open: bool, waiting: nat, receiving: bool, phase: Phase)

  /** Who holds the mutex: nobody between critical sections, or a Stop that has closed `closed` subscriptions. */
  datatype Lock = Free | Stopping(closed: nat)

  /** `handled` are the subscriptions whose handler has received an event. */
  datatype Bus = Bus(
    kind: Kind,
    subs: map<SubId, Sub>,
    registered: seq<SubId>,
    stopped: bool,
    lock: Lock,
    handled: set<SubId>)

  datatype Action =
    | Dial(p: SubId)
    | Confirm(p: SubId, ok: bool)
    | Enter(p: SubId)
    | Launch(p: SubId)
    | Release(p: SubId)
    | StopEnter
    | StopClose
    | StopLeave
    | Arrive(p: SubId)
    | Handle(p: SubId)

  function NewBus(kind: Kind): Bus {
    Bus(kind, map[], [], false, Free, {})
  }

  predicate Enabled(b: Bus, a: Action) {
    match a
    case Dial(p) => p !in b.subs
    case Confirm(p, _) => p in b.subs && b.subs[p].phase.Dialing?
    case Enter(p) => p in b.subs && b.subs[p].phase.Confirmed? && b.lock.Free?
    case Launch(p) => p in b.subs && b.subs[p].phase.Registered?
    case Release(p) => p in b.subs && b.subs[p].phase.Refused?
    case StopEnter => b.lock.Free?
    case StopClose => b.lock.Stopping? && b.lock.closed < |b.registered| && b.registered[b.lock.closed] in b.subs
    case StopLeave => b.lock.Stopping? && b.lock.closed == |b.registered|
    case Arrive(p) => p in b.subs && b.subs[p].open
    case Handle(p) => p in b.subs && b.subs[p].receiving && b.subs[p].waiting > 0
  }

  function Update(b: Bus, p: SubId, sub: Sub): Bus {
    b.(subs := b.subs[p := sub])
  }

  /**
   A NATS subscription is live as soon as the connection made it; on Redis,
   messages stay with the connection until Subscribe, having registered, starts
   the goroutine that reads them. What has arrived can be handled after a close.
   */
  function Apply(b: Bus, a: Action): Bus
    requires Enabled(b, a)
  {
    match a
    case Dial(p) => Update(b, p, if b.kind.Redis? then Sub(true, 0, false, Dialing) else Sub(true, 0, true, Confirmed))
    case Confirm(p, ok) =>
      Update(b, p, if ok then b.subs[p].(phase := Confirmed) else b.subs[p].(open := false, phase := Returned(false)))
    case Enter(p) =>
      if b.stopped then Update(b, p, b.subs[p].(phase := Refused))
      else Update(b, p, b.subs[p].(phase := Registered)).(registered := b.registered + [p])
    case Launch(p) => Update(b, p, b.subs[p].(receiving := true, phase := Returned(true)))
    case Release(p) => Update(b, p, b.subs[p].(open := false, phase := Returned(false)))
    case StopEnter => b.(stopped := true, lock := Stopping(0))
    case StopClose =>
      var p := b.registered[b.lock.closed];
      Update(b, p, b.subs[p].(open := false)).(lock := Stopping(b.lock.closed + 1))
    case StopLeave => b.(registered := [], lock := Free)
    case Arrive(p) => Update(b, p, b.subs[p].(waiting := b.subs[p].waiting + 1))
    case Handle(p) => Update(b, p, b.subs[p].(waiting := b.subs[p].waiting - 1)).(handled := b.handled + {p})
  }

  predicate Runs(b: Bus, acts: seq<Action>)
    decreases |acts|
  {
    acts == [] || (Enabled(b, acts[0]) && Runs(Apply(b, acts[0]), acts[1..]))
  }

  function Run(b: Bus, acts: seq<Action>): Bus
    requires Runs(b, acts)
    decreases |acts|
  {
    if acts == [] then b else Run(Apply(b, acts[0]), acts[1..])
  }

  // ---- What every step keeps ----

  function Closed(b: Bus): nat {
    if b.lock.Stopping? then b.lock.closed else 0
  }

  /** The part of the list that a running Stop has not closed yet. */
  predicate StillRegistered(b: Bus, p: SubId) {
    Closed(b) <= |b.registered| && p in b.registered[Closed(b)..]
  }

  /** Past the registration: Subscribe will return, or has returned, without an error. */
  predicate Accepted(sub: Sub) {
    sub.phase.Registered? || sub.phase == Returned(true)
  }

  ghost predicate Inv(b: Bus) {
    && Closed(b) <= |b.registered|
    && (b.lock.Stopping? ==> b.stopped)
    && (b.stopped && b.lock.Free? ==> b.registered == [])
    && (forall i :: 0 <= i < |b.registered| ==> b.registered[i] in b.subs && Accepted(b.subs[b.registered[i]]))
    && (forall p :: p in b.subs ==> SubInv(b, p, b.subs[p]))
    && (forall p :: p in b.handled ==> p in b.subs && b.subs[p].receiving)
  }

  /** An open subscription is registered or held by a Subscribe that has not got that far. */
  predicate SubInv(b: Bus, p: SubId, sub: Sub) {
    && (sub.open && (Accepted(sub) || sub.phase.Returned?) ==> StillRegistered(b, p))
    && (sub.phase.Dialing? || sub.phase.Confirmed? || sub.phase.Refused? ==> sub.open)
    && (b.kind.Redis? && sub.receiving ==> sub.phase == Returned(true))
    && (b.kind.Nats? ==> sub.receiving)
  }

  lemma EnterKeeps(b: Bus, p: SubId)
    requires Inv(b) && Enabled(b, Enter(p))
    ensures Inv(Apply(b, Enter(p)))
  {
    var b' := Apply(b, Enter(p));
    if !b.stopped {
      assert p == b'.registered[|b.registered|];
      forall o | o in b.registered
        ensures StillRegistered(b', o)
      {
        var i :| 0 <= i < |b.registered| && b.registered[i] == o;
        assert b'.registered[i] == o;
      }
    }
  }

  lemma StopCloseKeeps(b: Bus)
    requires Inv(b) && Enabled(b, StopClose)
    ensures Inv(Apply(b, StopClose))
  {
    var b' := Apply(b, StopClose);
    var n := b.lock.closed;
    forall p | p in b'.subs && b'.subs[p].open && (Accepted(b'.subs[p]) || b'.subs[p].phase.Returned?)
      ensures StillRegistered(b', p)
    {
      var i :| n <= i < |b.registered| && b.registered[i] == p;
      assert i != n;
      assert b'.registered[n + 1..][i - (n + 1)] == p;
    }
  }

  /** A step of one subscription that unregisters nothing and stops nothing. */
  lemma UpdateKeeps(b: Bus, p: SubId, sub: Sub, handled: set<SubId>)
    requires Inv(b) && SubInv(b, p, sub)
    requires p in b.subs && Accepted(b.subs[p]) ==> Accepted(sub)
    requires b.handled <= handled <= b.handled + {p}
    requires p in handled ==> sub.receiving
    ensures Inv(Update(b, p, sub).(handled := handled))
  {
    var b' := Update(b, p, sub).(handled := handled);
    assert forall o :: StillRegistered(b, o) ==> StillRegistered(b', o);
  }

  lemma SubStepKeeps(b: Bus, a: Action)
    requires Inv(b) && Enabled(b, a)
    requires a.Dial? || a.Confirm? || a.Launch? || a.Release? || a.Arrive? || a.Handle?
    ensures Inv(Apply(b, a))
  {
    var b' := Apply(b, a);
    assert a.p in b.subs ==> SubInv(b, a.p, b.subs[a.p]);
    UpdateKeeps(b, a.p, b'.subs[a.p], b'.handled);
  }

  lemma StopStepKeeps(b: Bus, a: Action)
    requires Inv(b) && Enabled(b, a) && (a.StopEnter? || a.StopLeave?)
    ensures Inv(Apply(b, a))
  {
    var b' := Apply(b, a);
    forall p | p in b'.subs
      ensures SubInv(b', p, b'.subs[p])
    {
      assert SubInv(b, p, b.subs[p]);
    }
  }

  lemma StepKeeps(b: Bus, a: Action)
    requires Inv(b) && Enabled(b, a)
    ensures Inv(Apply(b, a))
  {
    match a
    case Enter(p) => EnterKeeps(b, p);
    case StopClose => StopCloseKeeps(b);
    case StopEnter => StopStepKeeps(b, a);
    case StopLeave => StopStepKeeps(b, a);
    case _ => SubStepKeeps(b, a);
  }

  lemma {:induction false} RunKeeps(b: Bus, acts: seq<Action>)
    requires Inv(b) && Runs(b, acts)
    ensures Inv(Run(b, acts))
    decreases |acts|
  {
    if acts == [] {
    } else {
      StepKeeps(b, acts[0]);
      RunKeeps(Apply(b, acts[0]), acts[1..]);
    }
  }

  // ---- The properties of every run ----

  /** Once Stop has run and every Subscribe has returned, nothing is open. */
  lemma StopIsFinal(kind: Kind, acts: seq<Action>)
    requires Runs(NewBus(kind), acts)
    requires var b := Run(NewBus(kind), acts);
             b.stopped && b.lock.Free? && forall p :: p in b.subs ==> b.subs[p].phase.Returned?
    ensures var b := Run(NewBus(kind), acts);
            forall p :: p in b.subs ==> !b.subs[p].open
  {
    RunKeeps(NewBus(kind), acts);
  }

  /** No step after a completed Stop registers or reopens anything. */
  lemma StepAfterStop(b: Bus, a: Action)
    requires Inv(b) && Enabled(b, a) && b.stopped
    ensures var b' := Apply(b, a);
            && b'.stopped
            && (forall p :: p in b'.subs && Accepted(b'.subs[p]) ==> p in b.subs && Accepted(b.subs[p]))
            && (forall p :: p in b.subs && !b.subs[p].open ==> p in b'.subs && !b'.subs[p].open)
  {
  }

  /** From a Stop on, every Subscribe not yet past its registration is refused, and what is closed stays closed. */
  lemma {:induction false} StoppedForever(b: Bus, acts: seq<Action>)
    requires Inv(b) && Runs(b, acts) && b.stopped
    ensures var b' := Run(b, acts);
            && b'.stopped
            && (forall p :: p in b'.subs && Accepted(b'.subs[p]) ==> p in b.subs && Accepted(b.subs[p]))
            && (forall p :: p in b.subs && !b.subs[p].open ==> p in b'.subs && !b'.subs[p].open)
    decreases |acts|
  {
    if acts == [] {
    } else {
      StepAfterStop(b, acts[0]);
      StepKeeps(b, acts[0]);
      StoppedForever(Apply(b, acts[0]), acts[1..]);
    }
  }

  /** On Redis a handler only ever runs for a subscription that Subscribe accepted. */
  lemma RedisHandlesOnlyAccepted(acts: seq<Action>, p: SubId)
    requires Runs(NewBus(Redis), acts) && p in Run(NewBus(Redis), acts).handled
    ensures var b := Run(NewBus(Redis), acts); p in b.subs && b.subs[p].phase == Returned(true)
  {
    RunKeeps(NewBus(Redis), acts);
    KindStays(NewBus(Redis), acts);
  }

  lemma {:induction false} KindStays(b: Bus, acts: seq<Action>)
    requires Runs(b, acts)
    ensures Run(b, acts).kind == b.kind
    decreases |acts|
  {
    if acts == [] {
    } else {
      KindStays(Apply(b, acts[0]), acts[1..]);
    }
  }

  lemma RunCons(b: Bus, a: Action, rest: seq<Action>)
    requires Enabled(b, a) && Runs(Apply(b, a), rest)
    ensures Runs(b, [a] + rest) && Run(b, [a] + rest) == Run(Apply(b, a), rest)
  {
    assert ([a] + rest)[1..] == rest;
  }

  predicate NoStop(acts: seq<Action>) {
    forall i :: 0 <= i < |acts| ==> !acts[i].StopEnter?
  }

  /** The bus is running and the subscription is on its way to be accepted, or has been. */
  predicate OnItsWay(b: Bus, p: SubId) {
    !b.stopped && p in b.subs && (b.subs[p].phase.Confirmed? || Accepted(b.subs[p]))
  }

  lemma {:induction false} RunningAccepts(b: Bus, acts: seq<Action>, p: SubId)
    requires Runs(b, acts) && NoStop(acts) && OnItsWay(b, p)
    ensures OnItsWay(Run(b, acts), p)
    decreases |acts|
  {
    if acts == [] {
    } else {
      RunningAccepts(Apply(b, acts[0]), acts[1..], p);
    }
  }

  /** The handler received an event and Subscribe returned an error. */
  predicate HandledButRefused(b: Bus, p: SubId) {
    p in b.handled && p in b.subs && b.subs[p].phase == Returned(false)
  }

  /** A stopped bus hands an event to the handler and only then refuses. */
  lemma HandleThenRefuse(b: Bus, p: SubId) returns (acts: seq<Action>)
    requires p in b.subs && b.subs[p].phase.Confirmed? && b.subs[p].open && b.subs[p].receiving
    requires b.stopped && b.lock.Free?
    ensures Runs(b, acts) && NoStop(acts) && HandledButRefused(Run(b, acts), p)
  {
    var b1 := Apply(b, Arrive(p));
    var b2 := Apply(b1, Handle(p));
    var b3 := Apply(b2, Enter(p));
    RunCons(b3, Release(p), []);
    RunCons(b2, Enter(p), [Release(p)] + []);
    RunCons(b1, Handle(p), [Enter(p)] + ([Release(p)] + []));
    RunCons(b, Arrive(p), [Handle(p)] + ([Enter(p)] + ([Release(p)] + [])));
    acts := [Arrive(p)] + ([Handle(p)] + ([Enter(p)] + ([Release(p)] + [])));
  }

  /** A Stop that holds the lock closes what is left, empties the list and frees the lock. */
  lemma {:induction false} FinishStop(b: Bus, p: SubId) returns (acts: seq<Action>)
    requires Inv(b) && b.stopped && p in b.subs && b.subs[p].phase.Confirmed?
    ensures Runs(b, acts) && NoStop(acts)
    ensures var b' := Run(b, acts); b'.lock.Free? && b'.stopped && p in b'.subs && b'.subs[p] == b.subs[p]
    decreases |b.registered| - Closed(b)
  {
    if b.lock.Free? {
      acts := [];
    } else if b.lock.closed == |b.registered| {
      RunCons(b, StopLeave, []);
      acts := [StopLeave] + [];
    } else {
      var b1 := Apply(b, StopClose);
      StopCloseKeeps(b);
      var rest := FinishStop(b1, p);
      RunCons(b, StopClose, rest);
      acts := [StopClose] + rest;
    }
  }

  lemma {:induction false} RunConcat(b: Bus, first: seq<Action>, rest: seq<Action>)
    requires Runs(b, first) && Runs(Run(b, first), rest)
    ensures Runs(b, first + rest) && Run(b, first + rest) == Run(Run(b, first), rest)
    decreases |first|
  {
    if first == [] {
      assert first + rest == rest;
    } else {
      RunConcat(Apply(b, first[0]), first[1..], rest);
      assert first + rest == [first[0]] + (first[1..] + rest);
      RunCons(b, first[0], first[1..] + rest);
    }
  }

  /**
   In every reachable state of a NATS bus, also while a Stop holds the lock, a
   confirmed subscription can still have its handler run and be refused, without
   another Stop, exactly when the bus is stopped.
   */
  lemma NatsHandlesRefused(before: seq<Action>, p: SubId)
    requires Runs(NewBus(Nats), before)
    requires var b := Run(NewBus(Nats), before); p in b.subs && b.subs[p].phase.Confirmed?
    ensures var b := Run(NewBus(Nats), before);
            (exists acts :: Runs(b, acts) && NoStop(acts) && HandledButRefused(Run(b, acts), p)) <==> b.stopped
  {
    RunKeeps(NewBus(Nats), before);
    KindStays(NewBus(Nats), before);
    var b := Run(NewBus(Nats), before);
    if b.stopped {
      var stop := FinishStop(b, p);
      var acts := HandleThenRefuse(Run(b, stop), p);
      RunConcat(b, stop, acts);
      assert NoStop(stop + acts);
    } else if acts :| Runs(b, acts) && NoStop(acts) && HandledButRefused(Run(b, acts), p) {
      RunningAccepts(b, acts, p);
    }
  }

  /** And that state is reachable: a Stop that finds nothing to close, while a Subscribe is on its way. */
  lemma StoppedWhileSubscribing() returns (before: seq<Action>)
    ensures Runs(NewBus(Nats), before)
    ensures var b := Run(NewBus(Nats), before); 0 in b.subs && b.subs[0].phase.Confirmed? && b.lock.Free? && b.stopped
  {
    var b0 := NewBus(Nats);
    var b1 := Apply(b0, Dial(0));
    var b2 := Apply(b1, StopEnter);
    RunCons(b2, StopLeave, []);
    RunCons(b1, StopEnter, [StopLeave] + []);
    RunCons(b0, Dial(0), [StopEnter] + ([StopLeave] + []));
    before := [Dial(0)] + ([StopEnter] + ([StopLeave] + []));
  }

  /** A running bus registers, starts reading and hands on what arrives. */
  lemma RegisterThenHandle(b: Bus, p: SubId) returns (acts: seq<Action>)
    requires p in b.subs && b.subs[p].phase.Confirmed? && b.subs[p].open && !b.stopped && b.lock.Free?
    ensures Runs(b, acts) && NoStop(acts) && p in Run(b, acts).handled
  {
    var b1 := Apply(b, Enter(p));
    var b2 := Apply(b1, Launch(p));
    var b3 := Apply(b2, Arrive(p));
    RunCons(b3, Handle(p), []);
    RunCons(b2, Arrive(p), [Handle(p)] + []);
    RunCons(b1, Launch(p), [Arrive(p)] + ([Handle(p)] + []));
    RunCons(b, Enter(p), [Launch(p)] + ([Arrive(p)] + ([Handle(p)] + [])));
    acts := [Enter(p)] + ([Launch(p)] + ([Arrive(p)] + ([Handle(p)] + [])));
  }

  /**
   In every reachable state of a Redis bus, the handler of a confirmed subscription
   can still receive an event, without a further Stop, exactly when the bus is not
   stopped: an accepted subscription delivers, and a refused one never does.
   */
  lemma RedisHandlesWhileRunning(before: seq<Action>, p: SubId)
    requires Runs(NewBus(Redis), before)
    requires var b := Run(NewBus(Redis), before); p in b.subs && b.subs[p].phase.Confirmed?
    ensures var b := Run(NewBus(Redis), before);
            (exists acts :: Runs(b, acts) && NoStop(acts) && p in Run(b, acts).handled) <==> !b.stopped
  {
    RunKeeps(NewBus(Redis), before);
    KindStays(NewBus(Redis), before);
    var b := Run(NewBus(Redis), before);
    if !b.stopped {
      var acts := RegisterThenHandle(b, p);
    } else if acts :| Runs(b, acts) && NoStop(acts) && p in Run(b, acts).handled {
      RunKeeps(b, acts);
      KindStays(b, acts);
      StoppedForever(b, acts);
    }
  }

  // ---- Messages ----

  function Arrived(acts: seq<Action>, p: SubId): nat {
    if acts == [] then 0 else (if acts[0] == Arrive(p) then 1 else 0) + Arrived(acts[1..], p)
  }

  function Handled(acts: seq<Action>, p: SubId): nat {
    if acts == [] then 0 else (if acts[0] == Handle(p) then 1 else 0) + Handled(acts[1..], p)
  }

  function Waiting(b: Bus, p: SubId): nat {
    if p in b.subs then b.subs[p].waiting else 0
  }

  /** Every message that reached a subscription is handled once or still waiting; none is handled twice. */
  lemma {:induction false} MessagesAccounted(b: Bus, acts: seq<Action>, p: SubId)
    requires Runs(b, acts)
    ensures Waiting(b, p) + Arrived(acts, p) == Waiting(Run(b, acts), p) + Handled(acts, p)
    ensures p in Run(b, acts).handled <==> p in b.handled || Handled(acts, p) > 0
    decreases |acts|
  {
    if acts == [] {
    } else {
      MessagesAccounted(Apply(b, acts[0]), acts[1..], p);
    }
  }

  // ---- The registry object ----

  class Subscription {
    var open: bool

    constructor ()
      ensures open
    {
      open := true;
    }

    method Close()
      modifies this
      ensures !open
    {
      open := false;
    }
  }

  /** The fields behind the mutex, and its two critical sections. */
  class Registry {
    var subs: seq<Subscription>
    var stopped: bool

    constructor ()
      ensures subs == [] && !stopped
    {
      subs, stopped := [], false;
    }

    /** The end of Subscribe: registers an open subscription, or closes it if the bus is stopped. */
    method Register(sub: Subscription) returns (ok: bool)
      requires sub.open
      modifies this, sub
      ensures ok <==> !old(stopped)
      ensures stopped == old(stopped)
      ensures sub.open <==> ok
      ensures subs == if ok then old(subs) + [sub] else old(subs)
    {
      if stopped {
        sub.Close();
        return false;
      }
      subs := subs + [sub];
      return true;
    }

    /** Closes everything registered and refuses whatever comes later. */
    method Stop()
      modifies this, subs
      ensures stopped && subs == []
      ensures forall i :: 0 <= i < |old(subs)| ==> !old(subs)[i].open
    {
      stopped := true;
      var i := 0;
      while i < |subs|
        invariant 0 <= i <= |subs| && stopped && subs == old(subs)
        invariant forall j :: 0 <= j < i ==> !subs[j].open
      {
        subs[i].Close();
        i := i + 1;
      }
      subs := [];
    }
  }
}
