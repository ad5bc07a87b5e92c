/**
 The in-memory retry queue as the mutable object it is: a list of heap entries
 compared by reference, cut, shifted and updated in place.
 */
module RetryQueue {
  import opened Tenants
  import opened Backoff
  import opened RetrySlots

  class PendingEvent {
    const event: Event
    ghost const serial: nat
    var attempts: nat
    var nextAttemptAt: int

    constructor (event: Event, ghost serial: nat, now: int)
      ensures this.event == event && this.serial == serial
      ensures attempts == 0 && nextAttemptAt == now
    {
      this.event := event;
      this.serial := serial;
      this.attempts := 0;
      this.nextAttemptAt := now;
    }

    ghost function View(): Slot
      reads this
    {
      Slot(serial, attempts, nextAttemptAt)
    }
  }

  ghost function Serials(entries: seq<PendingEvent>): seq<nat> {
    seq(|entries|, i requires 0 <= i < |entries| => entries[i].serial)
  }

  function ArrivalTimes(arrivals: seq<(Event, int)>): seq<int> {
    seq(|arrivals|, i requires 0 <= i < |arrivals| => arrivals[i].1)
  }

  ghost function ViewAll(entries: seq<PendingEvent>): seq<Slot>
    reads entries
  {
    seq(|entries|, i requires 0 <= i < |entries| reads entries => entries[i].View())
  }

  class PublishRetryQueue {
    const cfg: Config
    var pending: seq<PendingEvent>
    /** Every entry ever enqueued; an entry's serial number is its index here. */
    ghost var history: seq<PendingEvent>

    /** An entry this queue created: its serial number finds it in the history. */
    ghost predicate Owns(pe: PendingEvent)
      reads this
    {
      pe.serial < |history| && history[pe.serial] == pe
    }

    ghost predicate Valid()
      reads this
    {
      && cfg.maxSize >= 1
      && |pending| <= cfg.maxSize
      && (forall i :: 0 <= i < |history| ==> history[i].serial == i)
      && (forall pe :: pe in pending ==> Owns(pe))
      && (forall i, j :: 0 <= i < j < |pending| ==> pending[i].serial < pending[j].serial)
    }

    /** The list as the values of its entries, in order. */
    ghost function Slots(): (slots: seq<Slot>)
      reads this, pending
    {
      ViewAll(pending)
    }

    constructor (cfg: Config)
      requires cfg.maxSize >= 1
      ensures Valid() && this.cfg == cfg
      ensures pending == [] && history == []
    {
      this.cfg := cfg;
      this.pending := [];
      this.history := [];
    }

    lemma SlotsAscend()
      requires Valid()
      ensures Ascending(Slots())
    {
    }

    /** Appends an entry; a full queue first drops its oldest one. */
    method Enqueue(event: Event, now: int)
      requires Valid()
      modifies this
      ensures Valid()
      ensures |history| == |old(history)| + 1 && history[..|old(history)|] == old(history)
      ensures fresh(history[|old(history)|]) && history[|old(history)|].event == event
      ensures forall pe :: pe in pending ==> pe in old(pending) || pe == history[|old(history)|]
      ensures Slots() == EnqueueSlots(cfg, old(Slots()), |old(history)|, now)
    {
      if |pending| >= cfg.maxSize {
        DropOldest();
      }
      Append(event, now);
    }

    method DropOldest()
      requires Valid() && |pending| > 0
      modifies this`pending
      ensures Valid() && pending == old(pending)[1..]
      ensures Slots() == old(Slots())[1..]
    {
      pending := pending[1..];
      assert forall p :: p in pending ==> p in old(pending);
    }

    method Append(event: Event, now: int)
      requires Valid() && |pending| < cfg.maxSize
      modifies this
      ensures Valid()
      ensures |history| == |old(history)| + 1 && history[..|old(history)|] == old(history)
      ensures fresh(history[|old(history)|]) && history[|old(history)|].event == event
      ensures pending == old(pending) + [history[|old(history)|]]
      ensures Slots() == old(Slots()) + [Slot(|old(history)|, 0, now)]
    {
      var pe := new PendingEvent(event, |history|, now);
      assert forall i :: 0 <= i < |pending| ==> Owns(pending[i]);
      pending := pending + [pe];
      history := history + [pe];
    }

    /** The position of an entry, compared by reference, or -1. */
    method IndexOf(pe: PendingEvent) returns (idx: int)
      ensures -1 <= idx < |pending|
      ensures idx == -1 ==> pe !in pending
      ensures idx >= 0 ==> pending[idx] == pe
    {
      var i := 0;
      while i < |pending|
        invariant 0 <= i <= |pending|
        invariant pe !in pending[..i]
      {
        if pending[i] == pe {
          return i;
        }
        i := i + 1;
      }
      return -1;
    }

    method RemoveAt(i: nat)
      requires Valid() && i < |pending|
      modifies this`pending
      ensures Valid() && history == old(history)
      ensures pending == old(pending)[..i] + old(pending)[i + 1..]
      ensures Slots() == old(Slots())[..i] + old(Slots())[i + 1..]
    {
      pending := pending[..i] + pending[i + 1..];
      assert forall p :: p in pending ==> p in old(pending);
    }

    /** A failed entry with tries left waits for its next, longer, delay. */
    method Reschedule(pe: PendingEvent, ghost i: nat, time: int)
      requires Valid() && i < |pending| && pending[i] == pe
      modifies pe
      ensures Valid()
      ensures Slots() == old(Slots())[i := Slot(pe.serial, old(pe.attempts) + 1,
                                                time + Delay(cfg.baseBackoff, old(pe.attempts) + 1))]
    {
      pe.attempts := pe.attempts + 1;
      pe.nextAttemptAt := time + Delay(cfg.baseBackoff, pe.attempts);
      assert forall j :: 0 <= j < |pending| && j != i ==> pending[j] != pe;
    }

    /** Phase one of a pass: copies out the entries whose next attempt is due. */
    method CollectDue(now: int) returns (due: seq<PendingEvent>)
      requires Valid()
      ensures Serials(due) == DueKeys(Slots(), now)
      ensures forall pe :: pe in due ==> pe in pending
    {
      due := [];
      var i := 0;
      while i < |pending|
        invariant 0 <= i <= |pending|
        invariant Serials(due) == DueKeys(Slots()[..i], now)
        invariant forall pe :: pe in due ==> pe in pending
      {
        assert Slots()[..i + 1] == Slots()[..i] + [pending[i].View()];
        DueSnoc(Slots()[..i], pending[i].View(), now);
        if pending[i].nextAttemptAt <= now {
          due := due + [pending[i]];
        }
        i := i + 1;
      }
      assert Slots()[..i] == Slots();
    }

    /** One iteration of phase three: the outcome of a single due entry. */
    method ApplyResult(pe: PendingEvent, answer: bool, time: int)
      requires Valid() && Owns(pe)
      modifies this`pending, pe
      ensures Valid() && history == old(history)
      ensures forall p :: p in pending ==> p in old(pending)
      ensures Slots() == SettleSlots(cfg, old(Slots()), [pe.serial], [answer], [time])
    {
      ghost var before := Slots();
      ghost var after := SettleSlots(cfg, before, [pe.serial], [answer], [time]);
      SlotsAscend();
      var idx := IndexOf(pe);
      if idx == -1 {
        AbsentIsUntouched(pe, answer, time);
        return;
      }
      SettleInPlace(cfg, before, idx, answer, time);
      if answer {
        assert after == before[..idx] + before[idx + 1..];
        RemoveAt(idx);
      } else if pe.attempts < cfg.maxRetries {
        assert after == before[idx := Slot(pe.serial, pe.attempts + 1, time + Delay(cfg.baseBackoff, pe.attempts + 1))];
        Reschedule(pe, idx, time);
      } else {
        assert after == before[..idx] + before[idx + 1..];
        RemoveAt(idx);
      }
    }

    lemma AbsentIsUntouched(pe: PendingEvent, answer: bool, time: int)
      requires Valid() && Owns(pe) && pe !in pending
      ensures SettleSlots(cfg, Slots(), [pe.serial], [answer], [time]) == Slots()
    {
      assert forall i :: 0 <= i < |pending| ==> Owns(pending[i]) && pending[i] != pe;
      SettleUntouched(cfg, Slots(), [pe.serial], [answer], [time]);
    }

    /** Phase three of a pass: re-locates every due entry and applies its answer. */
    method ApplyResults(due: seq<PendingEvent>, answers: seq<bool>, times: seq<int>)
      requires Valid() && |due| == |answers| == |times|
      requires forall pe :: pe in due ==> Owns(pe)
      requires AscendingKeys(Serials(due))
      modifies this`pending, due
      ensures Valid() && history == old(history)
      ensures forall p :: p in pending ==> p in old(pending)
      ensures Slots() == SettleSlots(cfg, old(Slots()), Serials(due), answers, times)
    {
      ghost var before, keys := Slots(), Serials(due);
      SettleUntouched(cfg, before, [], [], []);
      var i := 0;
      while i < |due|
        invariant 0 <= i <= |due|
        invariant Valid() && history == old(history)
        invariant forall p :: p in pending ==> p in old(pending)
        invariant Slots() == SettleSlots(cfg, before, keys[..i], answers[..i], times[..i])
      {
        assert keys[i] !in keys[..i];
        SettlePrefix(cfg, before, keys, answers, times, i);
        assert due[i] in due && due[i].serial == keys[i];
        ApplyResult(due[i], answers[i], times[i]);
        i := i + 1;
      }
      assert keys[..i] == keys && answers[..i] == answers && times[..i] == times;
    }

    /** Enqueues that other goroutines make while a pass publishes without the lock. */
    method Arrive(arrivals: seq<(Event, int)>)
      requires Valid()
      modifies this
      ensures Valid()
      ensures |history| == |old(history)| + |arrivals| && history[..|old(history)|] == old(history)
      ensures forall i :: 0 <= i < |arrivals| ==> history[|old(history)| + i].event == arrivals[i].0
      ensures forall pe :: pe in pending ==> pe in old(pending) || fresh(pe)
      ensures Slots() == EnqueueAll(cfg, old(Slots()), |old(history)|, ArrivalTimes(arrivals))
    {
      ghost var before, first, times := Slots(), |history|, ArrivalTimes(arrivals);
      var i := 0;
      while i < |arrivals|
        invariant 0 <= i <= |arrivals|
        invariant Valid() && |history| == first + i && history[..first] == old(history)
        invariant forall j :: 0 <= j < i ==> history[first + j].event == arrivals[j].0
        invariant forall pe :: pe in pending ==> pe in old(pending) || fresh(pe)
        invariant EnqueueAll(cfg, before, first, times) == EnqueueAll(cfg, Slots(), first + i, times[i..])
      {
        assert times[i..][0] == arrivals[i].1 && times[i..][1..] == times[i + 1..];
        Enqueue(arrivals[i].0, arrivals[i].1);
        i := i + 1;
      }
      assert times[i..] == [];
    }

    /**
     A whole pass. While the due entries are published without the lock, any
     number of enqueues arrive; they may evict entries of the pass or shift them.
     `answer` and `clock` are what the bus and the clock say to the i-th entry.
     Serial numbers keep standing for the same entries, which keep their events.
     */
    method RetryDue(now: int, arrivals: seq<(Event, int)>, answer: nat -> bool, clock: nat -> int)
      requires Valid()
      modifies this, pending
      ensures Valid()
      ensures Slots() == AfterPass(cfg, old(Slots()), |old(history)|, now, ArrivalTimes(arrivals), answer, clock)
      ensures |old(history)| <= |history| && history[..|old(history)|] == old(history)
      ensures DueKeys(old(Slots()), now) == [] ==> history == old(history) && pending == old(pending)
      ensures DueKeys(old(Slots()), now) != [] ==>
                && |history| == |old(history)| + |arrivals|
                && forall i :: 0 <= i < |arrivals| ==> history[|old(history)| + i].event == arrivals[i].0
      ensures forall pe :: pe in pending ==> pe in old(pending) || fresh(pe)
    {
      SlotsAscend();
      var due := CollectDue(now);
      ghost var before := Slots();
      assert |due| == |DueKeys(before, now)| by { assert |Serials(due)| == |due|; }
      if |due| == 0 {
        return;
      }
      SlotsKeysAscend(before, now, due);
      assert forall i :: 0 <= i < |due| ==> due[i] in pending;
      PublishAndApply(due, arrivals, FirstOf(|due|, answer), FirstOf(|due|, clock));
    }

    /** The second and third phase, with what arrives in between. */
    method PublishAndApply(due: seq<PendingEvent>, arrivals: seq<(Event, int)>, answers: seq<bool>, times: seq<int>)
      requires Valid() && |due| == |answers| == |times|
      requires forall i :: 0 <= i < |due| ==> Owns(due[i])
      requires AscendingKeys(Serials(due))
      modifies this, due
      ensures Valid()
      ensures Slots() == SettleSlots(cfg, EnqueueAll(cfg, old(Slots()), |old(history)|, ArrivalTimes(arrivals)),
                                     Serials(due), answers, times)
      ensures |history| == |old(history)| + |arrivals| && history[..|old(history)|] == old(history)
      ensures forall i :: 0 <= i < |arrivals| ==> history[|old(history)| + i].event == arrivals[i].0
      ensures forall pe :: pe in pending ==> pe in old(pending) || fresh(pe)
    {
      ghost var known := history;
      Arrive(arrivals);
      forall i | 0 <= i < |due|
        ensures Owns(due[i])
      {
        assert history[due[i].serial] == known[due[i].serial];
      }
      ApplyResults(due, answers, times);
    }

    lemma SlotsKeysAscend(slots: seq<Slot>, now: int, due: seq<PendingEvent>)
      requires Ascending(slots) && Serials(due) == DueKeys(slots, now)
      ensures AscendingKeys(Serials(due))
    {
      DueAscends(slots, now);
    }
  }
}
