/**
 The retry list as a sequence of slots, and what the two critical sections of
 the queue do to it. A slot's `key` is its entry's serial number in the enqueue
 history; it stands for the pointer the Go code compares entries by.
 */
module RetrySlots {
  import opened Tenants
  import opened Backoff

  datatype Config = Config(maxSize: nat, maxRetries: nat, baseBackoff: int)

  datatype Slot = Slot(key: nat, attempts: nat, next: int)

  function Keys(slots: seq<Slot>): (keys: set<nat>) {
    set s | s in slots :: s.key
  }

  /** Slots stand in enqueue order; in particular no entry occurs twice. */
  predicate Ascending(slots: seq<Slot>) {
    forall i, j :: 0 <= i < j < |slots| ==> slots[i].key < slots[j].key
  }

  predicate AscendingKeys(keys: seq<nat>) {
    forall i, j :: 0 <= i < j < |keys| ==> keys[i] < keys[j]
  }

  /** The append under the lock: a full list first gives up its oldest slot. */
  function EnqueueSlots(cfg: Config, slots: seq<Slot>, key: nat, now: int): seq<Slot>
    requires cfg.maxSize >= 1
  {
    (if |slots| >= cfg.maxSize then slots[1..] else slots) + [Slot(key, 0, now)]
  }

  /** Any number of appends in a row, with consecutive serial numbers. */
  function EnqueueAll(cfg: Config, slots: seq<Slot>, key: nat, times: seq<int>): seq<Slot>
    requires cfg.maxSize >= 1
    decreases |times|
  {
    if times == [] then slots
    else EnqueueAll(cfg, EnqueueSlots(cfg, slots, key, times[0]), key + 1, times[1..])
  }

  /** The keys copied out at the start of a pass. */
  function DueKeys(slots: seq<Slot>, now: int): seq<nat> {
    if slots == [] then []
    else (if slots[0].next <= now then [slots[0].key] else []) + DueKeys(slots[1..], now)
  }

  function Find(keys: seq<nat>, key: nat): (i: nat)
    requires key in keys
    ensures i < |keys| && keys[i] == key
  {
    if keys[0] == key then 0 else 1 + Find(keys[1..], key)
  }

  /** What is said to the first n entries of a pass. */
  function FirstOf<T>(n: nat, said: nat -> T): (firsts: seq<T>)
    ensures |firsts| == n && forall i :: 0 <= i < n ==> firsts[i] == said(i)
  {
    seq(n, i requires 0 <= i < n => said(i))
  }

  predicate Matching(due: seq<nat>, answers: seq<bool>, times: seq<int>) {
    |due| == |answers| == |times|
  }

  /** What the end of a pass leaves of one slot: nothing once published or exhausted. */
  function Settled(cfg: Config, s: Slot, due: seq<nat>, answers: seq<bool>, times: seq<int>): Option<Slot>
    requires Matching(due, answers, times)
  {
    if s.key !in due then Some(s)
    else
      var i := Find(due, s.key);
      if answers[i] then None
      else if s.attempts < cfg.maxRetries
      then Some(Slot(s.key, s.attempts + 1, times[i] + Delay(cfg.baseBackoff, s.attempts + 1)))
      else None
  }

  function AsSeq(o: Option<Slot>): seq<Slot> {
    match o
    case None => []
    case Some(s) => [s]
  }

  /** The whole list after a pass: every slot settled where it stands. */
  function SettleSlots(cfg: Config, slots: seq<Slot>, due: seq<nat>, answers: seq<bool>, times: seq<int>): seq<Slot>
    requires Matching(due, answers, times)
  {
    if slots == [] then []
    else AsSeq(Settled(cfg, slots[0], due, answers, times)) + SettleSlots(cfg, slots[1..], due, answers, times)
  }

  /**
   A whole pass over a list: if nothing is due, nothing happens; otherwise the
   appends that arrive meanwhile, and then the due slots settled where they stand.
   */
  function AfterPass(cfg: Config, slots: seq<Slot>, key: nat, now: int, arrivals: seq<int>,
                     answer: nat -> bool, clock: nat -> int): seq<Slot>
    requires cfg.maxSize >= 1
  {
    var due := DueKeys(slots, now);
    if due == [] then slots
    else SettleSlots(cfg, EnqueueAll(cfg, slots, key, arrivals), due, FirstOf(|due|, answer), FirstOf(|due|, clock))
  }

  /** The slots a pass removes because their publication succeeded. */
  function PublishedKeys(slots: seq<Slot>, due: seq<nat>, answers: seq<bool>): set<nat>
    requires |due| == |answers|
  {
    set s | s in slots && s.key in due && answers[Find(due, s.key)] :: s.key
  }

  /** The slots a pass gives up on. */
  function ExhaustedKeys(cfg: Config, slots: seq<Slot>, due: seq<nat>, answers: seq<bool>): set<nat>
    requires |due| == |answers|
  {
    set s | s in slots && s.key in due && !answers[Find(due, s.key)] && s.attempts >= cfg.maxRetries :: s.key
  }

  /** Publish calls the list can still cost when nothing more is enqueued. */
  function Debt(cfg: Config, slots: seq<Slot>): int {
    if slots == [] then 0 else cfg.maxRetries + 1 - slots[0].attempts + Debt(cfg, slots[1..])
  }

  // ---- Appends during a pass ----

  /** The slots of newcomers, in order of arrival. */
  function Newcomers(key: nat, times: seq<int>): (slots: seq<Slot>)
    ensures |slots| == |times|
  {
    seq(|times|, i requires 0 <= i < |times| => Slot(key + i, 0, times[i]))
  }

  /** How many of the oldest slots that many arrivals push out. */
  function PushedOut(cfg: Config, listed: nat, arrivals: nat): nat {
    if listed + arrivals > cfg.maxSize then listed + arrivals - cfg.maxSize else 0
  }

  /** Any number of appends leaves the last maxSize of the old slots followed by the newcomers. */
  lemma {:induction false} EnqueueAllKeepsLast(cfg: Config, slots: seq<Slot>, key: nat, times: seq<int>)
    requires cfg.maxSize >= 1 && |slots| <= cfg.maxSize
    ensures EnqueueAll(cfg, slots, key, times) == (slots + Newcomers(key, times))[PushedOut(cfg, |slots|, |times|)..]
    decreases |times|
  {
    if times == [] {
      assert slots + Newcomers(key, times) == slots;
    } else {
      var next := EnqueueSlots(cfg, slots, key, times[0]);
      EnqueueAllKeepsLast(cfg, next, key + 1, times[1..]);
      var all := slots + Newcomers(key, times);
      var drop := if |slots| >= cfg.maxSize then 1 else 0;
      assert next + Newcomers(key + 1, times[1..]) == all[drop..];
    }
  }

  /**
   While appends arrive, an old slot survives exactly when it is not among those
   pushed out, and keeps its position exactly when none is: one eviction moves all.
   */
  lemma EntriesStayPut(cfg: Config, slots: seq<Slot>, key: nat, times: seq<int>, i: nat)
    requires cfg.maxSize >= 1 && |slots| <= cfg.maxSize && i < |slots|
    requires Ascending(slots) && forall s :: s in slots ==> s.key < key
    ensures var after := EnqueueAll(cfg, slots, key, times);
            && (slots[i] in after <==> i >= PushedOut(cfg, |slots|, |times|))
            && (i < |after| && after[i] == slots[i] <==> |slots| + |times| <= cfg.maxSize)
  {
    EnqueueAllKeepsLast(cfg, slots, key, times);
    var all, n := slots + Newcomers(key, times), PushedOut(cfg, |slots|, |times|);
    var after := all[n..];
    AllAscend(slots, key, times);
    assert all[i] == slots[i];
    if i >= n {
      assert after[i - n] == slots[i];
    }
  }

  lemma AllAscend(slots: seq<Slot>, key: nat, times: seq<int>)
    requires Ascending(slots) && forall s :: s in slots ==> s.key < key
    ensures Ascending(slots + Newcomers(key, times))
  {
    assert forall i :: 0 <= i < |slots| ==> slots[i] in slots;
  }

  /** A non-empty list is still in front after the appends exactly when everything fits. */
  lemma ListStaysPut(cfg: Config, slots: seq<Slot>, key: nat, times: seq<int>)
    requires cfg.maxSize >= 1 && 1 <= |slots| <= cfg.maxSize
    requires Ascending(slots) && forall s :: s in slots ==> s.key < key
    ensures slots <= EnqueueAll(cfg, slots, key, times) <==> |slots| + |times| <= cfg.maxSize
  {
    EntriesStayPut(cfg, slots, key, times, 0);
    EnqueueAllKeepsLast(cfg, slots, key, times);
  }

  // ---- Due keys ----

  lemma {:induction false} DueMember(slots: seq<Slot>, now: int, key: nat)
    ensures key in DueKeys(slots, now) <==> exists s :: s in slots && s.key == key && s.next <= now
  {
    if slots == [] {
    } else {
      DueMember(slots[1..], now, key);
      assert slots == [slots[0]] + slots[1..];
    }
  }

  lemma {:induction false} DueAscends(slots: seq<Slot>, now: int)
    requires Ascending(slots)
    ensures AscendingKeys(DueKeys(slots, now))
    ensures |DueKeys(slots, now)| <= |slots|
  {
    if slots == [] {
    } else {
      DueAscends(slots[1..], now);
      var rest := DueKeys(slots[1..], now);
      forall i | 0 <= i < |rest|
        ensures slots[0].key < rest[i]
      {
        DueMember(slots[1..], now, rest[i]);
      }
    }
  }

  lemma {:induction false} DueSnoc(slots: seq<Slot>, s: Slot, now: int)
    ensures DueKeys(slots + [s], now) == DueKeys(slots, now) + (if s.next <= now then [s.key] else [])
  {
    if slots == [] {
      assert [s][1..] == [];
    } else {
      DueSnoc(slots[1..], s, now);
      assert (slots + [s])[1..] == slots[1..] + [s];
    }
  }

  lemma {:induction false} FindInPrefix(keys: seq<nat>, more: seq<nat>, key: nat)
    requires key in keys
    ensures Find(keys + more, key) == Find(keys, key)
  {
    if keys[0] == key {
    } else {
      FindInPrefix(keys[1..], more, key);
      assert (keys + more)[1..] == keys[1..] + more;
    }
  }

  lemma {:induction false} FindAtEnd(keys: seq<nat>, key: nat)
    requires key !in keys
    ensures Find(keys + [key], key) == |keys|
  {
    if keys == [] {
    } else {
      FindAtEnd(keys[1..], key);
      assert (keys + [key])[1..] == keys[1..] + [key];
    }
  }

  // ---- Settling ----

  /** A slot is in the settled list exactly when some slot of the old list settled to it. */
  lemma {:induction false} SettleMember(cfg: Config, slots: seq<Slot>, due: seq<nat>, answers: seq<bool>,
                                        times: seq<int>, r: Slot)
    requires Matching(due, answers, times)
    ensures r in SettleSlots(cfg, slots, due, answers, times)
       <==> exists s :: s in slots && Settled(cfg, s, due, answers, times) == Some(r)
  {
    if slots == [] {
    } else {
      SettleMember(cfg, slots[1..], due, answers, times, r);
      assert slots == [slots[0]] + slots[1..];
    }
  }

  lemma {:induction false} SettleAscends(cfg: Config, slots: seq<Slot>, due: seq<nat>, answers: seq<bool>,
                                         times: seq<int>)
    requires Matching(due, answers, times)
    requires Ascending(slots)
    ensures Ascending(SettleSlots(cfg, slots, due, answers, times))
    ensures |SettleSlots(cfg, slots, due, answers, times)| <= |slots|
  {
    if slots == [] {
    } else {
      SettleAscends(cfg, slots[1..], due, answers, times);
      var rest := SettleSlots(cfg, slots[1..], due, answers, times);
      forall i | 0 <= i < |rest|
        ensures slots[0].key < rest[i].key
      {
        SettleMember(cfg, slots[1..], due, answers, times, rest[i]);
      }
    }
  }

  lemma {:induction false} SettleConcat(cfg: Config, a: seq<Slot>, b: seq<Slot>, due: seq<nat>, answers: seq<bool>,
                                        times: seq<int>)
    requires Matching(due, answers, times)
    ensures SettleSlots(cfg, a + b, due, answers, times)
         == SettleSlots(cfg, a, due, answers, times) + SettleSlots(cfg, b, due, answers, times)
  {
    if a == [] {
      assert a + b == b;
    } else {
      SettleConcat(cfg, a[1..], b, due, answers, times);
      assert (a + b)[1..] == a[1..] + b;
    }
  }

  lemma {:induction false} SettleUntouched(cfg: Config, slots: seq<Slot>, due: seq<nat>, answers: seq<bool>,
                                           times: seq<int>)
    requires Matching(due, answers, times)
    requires forall s :: s in slots ==> s.key !in due
    ensures SettleSlots(cfg, slots, due, answers, times) == slots
  {
    if slots == [] {
    } else {
      SettleUntouched(cfg, slots[1..], due, answers, times);
      assert slots == [slots[0]] + slots[1..];
    }
  }

  /** Settling one entry acts at the single place where it stands. */
  lemma SettleAt(cfg: Config, slots: seq<Slot>, at: nat, answer: bool, time: int)
    requires Ascending(slots) && at < |slots|
    ensures SettleSlots(cfg, slots, [slots[at].key], [answer], [time])
         == slots[..at] + AsSeq(Settled(cfg, slots[at], [slots[at].key], [answer], [time])) + slots[at + 1..]
  {
    var key := slots[at].key;
    var a, m, b := slots[..at], [slots[at]], slots[at + 1..];
    assert slots == a + (m + b);
    SettleConcat(cfg, a, m + b, [key], [answer], [time]);
    SettleConcat(cfg, m, b, [key], [answer], [time]);
    SettleUntouched(cfg, a, [key], [answer], [time]);
    SettleUntouched(cfg, b, [key], [answer], [time]);
    assert m[1..] == [];
    assert SettleSlots(cfg, m, [key], [answer], [time]) == AsSeq(Settled(cfg, m[0], [key], [answer], [time]));
  }

  /** The same, spelled out: the slot is cut out, or replaced by its rescheduled form. */
  lemma SettleInPlace(cfg: Config, slots: seq<Slot>, at: nat, answer: bool, time: int)
    requires Ascending(slots) && at < |slots|
    ensures var s := slots[at];
            SettleSlots(cfg, slots, [s.key], [answer], [time]) ==
              if !answer && s.attempts < cfg.maxRetries
              then slots[at := Slot(s.key, s.attempts + 1, time + Delay(cfg.baseBackoff, s.attempts + 1))]
              else slots[..at] + slots[at + 1..]
  {
    SettleAt(cfg, slots, at, answer, time);
    SettledAlone(cfg, slots[at], answer, time);
    if !answer && slots[at].attempts < cfg.maxRetries {
      var s := slots[at];
      Replaced(slots, at, Slot(s.key, s.attempts + 1, time + Delay(cfg.baseBackoff, s.attempts + 1)));
    } else {
      CutOut(slots, at);
    }
  }

  lemma SettledAlone(cfg: Config, s: Slot, answer: bool, time: int)
    ensures AsSeq(Settled(cfg, s, [s.key], [answer], [time])) ==
              if !answer && s.attempts < cfg.maxRetries
              then [Slot(s.key, s.attempts + 1, time + Delay(cfg.baseBackoff, s.attempts + 1))]
              else []
  {
    assert Find([s.key], s.key) == 0;
  }

  lemma Replaced(slots: seq<Slot>, at: nat, r: Slot)
    requires at < |slots|
    ensures slots[..at] + [r] + slots[at + 1..] == slots[at := r]
  {
  }

  lemma CutOut(slots: seq<Slot>, at: nat)
    requires at < |slots|
    ensures slots[..at] + [] + slots[at + 1..] == slots[..at] + slots[at + 1..]
  {
  }

  /** Taking the due entries one after the other is settling them all at once. */
  lemma {:induction false} SettleSnoc(cfg: Config, slots: seq<Slot>, due: seq<nat>, answers: seq<bool>, times: seq<int>,
                                      key: nat, answer: bool, time: int)
    requires Matching(due, answers, times)
    requires key !in due
    ensures SettleSlots(cfg, slots, due + [key], answers + [answer], times + [time])
         == SettleSlots(cfg, SettleSlots(cfg, slots, due, answers, times), [key], [answer], [time])
  {
    if slots == [] {
    } else {
      SettleSnoc(cfg, slots[1..], due, answers, times, key, answer, time);
      var head := AsSeq(Settled(cfg, slots[0], due, answers, times));
      SettleConcat(cfg, head, SettleSlots(cfg, slots[1..], due, answers, times), [key], [answer], [time]);
      SettleSnocHead(cfg, slots[0], due, answers, times, key, answer, time);
    }
  }

  /** The same over the prefixes of a pass. */
  lemma SettlePrefix(cfg: Config, slots: seq<Slot>, due: seq<nat>, answers: seq<bool>, times: seq<int>, i: nat)
    requires Matching(due, answers, times) && i < |due| && due[i] !in due[..i]
    ensures SettleSlots(cfg, slots, due[..i + 1], answers[..i + 1], times[..i + 1])
         == SettleSlots(cfg, SettleSlots(cfg, slots, due[..i], answers[..i], times[..i]),
                        [due[i]], [answers[i]], [times[i]])
  {
    assert due[..i + 1] == due[..i] + [due[i]];
    assert answers[..i + 1] == answers[..i] + [answers[i]];
    assert times[..i + 1] == times[..i] + [times[i]];
    SettleSnoc(cfg, slots, due[..i], answers[..i], times[..i], due[i], answers[i], times[i]);
  }

  lemma SettleSnocHead(cfg: Config, s: Slot, due: seq<nat>, answers: seq<bool>, times: seq<int>,
                       key: nat, answer: bool, time: int)
    requires Matching(due, answers, times)
    requires key !in due
    ensures AsSeq(Settled(cfg, s, due + [key], answers + [answer], times + [time]))
         == SettleSlots(cfg, AsSeq(Settled(cfg, s, due, answers, times)), [key], [answer], [time])
  {
    var head := AsSeq(Settled(cfg, s, due, answers, times));
    if s.key in due {
      FindInPrefix(due, [key], s.key);
      SettleUntouched(cfg, head, [key], [answer], [time]);
    } else {
      assert head == [s] && head[1..] == [];
      if s.key == key {
        FindAtEnd(due, key);
      }
    }
  }

  /** A pass accounts for every slot: kept, published or given up, never two of these. */
  lemma SettleAccounts(cfg: Config, slots: seq<Slot>, due: seq<nat>, answers: seq<bool>, times: seq<int>)
    requires Matching(due, answers, times)
    requires Ascending(slots)
    ensures var kept, ok, gone := Keys(SettleSlots(cfg, slots, due, answers, times)),
                                  PublishedKeys(slots, due, answers), ExhaustedKeys(cfg, slots, due, answers);
            && kept + ok + gone == Keys(slots)
            && kept !! ok && kept !! gone && ok !! gone
  {
    var result := SettleSlots(cfg, slots, due, answers, times);
    forall key
      ensures key in Keys(result) <==>
              && key in Keys(slots)
              && key !in PublishedKeys(slots, due, answers)
              && key !in ExhaustedKeys(cfg, slots, due, answers)
    {
      if key in Keys(result) {
        var r :| r in result && r.key == key;
        SettleMember(cfg, slots, due, answers, times, r);
        var s :| s in slots && Settled(cfg, s, due, answers, times) == Some(r);
        OneSlotPerKey(slots, s);
      } else if key in Keys(slots) {
        var s :| s in slots && s.key == key;
        match Settled(cfg, s, due, answers, times)
        case Some(r) => SettleMember(cfg, slots, due, answers, times, r);
        case None =>
      }
    }
    forall s | s in slots && s.key in PublishedKeys(slots, due, answers)
      ensures s.key !in ExhaustedKeys(cfg, slots, due, answers)
    {
      OneSlotPerKey(slots, s);
    }
  }

  lemma OneSlotPerKey(slots: seq<Slot>, s: Slot)
    requires Ascending(slots) && s in slots
    ensures forall o :: o in slots && o.key == s.key ==> o == s
  {
  }

  // ---- The draining measure ----

  lemma {:induction false} DebtBounds(cfg: Config, slots: seq<Slot>)
    requires forall s :: s in slots ==> s.attempts <= cfg.maxRetries
    ensures |slots| <= Debt(cfg, slots) <= |slots| * (cfg.maxRetries + 1)
  {
    if slots == [] {
    } else {
      DebtBounds(cfg, slots[1..]);
      assert |slots| * (cfg.maxRetries + 1) == (|slots| - 1) * (cfg.maxRetries + 1) + cfg.maxRetries + 1;
    }
  }

  /** A pass pays at least one unit of debt for every slot it tried. */
  lemma {:induction false} SettlePaysDebt(cfg: Config, slots: seq<Slot>, now: int, due: seq<nat>, answers: seq<bool>,
                                          times: seq<int>)
    requires Matching(due, answers, times)
    requires forall s :: s in slots ==> s.attempts <= cfg.maxRetries
    requires forall s :: s in slots && s.next <= now ==> s.key in due
    ensures Debt(cfg, SettleSlots(cfg, slots, due, answers, times)) + |DueKeys(slots, now)| <= Debt(cfg, slots)
  {
    if slots == [] {
    } else {
      SettlePaysDebt(cfg, slots[1..], now, due, answers, times);
      var head := AsSeq(Settled(cfg, slots[0], due, answers, times));
      DebtConcat(cfg, head, SettleSlots(cfg, slots[1..], due, answers, times));
      assert slots[0] in slots;
      if head != [] {
        assert head[1..] == [];
      }
    }
  }

  lemma {:induction false} DebtConcat(cfg: Config, a: seq<Slot>, b: seq<Slot>)
    ensures Debt(cfg, a + b) == Debt(cfg, a) + Debt(cfg, b)
  {
    if a == [] {
      assert a + b == b;
    } else {
      DebtConcat(cfg, a[1..], b);
      assert (a + b)[1..] == a[1..] + b;
    }
  }
}
