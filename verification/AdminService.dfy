/** The admin service: a state change in the store, always followed by its announcement. */
module AdminService {
  import opened Tenants
  import opened RetrySlots
  import M = MemoryStore
  import R = RetryQueue

  datatype Result = Published | UnknownTenant | PublishFailed

  class Service {
    const store: M.MemoryStore
    const retryQueue: R.PublishRetryQueue?

    constructor (store: M.MemoryStore, retryQueue: R.PublishRetryQueue?)
      ensures this.store == store && this.retryQueue == retryQueue
    {
      this.store := store;
      this.retryQueue := retryQueue;
    }

    ghost predicate Valid()
      reads this, store, store.tenants.Values, retryQueue
    {
      store.Valid() && (retryQueue != null ==> retryQueue.Valid())
    }

    /**
     SetState, then Publish, then Enqueue if that failed. `stamp` and `now` are
     the clock readings; `accept` is the bus. The event is returned if one was
     handed to the bus.
     */
    method Transition(id: TenantId, state: TenantState, stamp: int, accept: Event -> bool, now: int)
      returns (result: Result, handed: Option<Event>)
      requires Valid()
      modifies store.tenants.Values, retryQueue
      ensures Valid()
      ensures id !in old(store.View()) ==>
                result == UnknownTenant && handed == None && store.View() == old(store.View())
      ensures id in old(store.View()) ==>
                && store.View() == old(store.View())[id := old(store.View())[id].(state := state)]
                && handed == Some(Event(id, state, stamp))
                && result == (if accept(handed.value) then Published else PublishFailed)
      ensures retryQueue != null && result != PublishFailed ==>
                retryQueue.Slots() == old(retryQueue.Slots()) && retryQueue.history == old(retryQueue.history)
      ensures retryQueue != null && result == PublishFailed ==>
                retryQueue.Slots() ==
                  EnqueueSlots(retryQueue.cfg, old(retryQueue.Slots()), |old(retryQueue.history)|, now)
      ensures retryQueue != null && result == PublishFailed ==>
                && |retryQueue.history| == |old(retryQueue.history)| + 1
                && retryQueue.history[..|old(retryQueue.history)|] == old(retryQueue.history)
                && Some(retryQueue.history[|old(retryQueue.history)|].event) == handed
    {
      var status := store.SetState(id, state);
      if status != M.Done {
        return UnknownTenant, None;
      }
      var event := Event(id, state, stamp);
      if !accept(event) {
        if retryQueue != null {
          retryQueue.Enqueue(event, now);
        }
        return PublishFailed, Some(event);
      }
      return Published, Some(event);
    }

    method Ban(id: TenantId, stamp: int, accept: Event -> bool, now: int) returns (result: Result)
      requires Valid()
      modifies store.tenants.Values, retryQueue
      ensures Valid()
      ensures id !in old(store.View()) ==> result == UnknownTenant && store.View() == old(store.View())
      ensures id in old(store.View()) ==>
                && store.View() == old(store.View())[id := old(store.View())[id].(state := Banned)]
                && result == (if accept(Event(id, Banned, stamp)) then Published else PublishFailed)
      ensures retryQueue != null && result != PublishFailed ==>
                retryQueue.Slots() == old(retryQueue.Slots()) && retryQueue.history == old(retryQueue.history)
      ensures retryQueue != null && result == PublishFailed ==>
                && retryQueue.Slots() ==
                     EnqueueSlots(retryQueue.cfg, old(retryQueue.Slots()), |old(retryQueue.history)|, now)
                && |retryQueue.history| == |old(retryQueue.history)| + 1
                && retryQueue.history[..|old(retryQueue.history)|] == old(retryQueue.history)
                && retryQueue.history[|old(retryQueue.history)|].event == Event(id, Banned, stamp)
    {
      var handed;
      result, handed := Transition(id, Banned, stamp, accept, now);
    }
  }
}
