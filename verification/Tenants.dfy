/** The values every component exchanges: tenants, their states and state-change events. */
module Tenants {
  type TenantId = string

  datatype Option<+T> = None | Some(value: T)

  datatype TenantState = Active | Disabled | Banned

  /** A tenant as a plain value: what `MemoryStore` copies in and out. */
  datatype Profile = Profile(id: TenantId, state: TenantState, roles: seq<string>)

  /** A state change announced on the event bus. Times are readings of one integer clock. */
  datatype Event = Event(id: TenantId, state: TenantState, at: int)
}
