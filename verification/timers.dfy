/**
 The part of the reactor (the timer-driven event loop) that klippy.py
 touches: timers identified by handles, each with a wake-up deadline that
 is an absolute time or one of the sentinels `NOW` and `NEVER`. The run
 loop and callback dispatch are not part of this model.
 */
module Timers {

  /** `reactor.NOW`, an absolute event time, or `reactor.NEVER`. */
  datatype Deadline = Now | At(time: real) | Never

  type TimerId = nat

  /** Live timers and the next handle to hand out; handles are never reused. */
  datatype Reactor = Reactor(timers: map<TimerId, Deadline>, nextId: TimerId)

  const Fresh: Reactor := Reactor(map[], 0)

  /** Every live handle was handed out earlier. */
  predicate Valid(r: Reactor)
  {
    forall h :: h in r.timers ==> h < r.nextId
  }

  datatype Registered = Registered(reactor: Reactor, handle: TimerId)

  /** `register_timer(callback, waketime)`: a new timer, distinct from every live one. */
  function RegisterTimer(r: Reactor, waketime: Deadline): (res: Registered)
    requires Valid(r)
    ensures Valid(res.reactor)
    ensures res.handle !in r.timers
    ensures res.reactor.timers == r.timers[res.handle := waketime]
    ensures res.reactor.nextId > res.handle
  {
    Registered(Reactor(r.timers[r.nextId := waketime], r.nextId + 1), r.nextId)
  }

  /** `update_timer(handle, waketime)`: reschedules a live timer; other timers keep their deadlines. */
  function UpdateTimer(r: Reactor, handle: TimerId, waketime: Deadline): (r': Reactor)
    ensures Valid(r) ==> Valid(r')
    ensures handle in r.timers ==> r'.timers == r.timers[handle := waketime]
    ensures handle !in r.timers ==> r' == r
    ensures r'.timers.Keys == r.timers.Keys
  {
    if handle in r.timers then r.(timers := r.timers[handle := waketime]) else r
  }

  /** `unregister_timer(handle)`: the timer is gone, all others untouched. */
  function UnregisterTimer(r: Reactor, handle: TimerId): (r': Reactor)
    ensures Valid(r) ==> Valid(r')
    ensures handle !in r'.timers
    ensures r'.timers.Keys == r.timers.Keys - {handle}
    ensures forall h :: h in r'.timers ==> r'.timers[h] == r.timers[h]
  {
    r.(timers := r.timers - {handle})
  }

  /** Rescheduling to the same deadline twice is the same as once. */
  lemma UpdateIdempotent(r: Reactor, handle: TimerId, waketime: Deadline)
    ensures UpdateTimer(UpdateTimer(r, handle, waketime), handle, waketime) == UpdateTimer(r, handle, waketime)
  {
  }
}
