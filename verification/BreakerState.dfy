/** The state of one circuit breaker. Times are integers on one clock. */
module BreakerState {
  import opened Wrappers

  datatype Phase = Closed | Opened

  datatype Breaker = Breaker(phase: Phase, since: Option<int>, recoverAt: Option<int>)

  const FRESH := Breaker(Closed, None, None)

  /** Each transition takes place only when the phase changes. */
  function Tripped(b: Breaker, now: int): Breaker {
    if b.phase == Opened then b else Breaker(Opened, Some(now), None)
  }

  function TrippedFor(b: Breaker, now: int, window: int): Breaker {
    if b.phase == Opened then b else Breaker(Opened, Some(now), Some(now + window))
  }

  function Recovered(b: Breaker, now: int): Breaker {
    if b.phase == Closed then b else Breaker(Closed, Some(now), None)
  }

  class State {
    const key: string
    var phase: Phase
    var since: Option<int>
    var recoverAt: Option<int>

    ghost function View(): Breaker
      reads this
    {
      Breaker(phase, since, recoverAt)
    }

    constructor (key: string)
      ensures this.key == key && View() == FRESH
    {
      this.key, phase, since, recoverAt := key, Closed, None, None;
    }

    method TransitionTo(next: Phase, now: int) returns (changed: bool)
      modifies this`phase, this`since
      ensures changed <==> old(phase) != next
      ensures phase == next && since == if changed then Some(now) else old(since)
    {
      if phase != next {
        phase, since := next, Some(now);
        return true;
      }
      return false;
    }

    method TriggerBreaker(now: int)
      modifies this
      ensures View() == Tripped(old(View()), now)
      ensures phase == Opened && since == (if old(phase) == Closed then Some(now) else old(since))
      ensures recoverAt == if old(phase) == Closed then None else old(recoverAt)
    {
      var changed := TransitionTo(Opened, now);
      if changed {
        recoverAt := None;
      }
    }

    method TriggerBreakerWithTimeWindow(now: int, window: int)
      modifies this
      ensures View() == TrippedFor(old(View()), now, window)
      ensures phase == Opened && since == (if old(phase) == Closed then Some(now) else old(since))
      ensures recoverAt == if old(phase) == Closed then Some(now + window) else old(recoverAt)
    {
      var changed := TransitionTo(Opened, now);
      if changed {
        recoverAt := Some(now + window);
      }
    }

    method RecoverBreaker(now: int)
      modifies this
      ensures View() == Recovered(old(View()), now)
      ensures phase == Closed && since == (if old(phase) == Opened then Some(now) else old(since))
      ensures recoverAt == if old(phase) == Opened then None else old(recoverAt)
    {
      var changed := TransitionTo(Closed, now);
      if changed {
        recoverAt := None;
      }
    }
  }
}
