/** Waiting for a source's fetch lock (fetch_lock and _acquire in toinflux/inputs.py). */
module FetchLocks {
  import opened Numbers

  const MIN_LOCK_BACKOFF := 0.05
  const MAX_LOCK_BACKOFF := 0.5

  /** A duration as a settings document may hold it. A bool is not a number here. */
  datatype Setting = Missing | NotANumber | Number(n: Num)

  /** `_as_seconds`: None is ConfigError. */
  function AsSeconds(s: Setting): Option<real> {
    if s.Number? && s.n.Finite? && s.n.r >= 0.0 then Some(s.n.r) else None
  }

  /** One attempt at the lock. A busy one reads the clock twice around its draw; `checked` decides
      whether to give up, `again` how much of the budget is left to sleep. */
  datatype Attempt = Taken | Busy(checked: real, draw: real, again: real) | Refused

  /** How the wait ended: the lock, the budget spent, or ConfigError. */
  datatype Wait = Held | GaveUp | CannotLock

  function Least(a: real, b: real): real {
    if b < a then b else a
  }

  function Most(a: real, b: real): real {
    if b > a then b else a
  }

  function Sleep(a: Attempt, deadline: real): real
    requires a.Busy?
  {
    Least(a.draw, Most(deadline - a.again, 0.0))
  }

  /** The clock never runs backwards and a sleep takes at least as long as was asked, and a draw
      lies within its bounds. `start` is when the deadline was set. */
  ghost predicate FairClock(attempts: nat -> Attempt, start: real, deadline: real) {
    && (forall i: nat :: attempts(i).Busy? ==>
          && MIN_LOCK_BACKOFF <= attempts(i).draw <= MAX_LOCK_BACKOFF
          && start <= attempts(i).checked <= attempts(i).again)
    && (forall i: nat, j: nat :: j == i + 1 && attempts(i).Busy? && attempts(j).Busy? ==>
          attempts(j).checked >= attempts(i).again + Sleep(attempts(i), deadline))
  }

  /** The wait ends, within a number of attempts the budget alone decides. It is ended by the first
      attempt that was not met by contention, or by the first busy one past the deadline, and no
      sleep is ever asked for that would pass the deadline. */
  method Acquire(attempts: nat -> Attempt, start: real, budget: real) returns (w: Wait, tries: nat, slept: seq<real>)
    requires budget >= 0.0 && FairClock(attempts, start, start + budget)
    ensures 0 < tries && tries as real < budget / 0.05 + 2.0
    ensures |slept| == tries - 1
    ensures forall i :: 0 <= i < tries - 1 ==>
              && attempts(i).Busy? && attempts(i).checked < start + budget
              && 0.0 <= slept[i] <= 0.5
              && (attempts(i).again + slept[i] <= start + budget || slept[i] == 0.0)
              && slept[i] <= attempts(i).draw
              && (slept[i] < attempts(i).draw ==>
                    attempts(i).again + slept[i] == start + budget
                    || (slept[i] == 0.0 && attempts(i).again >= start + budget))
    ensures var last := attempts(tries - 1);
            && (w.Held? <==> last.Taken?) && (w.CannotLock? <==> last.Refused?)
            && (w.GaveUp? <==> last.Busy? && last.checked >= start + budget)
  {
    var deadline := start + budget;
    tries, slept := 0, [];
    while true
      invariant |slept| == tries
      invariant tries as real < budget / MIN_LOCK_BACKOFF + 1.0
      invariant attempts(tries).Busy? ==>
                  attempts(tries).checked >= deadline
                  || attempts(tries).checked >= start + tries as real * MIN_LOCK_BACKOFF
      invariant forall i :: 0 <= i < tries ==>
                  && attempts(i).Busy? && attempts(i).checked < deadline
                  && 0.0 <= slept[i] <= MAX_LOCK_BACKOFF
                  && (attempts(i).again + slept[i] <= deadline || slept[i] == 0.0)
                  && slept[i] <= attempts(i).draw
                  && (slept[i] < attempts(i).draw ==>
                        attempts(i).again + slept[i] == deadline || (slept[i] == 0.0 && attempts(i).again >= deadline))
      decreases (budget / MIN_LOCK_BACKOFF + 1.0).Floor - tries
    {
      var attempt := attempts(tries);
      tries := tries + 1;
      if attempt.Taken? {
        return Held, tries, slept;
      }
      if attempt.Refused? {
        return CannotLock, tries, slept;
      }
      if attempt.checked >= deadline {
        return GaveUp, tries, slept;
      }
      slept := slept + [Sleep(attempt, deadline)];
    }
  }
}
