/** What one step of a loop answers and what it adds to the integral, as real arithmetic
    (Controller.step in toinflux/controller.py). */
module ControllerSteps {
  import opened Numbers
  import opened Controllers
  import opened ControllerProperties

  // ---------- what it adds to the integral ----------

  function ClampReal(x: real, lo: real, hi: real): real {
    if hi < x then hi else if x < lo then lo else x
  }

  /** One step of the sum, clamped before and after. */
  function Summed(integral: real, increment: real, lo: real, hi: real): real {
    ClampReal(ClampReal(integral, lo, hi) + increment, lo, hi)
  }

  /** The interval a step integrates over: what it is given, or what has passed since the PID was last
      called or let go, which is never nothing. */
  function Interval(dt: Option<Num>, now: real, last: real): real {
    if dt.Some? && dt.value.Finite? then dt.value.r else if now - last != 0.0 then now - last else 0.0000000000000001
  }

  /** ki x error x dt. */
  function Product(ki: real, error: real, interval: real): real {
    interval * (ki * error)
  }

  function Increment(ki: real, f: Feed, interval: real): real
    requires UsableRule(f.setpoint) && UsableRule(f.input)
  {
    Product(ki, f.setpoint.value.r - f.input.value.r, interval)
  }

  /** The upper limit a cycle works under: its cap's, where there is one. */
  function UpperLimit(u: Tuning, f: Feed, hi: real): real
    requires Laddered(u) && UsableFeed(u, f)
  {
    CapKeepsTheBottom(u, f);
    var ladder := CycleLadder(u, f);
    if u.capped then ladder[|ladder| - 1] else hi
  }

  lemma TheSumIs(integral: real, ki: real, setpoint: real, input: real, interval: real, lo: real, hi: real)
    ensures Clamp(Add(Finite(integral), Scale(interval, Scale(ki, Sub(Finite(setpoint), Finite(input))))), lo, hi)
         == Finite(ClampReal(integral + Product(ki, setpoint - input, interval), lo, hi))
  {
  }

  lemma CallSums(p: Pid, input: Num, dt: Option<real>, now: real)
    requires p.auto && (dt.Some? ==> dt.value > 0.0)
    ensures var after := Call(p, input, dt, now).0;
            var interval := Interval(if dt.Some? then Some(Finite(dt.value)) else None, now, p.lastTime);
            && after.lo == p.lo && after.hi == p.hi && after.ki == p.ki && after.auto
            && after.integral
               == Clamp(Add(p.integral, Scale(interval, Scale(p.ki, Sub(p.setpoint, input)))), p.lo, p.hi)
  {
  }

  lemma CallIntegrates(p: Pid, input: real, dt: Option<real>, now: real)
    requires p.auto && SoundPid(p) && (dt.Some? ==> dt.value > 0.0)
    ensures var after := Call(p, Finite(input), dt, now).0;
            var interval := Interval(if dt.Some? then Some(Finite(dt.value)) else None, now, p.lastTime);
            && after.lo == p.lo && after.hi == p.hi && after.ki == p.ki && after.auto
            && after.integral
               == Finite(ClampReal(p.integral.r + Product(p.ki, p.setpoint.r - input, interval), p.lo, p.hi))
  {
    var interval := Interval(if dt.Some? then Some(Finite(dt.value)) else None, now, p.lastTime);
    CallSums(p, Finite(input), dt, now);
    TheSumIs(p.integral.r, p.ki, p.setpoint.r, input, interval, p.lo, p.hi);
  }

  lemma TheIntervalIs(dt: Option<Num>, now: real, last: real)
    requires UsableInterval(dt)
    ensures Interval(if dt.None? then None else Some(Finite(dt.value.r)), now, last) == Interval(dt, now, last)
  {
  }

  lemma PreparedIs(u: Tuning, l: Loop, f: Feed)
    requires Laddered(u) && Sound(u, l) && UsableFeed(u, f)
    ensures var p, hi := Prepared(u, l.pid, f), UpperLimit(u, f, l.pid.hi);
            && p.lo == l.pid.lo && p.hi == hi && p.ki == l.pid.ki
            && p.auto == l.pid.auto && p.lastTime == l.pid.lastTime
            && p.setpoint == f.setpoint.value && p.integral == Finite(ClampReal(l.pid.integral.r, l.pid.lo, hi))
            && SoundPid(p)
  {
    PreparedStaysSound(u, l, f);
    CapKeepsTheBottom(u, f);
  }

  lemma StepIntegrates(u: Tuning, l: Loop, f: Feed, now: real)
    requires Laddered(u) && Sound(u, l) && UsableFeed(u, f) && l.pid.auto
    ensures var p := StepLoop(u, l, f, now).0.pid;
            var hi := UpperLimit(u, f, l.pid.hi);
            && p.lo == l.pid.lo && p.hi == hi && p.ki == l.pid.ki && p.auto
            && var increment := Increment(l.pid.ki, f, Interval(f.dt, now, l.pid.lastTime));
               p.integral == Finite(Summed(l.pid.integral.r, increment, l.pid.lo, hi))
  {
    var p, dt := Prepared(u, l.pid, f), if f.dt.None? then None else Some(f.dt.value.r);
    PreparedIs(u, l, f);
    TheIntervalIs(f.dt, now, l.pid.lastTime);
    CallIntegrates(p, f.input.value.r, dt, now);
    assert StepLoop(u, l, f, now).0.pid == Call(p, f.input.value, dt, now).0;
  }

  // ---------- what it answers ----------

  /** What the derivative term takes away: nothing where there is no reading before this one. */
  function Damping(kd: real, input: real, last: Option<Num>, interval: real): real
    requires interval != 0.0 && FiniteOrNone(last)
  {
    if last.None? then 0.0 else kd * (input - last.value.r) / interval
  }

  lemma DampingIs(kd: real, moved: real, interval: real)
    requires interval != 0.0
    ensures (1.0 / interval) * (-kd * moved) == -(kd * moved / interval)
  {
    var inverse, x := 1.0 / interval, kd * moved;
    assert inverse * interval == 1.0;
    assert -kd * moved == -x;
    assert (inverse * x) * interval == x by {
      assert (inverse * x) * interval == (inverse * interval) * x;
    }
    assert x / interval == inverse * x;
  }

  /** The three terms, and the limits they are brought within. */
  function Wanted(kp: real, error: real, integral: real, damping: real, lo: real, hi: real): real {
    ClampReal(kp * error + integral - damping, lo, hi)
  }

  /** The three terms as the PID adds them up. */
  function Output(kp: real, kd: real, error: real, integral: Num, moved: real, interval: real, lo: real, hi: real): Num
    requires interval != 0.0
  {
    Clamp(Add(Add(Scale(kp, Finite(error)), integral), Scale(1.0 / interval, Scale(-kd, Finite(moved)))), lo, hi)
  }

  lemma TheTermsAre(kp: real, kd: real, error: real, integral: real, moved: real, interval: real, lo: real, hi: real)
    requires interval != 0.0
    ensures Output(kp, kd, error, Finite(integral), moved, interval, lo, hi)
         == Finite(Wanted(kp, error, integral, kd * moved / interval, lo, hi))
  {
    DampingIs(kd, moved, interval);
  }

  /** How far the reading has moved since the one before. */
  function Moved(input: real, last: Option<Num>): real
    requires FiniteOrNone(last)
  {
    if last.None? then 0.0 else input - last.value.r
  }

  lemma DampingOfMoved(kd: real, input: real, last: Option<Num>, interval: real)
    requires interval != 0.0 && FiniteOrNone(last)
    ensures kd * Moved(input, last) / interval == Damping(kd, input, last, interval)
  {
  }

  lemma CallOutput(p: Pid, input: real, dt: Option<real>, now: real)
    requires p.auto && SoundPid(p) && (dt.Some? ==> dt.value > 0.0)
    ensures var (after, out) := Call(p, Finite(input), dt, now);
            var interval := Interval(if dt.Some? then Some(Finite(dt.value)) else None, now, p.lastTime);
            && interval != 0.0
            && out == Some(Output(p.kp, p.kd, p.setpoint.r - input, after.integral, Moved(input, p.lastInput), interval,
                                  p.lo, p.hi))
            && after.lastInput == Some(Finite(input)) && after.lastError == Some(Finite(p.setpoint.r - input))
            && after.lastTime == now
  {
    assert Sub(p.setpoint, Finite(input)) == Finite(p.setpoint.r - input);
    assert Sub(Finite(input), if p.lastInput.Some? then p.lastInput.value else Finite(input))
        == Finite(Moved(input, p.lastInput));
  }

  lemma OutputIs(
    kp: real, kd: real, error: real, integral: Num, input: real, last: Option<Num>, interval: real, lo: real, hi: real)
    requires interval != 0.0 && integral.Finite? && FiniteOrNone(last)
    ensures Output(kp, kd, error, integral, Moved(input, last), interval, lo, hi)
         == Finite(Wanted(kp, error, integral.r, Damping(kd, input, last, interval), lo, hi))
  {
    TheTermsAre(kp, kd, error, integral.r, Moved(input, last), interval, lo, hi);
    DampingOfMoved(kd, input, last, interval);
  }

  lemma PreparedKeepsTheRest(u: Tuning, p: Pid, f: Feed)
    requires Laddered(u) && UsableFeed(u, f)
    ensures var prepared := Prepared(u, p, f);
            && prepared.kp == p.kp && prepared.kd == p.kd
            && prepared.lastInput == p.lastInput && prepared.lastTime == p.lastTime
  {
  }

  /** What a step demands: kp x error, and the integral as this step leaves it, less kd x the rate at
      which the reading moves, which is nothing where no reading came before; brought between the lowest
      rung and the highest the cap allows. What the next step needs of this one is kept. */
  lemma TheDemandIs(u: Tuning, l: Loop, f: Feed, now: real)
    requires Laddered(u) && Sound(u, l) && UsableFeed(u, f) && l.pid.auto
    ensures var (after, r) := StepLoop(u, l, f, now);
            var p, interval := l.pid, Interval(f.dt, now, l.pid.lastTime);
            var setpoint, input, hi := f.setpoint.value.r, f.input.value.r, UpperLimit(u, f, p.hi);
            var integral := Summed(p.integral.r, Increment(p.ki, f, interval), p.lo, hi);
            && r == Demanded(Finite(Wanted(p.kp, setpoint - input, integral,
                                           Damping(p.kd, input, p.lastInput, interval), p.lo, hi)))
            && after.pid.integral == Finite(integral)
            && after.pid.lastInput == Some(f.input.value) && after.pid.lastError == Some(Finite(setpoint - input))
            && after.pid.lastTime == now
  {
    var p, dt := Prepared(u, l.pid, f), if f.dt.None? then None else Some(f.dt.value.r);
    PreparedIs(u, l, f);
    PreparedKeepsTheRest(u, l.pid, f);
    TheIntervalIs(f.dt, now, l.pid.lastTime);
    StepIntegrates(u, l, f, now);
    CallOutput(p, f.input.value.r, dt, now);
    var after := Call(p, f.input.value, dt, now).0;
    assert StepLoop(u, l, f, now).0.pid == after;
    OutputIs(p.kp, p.kd, p.setpoint.r - f.input.value.r, after.integral, f.input.value.r, p.lastInput,
             Interval(f.dt, now, p.lastTime), p.lo, p.hi);
  }

  lemma Grows(kp: real, more: real)
    requires kp > 0.0 && more >= 0.0
    ensures kp * more >= 0.0
  {
  }

  lemma MoreOfAnError(kp: real, small: real, large: real, integral: real, lo: real, hi: real)
    requires kp > 0.0 && small <= large && lo <= hi
    ensures Wanted(kp, small, integral, 0.0, lo, hi) <= Wanted(kp, large, integral, 0.0, lo, hi)
  {
    Grows(kp, large - small);
    assert kp * large == kp * small + kp * (large - small);
  }

  lemma NothingToAdd(f: Feed, interval: real, kd: real, last: Option<Num>)
    requires UsableRule(f.setpoint) && UsableRule(f.input) && interval != 0.0 && FiniteOrNone(last)
    ensures Increment(0.0, f, interval) == 0.0
    ensures kd == 0.0 ==> Damping(kd, f.input.value.r, last, interval) == 0.0
  {
  }

  /** For a proportional loop a larger error never asks for less: a reading further below the setpoint,
      under the same cap, is answered with as much or more. */
  lemma ALargerErrorNeverAsksForLess(u: Tuning, l: Loop, small: Feed, large: Feed, now: real)
    requires Laddered(u) && Sound(u, l) && UsableFeed(u, small) && UsableFeed(u, large) && l.pid.auto
    requires l.pid.ki == 0.0 && l.pid.kd == 0.0 && l.pid.kp > 0.0
    requires small.cap == large.cap
    requires small.setpoint.value.r - small.input.value.r <= large.setpoint.value.r - large.input.value.r
    ensures var less, more := StepLoop(u, l, small, now).1, StepLoop(u, l, large, now).1;
            less.Demanded? && more.Demanded? && less.demand.Finite? && more.demand.Finite?
            && less.demand.r <= more.demand.r
  {
    var p := l.pid;
    TheDemandIs(u, l, small, now);
    TheDemandIs(u, l, large, now);
    NothingToAdd(small, Interval(small.dt, now, p.lastTime), p.kd, p.lastInput);
    NothingToAdd(large, Interval(large.dt, now, p.lastTime), p.kd, p.lastInput);
    var hi := UpperLimit(u, small, p.hi);
    SameCapSameLimit(u, small, large, p.hi);
    LimitsInOrder(u, small, p);
    MoreOfAnError(p.kp, small.setpoint.value.r - small.input.value.r, large.setpoint.value.r - large.input.value.r,
                  Summed(p.integral.r, 0.0, p.lo, hi), p.lo, hi);
  }

  lemma SameCapSameLimit(u: Tuning, f: Feed, g: Feed, hi: real)
    requires Laddered(u) && UsableFeed(u, f) && UsableFeed(u, g) && f.cap == g.cap
    ensures UpperLimit(u, f, hi) == UpperLimit(u, g, hi)
  {
  }

  lemma LimitsInOrder(u: Tuning, f: Feed, p: Pid)
    requires Laddered(u) && UsableFeed(u, f) && p.lo == u.levels[0] && p.lo <= p.hi
    ensures p.lo <= UpperLimit(u, f, p.hi)
  {
    CapKeepsTheBottom(u, f);
  }
}
