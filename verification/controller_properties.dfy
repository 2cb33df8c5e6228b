/** What the loop's memory promises over any sequence of calls: it stays finite and inside the
    limits, a brief hold costs nothing, a long one is forgotten, and a restart is judged
    exactly as staying up would have been. */
module ControllerProperties {
  import opened Numbers
  import opened Controllers

  // ---------- any sequence of calls ----------

  datatype Event =
    | Holds(at: real)
    | Resumes(at: real)
    | Restores(memory: Memory, age: Num, at: real)
    | Steps(feed: Feed, at: real)

  function Apply(u: Tuning, l: Loop, e: Event): Loop
    requires Laddered(u)
  {
    match e
    case Holds(at) => HoldLoop(l, at)
    case Resumes(at) => ResumeLoop(l, None, at)
    case Restores(m, age, at) => RestoreLoop(l, m, age, at)
    case Steps(f, at) => StepLoop(u, l, f, at).0
  }

  function ApplyAll(u: Tuning, l: Loop, events: seq<Event>): Loop
    requires Laddered(u)
    decreases |events|
  {
    if events == [] then l else ApplyAll(u, Apply(u, l, events[0]), events[1..])
  }

  /** No NaN and no infinity has entered the PID, its limits are a rung's and the lowest rung's,
      and the integral and the last output lie within them. */
  predicate Sound(u: Tuning, l: Loop)
    requires Laddered(u)
  {
    && SoundPid(l.pid)
    && l.pid.lo == u.levels[0] && l.pid.hi in u.levels
    && (!u.capped ==> l.pid.hi == u.levels[|u.levels| - 1])
  }

  predicate SoundPid(p: Pid) {
    && p.lo <= p.hi
    && p.setpoint.Finite?
    && p.integral.Finite? && p.lo <= p.integral.r <= p.hi
    && (p.lastOutput.Some? ==> p.lastOutput.value.Finite? && p.lo <= p.lastOutput.value.r <= p.hi)
    && FiniteOrNone(p.lastInput) && FiniteOrNone(p.lastError)
  }

  lemma CallStaysSound(p: Pid, input: real, dt: Option<real>, now: real)
    requires SoundPid(p) && (dt.Some? ==> dt.value > 0.0)
    ensures var (after, out) := Call(p, Finite(input), dt, now);
            && SoundPid(after) && after.lo == p.lo && after.hi == p.hi
            && (p.auto ==> out.Some?)
            && (out.Some? ==> out.value.Finite? && p.lo <= out.value.r <= p.hi)
  {
  }

  lemma SetLimitsStaysSound(p: Pid, lo: real, hi: real)
    requires SoundPid(p) && lo <= hi
    ensures SoundPid(SetLimits(p, lo, hi))
  {
  }

  lemma PreparedStaysSound(u: Tuning, l: Loop, f: Feed)
    requires Laddered(u) && Sound(u, l) && UsableFeed(u, f)
    ensures var p := Prepared(u, l.pid, f);
            && Sound(u, l.(pid := p)) && p.auto == l.pid.auto
            && (u.capped ==> p.hi == u.levels[0] || p.hi <= f.cap.value.r)
  {
    if u.capped {
      var ladder := CycleLadder(u, f);
      var top := |ladder| - 1;
      assert ladder[0] == u.levels[0] && u.levels[0] <= ladder[top] && ladder[top] in u.levels
             && (top == 0 || ladder[top] <= f.cap.value.r) by {
        CapKeepsTheBottom(u, f);
        assert ladder[top] == u.levels[top];
      }
      SetLimitsStaysSound(l.pid.(setpoint := f.setpoint.value), ladder[0], ladder[top]);
    }
  }

  /** A step that could not use what it was fed changes nothing, so the next good cycle works;
      one that could answers a finite demand between the lowest rung and the highest one the
      cap allows. */
  lemma StepIsSafe(u: Tuning, l: Loop, f: Feed, now: real)
    requires Laddered(u) && Sound(u, l)
    ensures var (after, r) := StepLoop(u, l, f, now);
            && Sound(u, after)
            && (r.CycleFailed? <==> !UsableFeed(u, f))
            && (r.CycleFailed? ==> after == l)
            && (l.pid.auto ==> !r.SteppedWhileHeld?)
            && (r.Demanded? ==>
                  && r.demand.Finite?
                  && u.levels[0] <= r.demand.r <= u.levels[|u.levels| - 1]
                  && (u.capped ==> r.demand.r == u.levels[0] || r.demand.r <= f.cap.value.r))
  {
    if UsableFeed(u, f) {
      PreparedStaysSound(u, l, f);
      CallStaysSound(Prepared(u, l.pid, f), f.input.value.r, if f.dt.None? then None else Some(f.dt.value.r), now);
    }
  }

  lemma {:induction false} NumericSafety(u: Tuning, l: Loop, events: seq<Event>)
    requires Laddered(u) && Sound(u, l)
    ensures Sound(u, ApplyAll(u, l, events))
    decreases |events|
  {
    if events != [] {
      match events[0] {
        case Steps(f, at) => StepIsSafe(u, l, f, at);
        case _ =>
      }
      NumericSafety(u, Apply(u, l, events[0]), events[1..]);
    }
  }

  lemma FreshIsSound(u: Tuning, now: real)
    requires Laddered(u)
    ensures Sound(u, Fresh(u, now))
  {
    assert u.levels[|u.levels| - 1] in u.levels;
  }

  /** The PID after a run of readings taken `dt` apart. */
  function AfterReadings(p: Pid, inputs: seq<Num>, dt: real, now: real): Pid
    requires dt > 0.0
    decreases |inputs|
  {
    if inputs == [] then p
    else AfterReadings(Call(p, inputs[0], Some(dt), now).0, inputs[1..], dt, now + dt)
  }

  /** Why a value is refused before it reaches the PID: one NaN makes that answer and every later
      one of an unbroken run NaN, however good the readings that follow it. */
  lemma {:induction false} OneNaNPoisonsTheRun(p: Pid, inputs: seq<Num>, dt: real, now: real)
    requires p.auto && dt > 0.0 && inputs != []
    requires inputs[0] == NaN || p.integral == NaN
    ensures AfterReadings(p, inputs, dt, now).lastOutput == Some(NaN)
    decreases |inputs|
  {
    var next := Call(p, inputs[0], Some(dt), now).0;
    assert next.integral == NaN && next.lastOutput == Some(NaN);
    if |inputs| > 1 {
      OneNaNPoisonsTheRun(next, inputs[1..], dt, now + dt);
    } else {
      assert inputs[1..] == [];
    }
  }

  // ---------- the lease on a hold ----------

  predicate OnlyHoldsAndSteps(events: seq<Event>) {
    forall e :: e in events ==> e.Holds? || e.Steps?
  }

  lemma {:induction false} HoldKeepsItsFirstCapture(u: Tuning, l: Loop, later: seq<Event>)
    requires Laddered(u) && OnlyHoldsAndSteps(later)
    requires l.held.Some? && !l.pid.auto
    ensures var after := ApplyAll(u, l, later);
            after.held == l.held && !after.pid.auto
            && after.pid.lastInput == l.pid.lastInput && after.pid.lastError == l.pid.lastError
    decreases |later|
  {
    if later != [] {
      assert later[0] in later;
      HoldKeepsItsFirstCapture(u, Apply(u, l, later[0]), later[1..]);
    }
  }

  /** Whatever holds and steps come between, resuming gives back the integral of the first hold
      if and only if that hold is at most 1800 seconds old; otherwise the loop starts from zero
      with nothing to differentiate against. */
  lemma LeaseRunsFromTheFirstHold(u: Tuning, l: Loop, first: real, later: seq<Event>, now: real)
    requires Laddered(u) && Sound(u, l)
    requires l.held.None? && OnlyHoldsAndSteps(later)
    ensures var before := ApplyAll(u, HoldLoop(l, first), later);
            var after := ResumeLoop(before, None, now);
            var brief := 0.0 <= now - first <= 1800.0;
            && after.pid.auto && after.held.None?
            && after.pid.integral == Clamp(if brief then l.pid.integral else Finite(0.0), before.pid.lo, before.pid.hi)
            && after.pid.lastInput == (if brief then l.pid.lastInput else None)
            && after.pid.lastError == (if brief then l.pid.lastError else None)
  {
    HoldKeepsItsFirstCapture(u, HoldLoop(l, first), later);
  }

  // ---------- a restart buys no leniency ----------

  /** Holding again while already held, at any moments. */
  function HoldAt(l: Loop, moments: seq<real>): Loop
    decreases |moments|
  {
    if moments == [] then l else HoldAt(HoldLoop(l, moments[0]), moments[1..])
  }

  lemma {:induction false} HeldStaysHeld(l: Loop, moments: seq<real>)
    requires l.held.Some? && !l.pid.auto
    ensures HoldAt(l, moments) == l
    decreases |moments|
  {
    if moments != [] {
      assert HoldLoop(l, moments[0]) == l;
      HeldStaysHeld(l, moments[1..]);
    }
  }

  /** The loop memory a process that stayed up has after a hold of `gap` seconds. */
  function StayedUp(l: Loop, now: real, gap: real): Pid {
    ResumeLoop(HoldLoop(l, now), None, now + gap).pid
  }

  /** The loop memory after a restart: captured, restored into a new process at `age`, held again
      any number of times, and resumed `wait` seconds later by that process's own clock. */
  function Restarted(u: Tuning, l: Loop, age: Num, born: real, holds: seq<real>, wait: real): Pid
    requires Laddered(u)
  {
    ResumeLoop(HoldAt(RestoreLoop(Fresh(u, born), CaptureLoop(l), age, born), holds), None, born + wait).pid
  }

  predicate SameMemory(a: Pid, b: Pid) {
    a.integral == b.integral && a.lastInput == b.lastInput && a.lastError == b.lastError
  }

  /** For every age that can be used and every wait, a restarted loop and one that stayed up for
      the same time end with the same memory exactly when the lease is still alive, or zero is
      inside the limits the cap left, or the cap left the whole ladder. Only a cap that leaves
      nothing but negative levels, and not all of them, can tell the two apart. */
  lemma RestartIsStayingUp(u: Tuning, l: Loop, age: Num, now: real, born: real, holds: seq<real>, wait: real)
    requires Laddered(u) && Sound(u, l) && l.held.None? && l.pid.auto
    requires age.Finite? && age.r >= 0.0 && wait >= 0.0
    ensures SameMemory(StayedUp(l, now, age.r + wait), Restarted(u, l, age, born, holds, wait))
            <==> (age.r + wait <= RESUMABLE_HOLD_SECONDS || l.pid.hi >= 0.0 || l.pid.hi == u.levels[|u.levels| - 1])
  {
    var restored := RestoreLoop(Fresh(u, born), CaptureLoop(l), age, born);
    assert restored.pid.integral == l.pid.integral by {
      var i :| 0 <= i < |u.levels| && u.levels[i] == l.pid.hi;
      assert l.pid.hi <= u.levels[|u.levels| - 1];
    }
    HeldStaysHeld(restored, holds);
  }

  /** For a control with no cap, that is every age and every wait. */
  lemma RestartBuysNoLeniency(u: Tuning, l: Loop, age: Num, now: real, born: real, holds: seq<real>, wait: real)
    requires Laddered(u) && Sound(u, l) && l.held.None? && l.pid.auto && !u.capped && wait >= 0.0
    ensures age.Finite? && age.r >= 0.0
            ==> SameMemory(StayedUp(l, now, age.r + wait), Restarted(u, l, age, born, holds, wait))
    ensures !(age.Finite? && age.r >= 0.0)
            ==> (forall gap :: gap > RESUMABLE_HOLD_SECONDS
                   ==> SameMemory(StayedUp(l, now, gap), Restarted(u, l, age, born, holds, wait)))
  {
    if age.Finite? && age.r >= 0.0 {
      RestartIsStayingUp(u, l, age, now, born, holds, wait);
    } else {
      HeldStaysHeld(RestoreLoop(Fresh(u, born), CaptureLoop(l), age, born), holds);
    }
  }

  /** With a cap the two can differ: a ladder of negative levels, capped below its top. */
  lemma ACappedNegativeLadderTellsThemApart()
    ensures var u := Tuning([-20.0, -10.0, -5.0], 1.0, 1.0, 0.0, true);
            var running := Fresh(u, 0.0).(pid := SetLimits(Fresh(u, 0.0).pid, -20.0, -10.0));
            && Laddered(u) && Sound(u, running)
            && !SameMemory(StayedUp(running, 0.0, 7200.0), Restarted(u, running, Finite(7200.0), 0.0, [], 0.0))
  {
    var u := Tuning([-20.0, -10.0, -5.0], 1.0, 1.0, 0.0, true);
    var running := Fresh(u, 0.0).(pid := SetLimits(Fresh(u, 0.0).pid, -20.0, -10.0));
    assert u.levels[1] == -10.0;
    RestartIsStayingUp(u, running, Finite(7200.0), 0.0, 0.0, [], 0.0);
  }
}
