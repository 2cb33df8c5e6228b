/** The PID loop of one control and the timed lease on its memory
    (toinflux/controller.py). simple-pid itself is not part of the repository: `Pid` holds
    the state and the behaviour of it that the controller relies on. */
module Controllers {
  import opened Numbers

  const RESUMABLE_HOLD_SECONDS := 1800.0

  // ---------- simple-pid ----------

  datatype Pid = Pid(
    kp: real, ki: real, kd: real,
    lo: real, hi: real,
    setpoint: Num,
    auto: bool,
    integral: Num,
    lastOutput: Option<Num>, lastInput: Option<Num>, lastError: Option<Num>,
    lastTime: real)

  function Clamp(x: Num, lo: real, hi: real): Num {
    if Lt(Finite(hi), x) then Finite(hi) else if Lt(x, Finite(lo)) then Finite(lo) else x
  }

  function ClampOption(x: Option<Num>, lo: real, hi: real): Option<Num> {
    if x.None? then None else Some(Clamp(x.value, lo, hi))
  }

  /** Enabling from manual resets everything, and takes the integral from `lastOutput`. */
  function SetAutoMode(p: Pid, enabled: bool, lastOutput: Option<Num>, now: real): Pid {
    if enabled && !p.auto then
      var start := if lastOutput.Some? then lastOutput.value else Finite(0.0);
      p.(auto := true, integral := Clamp(start, p.lo, p.hi),
         lastOutput := None, lastInput := None, lastError := None, lastTime := now)
    else
      p.(auto := enabled)
  }

  function SetLimits(p: Pid, lo: real, hi: real): Pid {
    p.(lo := lo, hi := hi, integral := Clamp(p.integral, lo, hi), lastOutput := ClampOption(p.lastOutput, lo, hi))
  }

  /** One call of the PID: its new state and its output, which is the last one while manual. */
  function Call(p: Pid, input: Num, dt: Option<real>, now: real): (Pid, Option<Num>)
    requires dt.Some? ==> dt.value > 0.0
  {
    if !p.auto then (p, p.lastOutput)
    else
      var interval := if dt.Some? then dt.value
                      else if now - p.lastTime != 0.0 then now - p.lastTime else 0.0000000000000001;
      var error := Sub(p.setpoint, input);
      var moved := Sub(input, if p.lastInput.Some? then p.lastInput.value else input);
      var integral := Clamp(Add(p.integral, Scale(interval, Scale(p.ki, error))), p.lo, p.hi);
      var derivative := Scale(1.0 / interval, Scale(-p.kd, moved));
      var output := Clamp(Add(Add(Scale(p.kp, error), integral), derivative), p.lo, p.hi);
      (p.(integral := integral, lastOutput := Some(output), lastInput := Some(input),
          lastError := Some(error), lastTime := now), Some(output))
  }

  // ---------- the controller's own state ----------

  /** The part of a control document the loop is built from. `levels` are the levels of the
      ladder in ladder order; `capped` says whether the document has an output.max_level rule. */
  datatype Tuning = Tuning(levels: seq<real>, kp: real, ki: real, kd: real, capped: bool)

  predicate Ascending(levels: seq<real>) {
    forall i, j :: 0 <= i < j < |levels| ==> levels[i] <= levels[j]
  }

  /** What `build_ladder` guarantees: at least one rung, ordered by level. */
  predicate Laddered(u: Tuning) {
    u.levels != [] && Ascending(u.levels)
  }

  datatype Held = Held(integral: Num, at: real)

  datatype Loop = Loop(pid: Pid, held: Option<Held>)

  /** A memory as a file may hold it: each entry a number, or missing or not a number at all. */
  datatype Memory = Memory(integral: Option<Num>, lastInput: Option<Num>, lastError: Option<Num>)

  function Fresh(u: Tuning, now: real): Loop
    requires u.levels != []
  {
    var lo, hi := u.levels[0], u.levels[|u.levels| - 1];
    Loop(Pid(u.kp, u.ki, u.kd, lo, hi, Finite(0.0), true, Clamp(Finite(0.0), lo, hi), None, None, None, now), None)
  }

  function HoldLoop(l: Loop, now: real): Loop {
    Loop(SetAutoMode(l.pid, false, None, now), if l.held.None? then Some(Held(l.pid.integral, now)) else l.held)
  }

  /** The integral worth carrying across a hold that was brief enough. */
  function HeldIntegral(l: Loop, now: real): Option<Num> {
    if l.held.None? then None
    else
      var elapsed := now - l.held.value.at;
      if 0.0 <= elapsed <= RESUMABLE_HOLD_SECONDS && l.held.value.integral.Finite?
      then Some(l.held.value.integral) else None
  }

  function ResumeLoop(l: Loop, lastOutput: Option<Num>, now: real): Loop {
    var kept := HeldIntegral(l, now);
    var p := SetAutoMode(l.pid, true, if lastOutput.None? then kept else lastOutput, now);
    Loop(if kept.None? then p
         else p.(lastInput := if l.pid.lastInput.Some? then l.pid.lastInput else p.lastInput,
                 lastError := if l.pid.lastError.Some? then l.pid.lastError else p.lastError),
         None)
  }

  function UsableOrNone(x: Option<Num>): Option<Num> {
    if x.Some? && x.value.Finite? then x else None
  }

  function CaptureLoop(l: Loop): Memory {
    if l.pid.integral.Finite?
    then Memory(Some(l.pid.integral), UsableOrNone(l.pid.lastInput), UsableOrNone(l.pid.lastError))
    else Memory(None, None, None)
  }

  /** An age that cannot be used is a lease already spent. */
  function Lease(age: Num): real {
    if age.Finite? && age.r >= 0.0 then age.r else RESUMABLE_HOLD_SECONDS + 1.0
  }

  function RestoreLoop(l: Loop, m: Memory, age: Num, now: real): Loop {
    if UsableOrNone(m.integral).None? then l
    else
      var integral := PyMin(Finite(l.pid.hi), PyMax(Finite(l.pid.lo), m.integral.value));
      Loop(l.pid.(auto := false,
                  integral := integral,
                  lastInput := if UsableOrNone(m.lastInput).Some? then m.lastInput else l.pid.lastInput,
                  lastError := if UsableOrNone(m.lastError).Some? then m.lastError else l.pid.lastError),
           Some(Held(integral, now - Lease(age))))
  }

  // ---------- one step ----------

  /** The rungs a cap leaves: those at or below it, or the lowest where there are none. */
  function AtOrBelow(levels: seq<real>, cap: real): seq<real> {
    if levels == [] then []
    else if levels[0] <= cap then [levels[0]] + AtOrBelow(levels[1..], cap)
    else AtOrBelow(levels[1..], cap)
  }

  function CapLadder(levels: seq<real>, cap: real): seq<real>
    requires levels != []
  {
    var allowed := AtOrBelow(levels, cap);
    if allowed == [] then levels[..1] else allowed
  }

  /** What one cycle feeds the loop: the interval where a caller supplies it, and what the
      three rules evaluate to. `cap` is not consulted without an output.max_level rule. */
  datatype Feed = Feed(dt: Option<Num>, setpoint: RuleOutcome, input: RuleOutcome, cap: RuleOutcome)

  /** `CycleFailed` is RuleEvaluationError; `SteppedWhileHeld` is the ConfigError for a
      manual PID that has never produced an output. */
  datatype StepResult = Demanded(demand: Num) | CycleFailed | SteppedWhileHeld

  predicate UsableRule(o: RuleOutcome) {
    o.Gives? && o.value.Finite?
  }

  predicate UsableInterval(dt: Option<Num>) {
    dt.Some? ==> dt.value.Finite? && dt.value.r > 0.0
  }

  predicate UsableFeed(u: Tuning, f: Feed) {
    UsableInterval(f.dt) && UsableRule(f.setpoint) && UsableRule(f.input) && (u.capped ==> UsableRule(f.cap))
  }

  /** The ladder a cycle may use, before any device's minimum narrows it. */
  function CycleLadder(u: Tuning, f: Feed): seq<real>
    requires u.levels != [] && UsableFeed(u, f)
  {
    if u.capped then CapLadder(u.levels, f.cap.value.r) else u.levels
  }

  function StepLoop(u: Tuning, l: Loop, f: Feed, now: real): (Loop, StepResult)
    requires Laddered(u)
  {
    if !UsableFeed(u, f) then (l, CycleFailed)
    else
      var interval := if f.dt.None? then None else Some(f.dt.value.r);
      var (p, out) := Call(Prepared(u, l.pid, f), f.input.value, interval, now);
      (l.(pid := p), if out.None? then SteppedWhileHeld else Demanded(out.value))
  }

  /** The PID as it is called: this cycle's setpoint, and limits that follow the cap. */
  function Prepared(u: Tuning, p: Pid, f: Feed): Pid
    requires Laddered(u) && UsableFeed(u, f)
  {
    CapKeepsTheBottom(u, f);
    var ladder := CycleLadder(u, f);
    var aimed := p.(setpoint := f.setpoint.value);
    if u.capped then SetLimits(aimed, ladder[0], ladder[|ladder| - 1]) else aimed
  }

  // ---------- the class ----------

  class Controller {
    const tuning: Tuning
    var pid: Pid
    var held: Option<Held>

    function State(): Loop
      reads this
    {
      Loop(pid, held)
    }

    constructor (tuning: Tuning, now: real)
      requires tuning.levels != []
      ensures this.tuning == tuning && State() == Fresh(tuning, now)
    {
      this.tuning := tuning;
      var lo, hi := tuning.levels[0], tuning.levels[|tuning.levels| - 1];
      this.pid := Pid(tuning.kp, tuning.ki, tuning.kd, lo, hi, Finite(0.0), true,
                      Clamp(Finite(0.0), lo, hi), None, None, None, now);
      this.held := None;
    }

    method Hold(now: real)
      modifies this
      ensures State() == HoldLoop(old(State()), now)
    {
      // Only the first hold of a run records anything.
      if held.None? {
        held := Some(Held(pid.integral, now));
      }
      pid := SetAutoMode(pid, false, None, now);
    }

    method Resume(lastOutput: Option<Num>, now: real)
      modifies this
      ensures State() == ResumeLoop(old(State()), lastOutput, now)
    {
      var start := lastOutput;
      if start.None? {
        start := HeldIntegral(State(), now);
      }
      var brief := HeldIntegral(State(), now).Some?;
      var lastInput, lastError := pid.lastInput, pid.lastError;
      pid := SetAutoMode(pid, true, start, now);
      if brief {
        // Carried by hand: enabling from manual has just reset both.
        if lastInput.Some? {
          pid := pid.(lastInput := lastInput);
        }
        if lastError.Some? {
          pid := pid.(lastError := lastError);
        }
      }
      held := None;
    }

    method Capture() returns (m: Memory)
      ensures m == CaptureLoop(State())
    {
      if !pid.integral.Finite? {
        return Memory(None, None, None);
      }
      m := Memory(Some(pid.integral), None, None);
      if pid.lastInput.Some? && pid.lastInput.value.Finite? {
        m := m.(lastInput := pid.lastInput);
      }
      if pid.lastError.Some? && pid.lastError.value.Finite? {
        m := m.(lastError := pid.lastError);
      }
    }

    method ResumeFrom(m: Memory, age: Num, now: real)
      modifies this
      ensures State() == RestoreLoop(old(State()), m, age, now)
    {
      if m.integral.None? || !m.integral.value.Finite? {
        return;
      }
      var integral := PyMin(Finite(pid.hi), PyMax(Finite(pid.lo), m.integral.value));
      pid := pid.(integral := integral);
      if m.lastInput.Some? && m.lastInput.value.Finite? {
        pid := pid.(lastInput := m.lastInput);
      }
      if m.lastError.Some? && m.lastError.value.Finite? {
        pid := pid.(lastError := m.lastError);
      }
      var spent := age;
      if !age.Finite? || age.r < 0.0 {
        spent := Finite(RESUMABLE_HOLD_SECONDS + 1.0);
      }
      held := Some(Held(integral, now - spent.r));
      pid := SetAutoMode(pid, false, None, now);
    }

    method Step(f: Feed, now: real) returns (r: StepResult)
      requires Laddered(tuning)
      modifies this
      ensures (State(), r) == StepLoop(tuning, old(State()), f, now)
    {
      if f.dt.Some? && !(f.dt.value.Finite? && f.dt.value.r > 0.0) {
        return CycleFailed;
      }
      if !UsableRule(f.setpoint) || !UsableRule(f.input) {
        return CycleFailed;
      }
      var ladder := tuning.levels;
      if tuning.capped {
        if !UsableRule(f.cap) {
          return CycleFailed;
        }
        ladder := CapLadder(tuning.levels, f.cap.value.r);
      }
      CapKeepsTheBottom(tuning, f);
      pid := pid.(setpoint := f.setpoint.value);
      if tuning.capped {
        // The limits follow the cap.
        pid := SetLimits(pid, ladder[0], ladder[|ladder| - 1]);
      }
      var (stepped, out) := Call(pid, f.input.value, if f.dt.None? then None else Some(f.dt.value.r), now);
      pid := stepped;
      r := if out.None? then SteppedWhileHeld else Demanded(out.value);
    }
  }

  // ---------- the cap is a limit on the ladder ----------

  lemma {:induction false} NoneAtOrBelow(levels: seq<real>, cap: real)
    requires forall x :: x in levels ==> x > cap
    ensures AtOrBelow(levels, cap) == []
  {
    if levels != [] {
      assert levels[0] in levels && forall x :: x in levels[1..] ==> x in levels;
      NoneAtOrBelow(levels[1..], cap);
    }
  }

  lemma {:induction false} AtOrBelowIsAPrefix(levels: seq<real>, cap: real)
    requires Ascending(levels)
    ensures AtOrBelow(levels, cap) <= levels
    ensures forall x :: x in levels ==> (x in AtOrBelow(levels, cap) <==> x <= cap)
  {
    if levels != [] {
      if levels[0] <= cap {
        AtOrBelowIsAPrefix(levels[1..], cap);
      } else {
        NoneAtOrBelow(levels, cap);
      }
    }
  }

  /** Every rung a cycle may use is at or below the cap, or is the lowest one; the lowest rung
      is never removed; no rung at or below the cap is. */
  lemma CapKeepsTheBottom(u: Tuning, f: Feed)
    requires Laddered(u) && UsableFeed(u, f)
    ensures var ladder := CycleLadder(u, f);
            && ladder != [] && ladder <= u.levels && Ascending(ladder)
            && ladder[0] == u.levels[0]
            && (u.capped ==> forall i :: 0 < i < |ladder| ==> ladder[i] <= f.cap.value.r)
            && (u.capped ==> forall x :: x in u.levels && x <= f.cap.value.r ==> x in ladder)
  {
    if u.capped {
      AtOrBelowIsAPrefix(u.levels, f.cap.value.r);
      var allowed := AtOrBelow(u.levels, f.cap.value.r);
      forall i | 0 < i < |allowed|
        ensures allowed[i] <= f.cap.value.r
      {
        assert allowed[i] in allowed;
        assert allowed[i] == u.levels[i];
      }
    }
  }
}
