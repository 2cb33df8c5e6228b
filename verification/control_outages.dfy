/** The loop's memory over whole runs of a control: always sound, forgotten after a long outage
    where the gate could not be answered, and renewed by windows that fail before the loop is stepped. */
module ControlOutages {
  import opened Numbers
  import opened Controllers
  import opened ControllerProperties
  import opened Gating
  import opened Commanding
  import opened ControlProcesses
  import opened ControlRuns

  // ---------- the loop through a cycle ----------

  /** The loop a cycle's window is entered with. */
  function Entered(s: Proc, e: Surroundings): Loop {
    ResumeLoop(s.loop, None, e.at)
  }

  lemma ResumingTwice(l: Loop, now: real)
    ensures ResumeLoop(ResumeLoop(l, None, now), None, now) == ResumeLoop(l, None, now)
  {
  }

  lemma HoldingTwice(l: Loop, first: real, second: real)
    ensures HoldLoop(HoldLoop(l, first), second) == HoldLoop(l, first)
  {
  }

  predicate Acting(doc: Document, e: Surroundings) {
    Assess(doc, View(None, 0), e).1 == Acts(true)
  }

  /** What a window makes of the loop it is entered with, given what was gathered. */
  function WindowLoop(doc: Document, l: Loop, got: Reading, e: Surroundings): Loop
    requires Laddered(TuningOf(doc))
  {
    if got.Read? then StepLoop(TuningOf(doc), l, FeedOf(doc, got.bindings, e.dt), e.stepAt).0 else l
  }

  /** The mode the PID was stepped in, and its answer, where it was stepped. */
  function WindowStep(doc: Document, l: Loop, got: Reading, e: Surroundings): Option<(bool, StepResult)>
    requires Laddered(TuningOf(doc))
  {
    if got.Read? then Some((l.pid.auto, StepLoop(TuningOf(doc), l, FeedOf(doc, got.bindings, e.dt), e.stepAt).1))
    else None
  }

  lemma SpentLoop(doc: Document, s: Proc, v: View, e: Surroundings)
    requires Validated(doc)
    ensures var (after, _, _, step) := SpendWindow(doc, s, v, e);
            var got := GatherOnce(v, e).1;
            after.loop == WindowLoop(doc, s.loop, got, e) && step == WindowStep(doc, s.loop, got, e)
  {
    var (v', got) := GatherOnce(v, e);
    if got.Read? {
      PlanKeepsTheGate(doc, SteppedBy(doc, s, got.bindings, e).0, e.plan);
    }
  }

  lemma WindowedLoop(doc: Document, s: Proc, v: View, d: Decision, e: Surroundings)
    requires Validated(doc)
    ensures var (after, r, w) := ActInWindow(doc, s, v, d, e);
            var got := GatherOnce(v, e).1;
            var window := WindowLoop(doc, s.loop, got, e);
            && w.step == WindowStep(doc, s.loop, got, e)
            && w.loopSaw == (if got.Read? then Some(got.bindings) else None)
            && after.loop == (if r.FellSafe? then HoldLoop(window, e.failedAt) else window)
  {
    SpentLoop(doc, s, v, e);
    FailSafeHolds(doc, SpendWindow(doc, s, v, e).0, e);
  }

  /** The loop of a cycle that acts: entered resumed, stepped where the inputs could be read, and
      held again if the window failed. */
  lemma ActingCycle(doc: Document, s: Proc, e: Surroundings)
    requires Validated(doc) && Acting(doc, e)
    ensures var (after, r, w) := RunCycle(doc, s, e);
            var got := GatherOnce(Assess(doc, View(None, 0), e).0, e).1;
            var window := WindowLoop(doc, Entered(s, e), got, e);
            && w.step == WindowStep(doc, Entered(s, e), got, e)
            && w.loopSaw == (if got.Read? then Some(got.bindings) else None)
            && after.loop == (if r.FellSafe? then HoldLoop(window, e.failedAt) else window)
  {
    var v := Assess(doc, View(None, 0), e).0;
    var (memory, d) := Decide(s.acting, true, ClosingState(doc));
    var edged := TakeEdge(doc, s.(acting := memory), d, e).0;
    ResumingTwice(s.loop, e.at);
    var resumed := edged.(loop := ResumeLoop(edged.loop, None, e.at));
    WindowedLoop(doc, resumed, v, d, e);
    assert RunCycle(doc, s, e) == ActInWindow(doc, resumed, v, d, e);
  }

  /** When a cycle that does not act first holds the loop. */
  function HoldTime(doc: Document, e: Surroundings): real {
    if Assess(doc, View(None, 0), e).1.AssessFails? then e.failedAt else e.at
  }

  /** Taking an edge that is not an opening one leaves the loop alone, or holds it. */
  lemma ShuttingEdgeHolds(doc: Document, s: Proc, d: Decision, e: Surroundings)
    requires Validated(doc) && !d.edge.Opened? && (d.apply.Some? ==> d.apply.value == ClosingState(doc))
    ensures var after := TakeEdge(doc, s, d, e).0;
            after.loop == if d.edge.Closed? then HoldLoop(s.loop, e.at) else s.loop
  {
    TellStateReaches(doc, s.(loop := HoldLoop(s.loop, e.at)), ClosingState(doc), e.closingFar, Closing, e.at);
  }

  lemma ShutCycle(doc: Document, s: Proc, v: View, e: Surroundings)
    requires Validated(doc) && !ActOn(doc, s, v, false, e).1.Stopped?
    ensures ActOn(doc, s, v, false, e).0.loop == HoldLoop(s.loop, e.at)
  {
    var (memory, d) := Decide(s.acting, false, ClosingState(doc));
    var (edged, o) := TakeEdge(doc, s.(acting := memory), d, e);
    ShuttingEdgeHolds(doc, s.(acting := memory), d, e);
    HoldingTwice(s.loop, e.at, e.at);
    HoldingTwice(s.loop, e.at, e.failedAt);
    FailSafeHolds(doc, edged, e);
  }

  lemma IdleCycle(doc: Document, s: Proc, e: Surroundings)
    requires Validated(doc) && !Acting(doc, e) && !RunCycle(doc, s, e).1.Stopped?
    ensures RunCycle(doc, s, e).0.loop == HoldLoop(s.loop, HoldTime(doc, e))
  {
    var (v, a) := Assess(doc, View(None, 0), e);
    if a.AssessFails? {
      FailSafeHolds(doc, s, e);
    } else if a.Acts? {
      ShutCycle(doc, s, v, e);
    }
  }

  // ---------- numeric safety over runs ----------

  /** A demand a cycle acted on is finite, on the ladder, and at or below what the cap allowed that
      cycle, or the lowest rung. */
  predicate Bounded(doc: Document, step: Option<(bool, StepResult)>, saw: Option<Bindings>)
    requires Laddered(TuningOf(doc))
  {
    step.Some? && step.value.1.Demanded? ==>
      && saw.Some?
      && var demand := step.value.1.demand;
         && demand.Finite?
         && doc.levels[0] <= demand.r <= doc.levels[|doc.levels| - 1]
         && (doc.maxLevel.Some? ==> UnderTheCap(doc.maxLevel.value(saw.value), demand.r, doc.levels[0]))
  }

  predicate UnderTheCap(cap: RuleOutcome, demand: real, lowest: real) {
    demand == lowest || (cap.Gives? && cap.value.Finite? && demand <= cap.value.r)
  }

  lemma ADemandIsUnderTheCap(doc: Document, l: Loop, b: Bindings, dt: Option<Num>, now: real)
    requires Validated(doc) && Sound(TuningOf(doc), l)
    ensures var (after, r) := StepLoop(TuningOf(doc), l, FeedOf(doc, b, dt), now);
            && Sound(TuningOf(doc), after)
            && (r.Demanded? ==>
                  && r.demand.Finite? && doc.levels[0] <= r.demand.r <= doc.levels[|doc.levels| - 1]
                  && (doc.maxLevel.Some? ==> UnderTheCap(doc.maxLevel.value(b), r.demand.r, doc.levels[0])))
  {
    StepIsSafe(TuningOf(doc), l, FeedOf(doc, b, dt), now);
  }

  lemma WindowIsNumericallySafe(doc: Document, l: Loop, got: Reading, e: Surroundings)
    requires Validated(doc) && Sound(TuningOf(doc), l)
    ensures Sound(TuningOf(doc), WindowLoop(doc, l, got, e))
    ensures Bounded(doc, WindowStep(doc, l, got, e), if got.Read? then Some(got.bindings) else None)
  {
    if got.Read? {
      ADemandIsUnderTheCap(doc, l, got.bindings, e.dt, e.stepAt);
    }
  }

  lemma HoldingStaysSound(u: Tuning, l: Loop, now: real)
    requires Laddered(u) && Sound(u, l)
    ensures Sound(u, HoldLoop(l, now)) && Sound(u, ResumeLoop(l, None, now))
  {
  }

  /** Whatever was read and whatever the rules made of it, the loop is sound after a cycle, and a
      demand it acted on was finite, within the ladder and within the cap. */
  lemma CycleIsNumericallySafe(doc: Document, s: Proc, e: Surroundings)
    requires Validated(doc) && Sound(TuningOf(doc), s.loop)
    ensures Sound(TuningOf(doc), RunCycle(doc, s, e).0.loop)
    ensures Bounded(doc, RunCycle(doc, s, e).2.step, RunCycle(doc, s, e).2.loopSaw)
  {
    if Acting(doc, e) {
      ActingIsNumericallySafe(doc, s, e);
    } else {
      HoldingStaysSound(TuningOf(doc), s.loop, e.at);
      IdleSteps(doc, s, e);
      if RunCycle(doc, s, e).1.Stopped? {
        IdleStop(doc, s, e);
      } else {
        HoldingStaysSound(TuningOf(doc), s.loop, HoldTime(doc, e));
        IdleCycle(doc, s, e);
      }
    }
  }

  lemma ActingIsNumericallySafe(doc: Document, s: Proc, e: Surroundings)
    requires Validated(doc) && Sound(TuningOf(doc), s.loop) && Acting(doc, e)
    ensures Sound(TuningOf(doc), RunCycle(doc, s, e).0.loop)
    ensures Bounded(doc, RunCycle(doc, s, e).2.step, RunCycle(doc, s, e).2.loopSaw)
  {
    var got := GatherOnce(Assess(doc, View(None, 0), e).0, e).1;
    HoldingStaysSound(TuningOf(doc), s.loop, e.at);
    WindowIsNumericallySafe(doc, Entered(s, e), got, e);
    HoldingStaysSound(TuningOf(doc), WindowLoop(doc, Entered(s, e), got, e), e.failedAt);
    ActingCycle(doc, s, e);
  }

  lemma IdleSteps(doc: Document, s: Proc, e: Surroundings)
    requires Validated(doc) && !Acting(doc, e)
    ensures RunCycle(doc, s, e).2.step.None?
  {
  }

  lemma IdleStop(doc: Document, s: Proc, e: Surroundings)
    requires Validated(doc) && !Acting(doc, e) && RunCycle(doc, s, e).1.Stopped?
    ensures var after := RunCycle(doc, s, e).0; after.loop == s.loop || after.loop == HoldLoop(s.loop, e.at)
  {
    var (v, a) := Assess(doc, View(None, 0), e);
    if a.Acts? {
      var (memory, d) := Decide(s.acting, false, ClosingState(doc));
      ShuttingEdgeHolds(doc, s.(acting := memory), d, e);
    }
  }

  lemma {:induction false} RunIsNumericallySafe(doc: Document, s: Proc, es: seq<Surroundings>)
    requires Validated(doc) && Sound(TuningOf(doc), s.loop)
    ensures Sound(TuningOf(doc), RunAll(doc, s, es).0.loop)
    decreases |es|
  {
    if es != [] {
      CycleIsNumericallySafe(doc, s, es[0]);
      var (s', r, _) := RunCycle(doc, s, es[0]);
      if !r.Stopped? {
        RunIsNumericallySafe(doc, s', es[1..]);
      }
    }
  }

  lemma RestoringStaysSound(u: Tuning, l: Loop, m: Memory, age: Num, now: real)
    requires Laddered(u) && Sound(u, l)
    ensures Sound(u, RestoreLoop(l, m, age, now))
  {
  }

  /** From the start of a process, whatever memory it was given, over any run. */
  lemma EveryRunIsNumericallySafe(
    doc: Document, entries: Entries, kept: Option<(Memory, Num)>, inside: bool, far: Far, now: real,
    es: seq<Surroundings>)
    requires Validated(doc)
    ensures Sound(TuningOf(doc), RunAll(doc, StartProcess(doc, entries, kept, inside, far, now).0, es).0.loop)
  {
    var u := TuningOf(doc);
    var fresh_ := Fresh(u, now);
    FreshIsSound(u, now);
    var loop := if kept.None? then fresh_ else RestoreLoop(fresh_, kept.value.0, kept.value.1, now);
    if kept.Some? {
      RestoringStaysSound(u, fresh_, kept.value.0, kept.value.1, now);
    }
    TellStateReaches(doc, Proc(None, loop, map[], entries, None), StartingState(doc, inside), far, Starting, now);
    RunIsNumericallySafe(doc, StartProcess(doc, entries, kept, inside, far, now).0, es);
  }

  /** So every demand of every run is: no cycle ever acts on one above the cap it was given. */
  lemma EveryDemandIsBounded(
    doc: Document, entries: Entries, kept: Option<(Memory, Num)>, inside: bool, far: Far, now: real,
    es: seq<Surroundings>, e: Surroundings)
    requires Validated(doc)
    ensures var w := RunCycle(doc, RunAll(doc, StartProcess(doc, entries, kept, inside, far, now).0, es).0, e).2;
            Bounded(doc, w.step, w.loopSaw)
  {
    EveryRunIsNumericallySafe(doc, entries, kept, inside, far, now, es);
    CycleIsNumericallySafe(doc, RunAll(doc, StartProcess(doc, entries, kept, inside, far, now).0, es).0, e);
  }

  // ---------- an outage where the gate is shut or cannot be answered ----------

  ghost predicate Idle(doc: Document, es: seq<Surroundings>) {
    forall i :: 0 <= i < |es| ==> !Acting(doc, es[i])
  }

  lemma {:induction false} IdleRunHolds(doc: Document, s: Proc, es: seq<Surroundings>)
    requires Validated(doc) && Idle(doc, es) && RunAll(doc, s, es).1
    requires s.loop.held.Some? && !s.loop.pid.auto
    ensures RunAll(doc, s, es).0.loop == s.loop
    decreases |es|
  {
    if es != [] {
      IdleCycle(doc, s, es[0]);
      IdleRunHolds(doc, RunCycle(doc, s, es[0]).0, es[1..]);
    }
  }

  /** However many cycles the gate stays shut or cannot be answered, the loop enters the next window
      with the integral it had before the first of them if and only if that one held it at most
      1800 seconds ago, and with nothing otherwise. */
  lemma LeaseCoversAnIdleOutage(doc: Document, s: Proc, es: seq<Surroundings>, e: Surroundings)
    requires Validated(doc) && Sound(TuningOf(doc), s.loop)
    requires s.loop.pid.auto && s.loop.held.None?
    requires es != [] && Idle(doc, es) && RunAll(doc, s, es).1
    ensures var entered := Entered(RunAll(doc, s, es).0, e);
            var brief := 0.0 <= e.at - HoldTime(doc, es[0]) <= RESUMABLE_HOLD_SECONDS;
            && entered.pid.integral
               == (if brief then s.loop.pid.integral else Clamp(Finite(0.0), s.loop.pid.lo, s.loop.pid.hi))
            && entered.pid.lastInput == (if brief then s.loop.pid.lastInput else None)
            && entered.pid.lastError == (if brief then s.loop.pid.lastError else None)
  {
    IdleCycle(doc, s, es[0]);
    IdleRunHolds(doc, RunCycle(doc, s, es[0]).0, es[1..]);
  }

  /** A restarted process that has idled enters its window with its memory as it was kept. */
  lemma TheIdleRestart(
    doc: Document, entries: Entries, l: Loop, age: Num, inside: bool, far: Far, now: real, es: seq<Surroundings>,
    e: Surroundings)
    requires Validated(doc) && Sound(TuningOf(doc), l) && age.Finite? && Idle(doc, es)
    requires RunAll(doc, StartProcess(doc, entries, Some((CaptureLoop(l), age)), inside, far, now).0, es).1
    ensures var started := StartProcess(doc, entries, Some((CaptureLoop(l), age)), inside, far, now).0;
            Entered(RunAll(doc, started, es).0, e).pid == Restarted(TuningOf(doc), l, age, now, [], e.at - now)
  {
    var u, kept := TuningOf(doc), Some((CaptureLoop(l), age));
    var loop := RestoreLoop(Fresh(u, now), kept.value.0, age, now);
    TellStateReaches(doc, Proc(None, loop, map[], entries, None), StartingState(doc, inside), far, Starting, now);
    IdleRunHolds(doc, StartProcess(doc, entries, kept, inside, far, now).0, es);
    assert now + (e.at - now) == e.at;
  }

  /** A restart is no more lenient than staying up, for the process as for its loop: restarted with the
      memory of a loop that was acting, and idle for as long as it likes, it enters its next window as
      the loop would have that stayed up and was held for the age of that memory and the time since. */
  lemma ARestartedProcessStayedUp(
    doc: Document, entries: Entries, l: Loop, age: Num, inside: bool, far: Far, now: real, es: seq<Surroundings>,
    e: Surroundings, then_: real)
    requires Validated(doc) && Sound(TuningOf(doc), l) && l.held.None? && l.pid.auto
    requires age.Finite? && age.r >= 0.0 && e.at >= now
    requires Idle(doc, es)
    requires RunAll(doc, StartProcess(doc, entries, Some((CaptureLoop(l), age)), inside, far, now).0, es).1
    ensures var started := StartProcess(doc, entries, Some((CaptureLoop(l), age)), inside, far, now).0;
            SameMemory(StayedUp(l, then_, age.r + (e.at - now)), Entered(RunAll(doc, started, es).0, e).pid) <==>
              || age.r + (e.at - now) <= RESUMABLE_HOLD_SECONDS
              || l.pid.hi >= 0.0 || l.pid.hi == doc.levels[|doc.levels| - 1]
  {
    TheIdleRestart(doc, entries, l, age, inside, far, now, es, e);
    RestartIsStayingUp(TuningOf(doc), l, age, then_, now, [], e.at - now);
  }

  // ---------- an outage inside the window ----------

  /** A cycle that acts and then fails before the loop has been stepped: its inputs could not be read,
      or a rule, or the interval, could not be used. */
  predicate FailsInWindow(doc: Document, e: Surroundings) {
    var (v, a) := Assess(doc, View(None, 0), e);
    var got := GatherOnce(v, e).1;
    && a == Acts(true)
    && (got.ReadFails? || (got.Read? && !UsableFeed(TuningOf(doc), FeedOf(doc, got.bindings, e.dt))))
  }

  /** Any cycle of an outage: one that does not act, the gate being shut or past answering, or one that
      fails in its window. */
  predicate InOutage(doc: Document, e: Surroundings) {
    !Acting(doc, e) || FailsInWindow(doc, e)
  }

  lemma FailingWindow(doc: Document, s: Proc, v: View, d: Decision, e: Surroundings)
    requires Validated(doc)
    requires var got := GatherOnce(v, e).1;
             got.ReadFails? || (got.Read? && !UsableFeed(TuningOf(doc), FeedOf(doc, got.bindings, e.dt)))
    ensures ActInWindow(doc, s, v, d, e).1.FellSafe?
    ensures ActInWindow(doc, s, v, d, e).0.loop == HoldLoop(s.loop, e.failedAt)
  {
    WindowedLoop(doc, s, v, d, e);
  }

  lemma FailingCycle(doc: Document, s: Proc, e: Surroundings)
    requires Validated(doc) && FailsInWindow(doc, e)
    ensures RunCycle(doc, s, e).1.FellSafe?
    ensures RunCycle(doc, s, e).0.loop == HoldLoop(Entered(s, e), e.failedAt)
  {
    var v := Assess(doc, View(None, 0), e).0;
    var (memory, d) := Decide(s.acting, true, ClosingState(doc));
    var edged := TakeEdge(doc, s.(acting := memory), d, e).0;
    ResumingTwice(s.loop, e.at);
    FailingWindow(doc, edged.(loop := ResumeLoop(edged.loop, None, e.at)), v, d, e);
  }

  /** The moment of the last hold of an outage, held since `since`: each window it fails in holds the
      loop anew, and a cycle that does not act leaves the hold alone. */
  function LastHold(doc: Document, es: seq<Surroundings>, since: real): real {
    if es == [] then since else LastHold(doc, es[1..], if Acting(doc, es[0]) then es[0].failedAt else since)
  }

  /** No window of the outage was entered more than 1800 seconds after the hold before it. */
  predicate EveryHoldBrief(doc: Document, es: seq<Surroundings>, since: real) {
    es == []
    || (if Acting(doc, es[0])
        then 0.0 <= es[0].at - since <= RESUMABLE_HOLD_SECONDS && EveryHoldBrief(doc, es[1..], es[0].failedAt)
        else EveryHoldBrief(doc, es[1..], since))
  }

  ghost predicate Outage(doc: Document, es: seq<Surroundings>) {
    forall i :: 0 <= i < |es| ==> InOutage(doc, es[i])
  }

  function Zero(p: Pid): Num {
    Clamp(Finite(0.0), p.lo, p.hi)
  }

  lemma HeldCycle(doc: Document, s: Proc, e: Surroundings)
    requires Validated(doc) && Sound(TuningOf(doc), s.loop) && InOutage(doc, e) && !RunCycle(doc, s, e).1.Stopped?
    requires s.loop.held.Some? && !s.loop.pid.auto && s.loop.held.value.integral == s.loop.pid.integral
    ensures var after, since := RunCycle(doc, s, e).0.loop, s.loop.held.value.at;
            && !after.pid.auto && after.pid.lo == s.loop.pid.lo && after.pid.hi == s.loop.pid.hi
            && after.pid.integral == (if Acting(doc, e) && !(0.0 <= e.at - since <= RESUMABLE_HOLD_SECONDS)
                                      then Zero(s.loop.pid) else s.loop.pid.integral)
            && after.held == Some(Held(after.pid.integral, if Acting(doc, e) then e.failedAt else since))
  {
    if Acting(doc, e) {
      FailingCycle(doc, s, e);
    } else {
      IdleCycle(doc, s, e);
    }
  }

  lemma {:induction false} HoldsDecide(doc: Document, s: Proc, es: seq<Surroundings>)
    requires Validated(doc) && Sound(TuningOf(doc), s.loop) && Outage(doc, es) && RunAll(doc, s, es).1
    requires s.loop.held.Some? && !s.loop.pid.auto && s.loop.held.value.integral == s.loop.pid.integral
    ensures var after, since := RunAll(doc, s, es).0.loop, s.loop.held.value.at;
            && !after.pid.auto && after.pid.lo == s.loop.pid.lo && after.pid.hi == s.loop.pid.hi
            && after.pid.integral == (if EveryHoldBrief(doc, es, since) then s.loop.pid.integral else Zero(s.loop.pid))
            && after.held == Some(Held(after.pid.integral, LastHold(doc, es, since)))
    decreases |es|
  {
    if es != [] {
      var next := RunCycle(doc, s, es[0]).0;
      HeldCycle(doc, s, es[0]);
      CycleIsNumericallySafe(doc, s, es[0]);
      HoldsDecide(doc, next, es[1..]);
    }
  }

  /** When the first cycle of an outage holds the loop. */
  function FirstHold(doc: Document, e: Surroundings): real {
    if Acting(doc, e) then e.failedAt else HoldTime(doc, e)
  }

  /** Over an outage of any cycles that do not act or fail in their window before the loop is stepped, in
      any order and for any length of time, the loop enters its next window with the integral it had
      before if and only if each window, and that one, is entered at most 1800 seconds after the hold
      before it, where every failing window is a hold of its own. So it is not the first hold that
      decides, and the promise that a hold older than 1800 seconds is not resumed from covers only the
      cycles that do not act. */
  lemma AFailingWindowRenewsTheLease(doc: Document, s: Proc, es: seq<Surroundings>, e: Surroundings)
    requires Validated(doc) && Sound(TuningOf(doc), s.loop) && s.loop.pid.auto && s.loop.held.None?
    requires es != [] && Outage(doc, es) && RunAll(doc, s, es).1
    ensures var first := FirstHold(doc, es[0]);
            var kept := EveryHoldBrief(doc, es[1..], first)
                        && 0.0 <= e.at - LastHold(doc, es[1..], first) <= RESUMABLE_HOLD_SECONDS;
            Entered(RunAll(doc, s, es).0, e).pid.integral == if kept then s.loop.pid.integral else Zero(s.loop.pid)
  {
    var next := RunCycle(doc, s, es[0]).0;
    FirstHoldKeeps(doc, s, es[0]);
    CycleIsNumericallySafe(doc, s, es[0]);
    HoldsDecide(doc, next, es[1..]);
  }

  lemma FirstHoldKeeps(doc: Document, s: Proc, e: Surroundings)
    requires Validated(doc) && Sound(TuningOf(doc), s.loop) && s.loop.pid.auto && s.loop.held.None?
    requires InOutage(doc, e) && !RunCycle(doc, s, e).1.Stopped?
    ensures var after := RunCycle(doc, s, e).0.loop;
            && !after.pid.auto && after.pid.lo == s.loop.pid.lo && after.pid.hi == s.loop.pid.hi
            && after.pid.integral == s.loop.pid.integral
            && after.held == Some(Held(s.loop.pid.integral, FirstHold(doc, e)))
  {
    if Acting(doc, e) {
      FailingCycle(doc, s, e);
    } else {
      IdleCycle(doc, s, e);
    }
  }

  // ---------- hours that are resumed from ----------

  /** A control whose gate is open and whose setpoint is not a number. */
  predicate Faulty(doc: Document) {
    && doc.enabled && doc.period.None?
    && doc.enableWhen.Some? && doc.enableWhen.value(map[]) == GivesBool(true)
    && doc.setpoint(map[]) == Gives(NaN)
  }

  function FaultyLamp(): Document {
    LampUntilZero().(period := None, enableWhen := Some(_ => GivesBool(true)), setpoint := _ => Gives(NaN))
  }

  lemma FaultyLampIsValidated()
    ensures Validated(FaultyLamp()) && Faulty(FaultyLamp())
  {
    LampIsValidated();
    assert FaultyLamp().plant == LampUntilZero().plant && TuningOf(FaultyLamp()) == TuningOf(LampUntilZero());
  }

  /** A cycle each minute, with every input read and every device willing. */
  function Minute(i: int): Surroundings {
    var now, willing := 60.0 * i as real, Far(map[], map[]);
    Surroundings(now, now, now, true, Read(map[]), Read(map[]), None, [], willing, willing)
  }

  function Minutes(from: int, n: nat): seq<Surroundings>
    decreases n
  {
    if n == 0 then [] else [Minute(from)] + Minutes(from + 1, n - 1)
  }

  lemma {:induction false} MinutesOfFaults(doc: Document, s: Proc, from: int, n: nat)
    requires Validated(doc) && Faulty(doc)
    ensures |Minutes(from, n)| == n && Outage(doc, Minutes(from, n)) && RunAll(doc, s, Minutes(from, n)).1
    decreases n
  {
    if n > 0 {
      var es := Minutes(from, n);
      assert es[0] == Minute(from) && es[1..] == Minutes(from + 1, n - 1);
      assert FailsInWindow(doc, es[0]);
      FailingCycle(doc, s, es[0]);
      MinutesOfFaults(doc, RunCycle(doc, s, es[0]).0, from + 1, n - 1);
    }
  }

  lemma {:induction false} EachMinuteIsBrief(doc: Document, from: int, n: nat)
    requires Validated(doc) && Faulty(doc)
    ensures EveryHoldBrief(doc, Minutes(from, n), 60.0 * (from - 1) as real)
    ensures LastHold(doc, Minutes(from, n), 60.0 * (from - 1) as real) == 60.0 * (from + n - 1) as real
    decreases n
  {
    if n > 0 {
      var es := Minutes(from, n);
      assert es[0] == Minute(from) && es[1..] == Minutes(from + 1, n - 1);
      assert Acting(doc, es[0]);
      EachMinuteIsBrief(doc, from + 1, n - 1);
    }
  }

  /** However many hours the setpoint is not a number, a loop that was acting resumes from the integral
      it had before: where the gate had been shut as long, it would have been forgotten after thirty
      minutes. */
  lemma HoursOfAFaultAreResumedFrom(doc: Document, s: Proc, n: nat)
    requires Validated(doc) && Faulty(doc) && n > 0
    requires Sound(TuningOf(doc), s.loop) && s.loop.pid.auto && s.loop.held.None?
    ensures Entered(RunAll(doc, s, Minutes(0, n)).0, Minute(n)).pid.integral == s.loop.pid.integral
  {
    var es := Minutes(0, n);
    assert es[0] == Minute(0) && es[1..] == Minutes(1, n - 1);
    MinutesOfFaults(doc, s, 0, n);
    EachMinuteIsBrief(doc, 1, n - 1);
    AFailingWindowRenewsTheLease(doc, s, es, Minute(n));
  }
}
