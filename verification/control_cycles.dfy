/** What one cycle comes to, told from what it meets: whether it acts, how it ends, what it demands, and
    what each device hears of it (ControlProcess.cycle in toinflux/control_process.py; Gate.decide and
    its conditions in toinflux/gating.py). */
module ControlCycles {
  import opened Numbers
  import opened Controllers
  import opened ControllerProperties
  import opened ControllerSteps
  import opened Gating
  import opened Commanding
  import opened Deliveries
  import opened ControlProcesses
  import opened ControlRuns
  import opened ControlOutages

  // ---------- whether it acts ----------

  predicate RuleAllows(o: RuleOutcome) {
    o == GivesBool(true) || (o.Gives? && o.value.Finite? && o.value.r != 0.0)
  }

  predicate RuleAnswers(o: RuleOutcome) {
    o.GivesBool? || (o.Gives? && o.value.Finite?)
  }

  /** The switch and the clock leave it to the rule. */
  predicate LeftToTheRule(doc: Document, e: Surroundings) {
    doc.enabled && (doc.period.Some? ==> e.inside) && doc.enableWhen.Some?
  }

  predicate Answerable(doc: Document, e: Surroundings) {
    LeftToTheRule(doc, e) ==> e.first.Read? && RuleAnswers(doc.enableWhen.value(e.first.bindings))
  }

  /** Enabled, inside its period where it has one, and its rule, where it has one, was read and allows it. */
  predicate MayAct(doc: Document, e: Surroundings) {
    && doc.enabled && (doc.period.Some? ==> e.inside)
    && (doc.enableWhen.Some? ==> e.first.Read? && RuleAllows(doc.enableWhen.value(e.first.bindings)))
  }

  lemma AssessedAsItMay(doc: Document, e: Surroundings)
    ensures Assess(doc, View(None, 0), e).1
         == (if MayAct(doc, e) then Acts(true)
             else if Answerable(doc, e) then Acts(false)
             else if e.first.ReadStops? then AssessStops else AssessFails)
  {
    if doc.enableWhen.Some? && e.first.Read? {
      AnUnanswerableGateIsNotOpen(doc.enableWhen.value(e.first.bindings));
    }
  }

  /** No device was told a rung that it had not been told before. */
  ghost predicate NoNewRung(before: Proc, after: Proc) {
    forall k :: k in after.told && after.told[k].origin == Rung ==> k in before.told && before.told[k] == after.told[k]
  }

  /** A process that is not acting opens in a cycle, and any process steps its loop in one whose inputs
      are read, if and only if the document is enabled, inside its period where it has one, and its rule,
      where it has one, was read and gave true or a finite number other than zero. In any other cycle
      nothing is stepped, no rung is told, and the report, where there is one, is of not acting. */
  lemma ExactlyWhenItActs(doc: Document, s: Proc, e: Surroundings)
    requires Validated(doc)
    ensures var (after, r, w) := RunCycle(doc, s, e);
            && (s.acting != Some(true) ==> (after.acting == Some(true) <==> MayAct(doc, e)))
            && (w.step.Some? <==> MayAct(doc, e) && e.first.Read?)
            && (r.Completed? ==> (r.decision.actuating <==> MayAct(doc, e)))
            && (!MayAct(doc, e) ==> NoNewRung(s, after))
  {
    AssessedAsItMay(doc, e);
    if MayAct(doc, e) {
      AnActingCycle(doc, s, e);
      AnActingCycleSteps(doc, s, e);
    } else {
      AShutCycle(doc, s, e);
    }
  }

  lemma LeftOrToldTellsNoRung(doc: Document, before: Proc, after: Proc, state: SafeState, origin: Origin)
    requires LeftOrTold(doc, before, after, state, origin) && origin != Rung
    ensures NoNewRung(before, after) && after.acting == before.acting
  {
    forall k | k in after.told && after.told[k].origin == Rung
      ensures k in before.told && before.told[k] == after.told[k]
    {
      assert !TheyWereTold(doc, after, state, origin, k);
    }
  }

  lemma ThenNoRungEither(first: Proc, second: Proc, third: Proc)
    requires NoNewRung(first, second) && NoNewRung(second, third)
    ensures NoNewRung(first, third)
  {
  }

  lemma FailSafeTellsNoRung(doc: Document, s: Proc, e: Surroundings)
    requires Validated(doc)
    ensures NoNewRung(s, FailSafe(doc, s, e)) && FailSafe(doc, s, e).acting == s.acting
  {
    FailSafeReaches(doc, s, e);
    LeftOrToldTellsNoRung(doc, s.(loop := HoldLoop(s.loop, e.failedAt)), FailSafe(doc, s, e), doc.safeState, Safe);
  }

  lemma FinishingTellsNoRung(doc: Document, s: Proc, o: Outcome, d: Decision, e: Surroundings)
    requires Validated(doc)
    ensures var (after, r) := FinishCycle(doc, s, o, d, e);
            NoNewRung(s, after) && after.acting == s.acting && (r.Completed? ==> r.decision == d)
  {
    FailSafeTellsNoRung(doc, s, e);
  }

  lemma ClosingTellsNoRung(doc: Document, s: Proc, e: Surroundings)
    requires Validated(doc)
    ensures NoNewRung(s, TellState(doc, s, ClosingState(doc), e.closingFar, Closing, e.at).0)
  {
    TellStateReaches(doc, s, ClosingState(doc), e.closingFar, Closing, e.at);
    LeftOrToldTellsNoRung(doc, s, TellState(doc, s, ClosingState(doc), e.closingFar, Closing, e.at).0,
                          ClosingState(doc), Closing);
  }

  lemma ShuttingTellsNoRung(doc: Document, s: Proc, d: Decision, e: Surroundings)
    requires Validated(doc) && d == Decide(s.acting, false, ClosingState(doc)).1
    ensures var edged := TakeEdge(doc, s, d, e).0;
            NoNewRung(s, edged) && (s.acting != Some(true) ==> edged.acting == s.acting)
  {
    if d.edge.Closed? {
      ClosingTellsNoRung(doc, s.(loop := HoldLoop(s.loop, e.at)), e);
    }
  }

  lemma AnActingCycle(doc: Document, s: Proc, e: Surroundings)
    requires Validated(doc) && Acting(doc, e)
    ensures var (after, r, w) := RunCycle(doc, s, e);
            after.acting == Some(true) && (r.Completed? ==> r.decision.actuating)
  {
    var v := Assess(doc, View(None, 0), e).0;
    var (memory, d) := Decide(s.acting, true, ClosingState(doc));
    var edged := TakeEdge(doc, s.(acting := memory), d, e).0;
    var resumed := edged.(loop := ResumeLoop(edged.loop, None, e.at));
    var (spent, _, o, _) := SpendWindow(doc, resumed, v, e);
    WindowKeepsTheGate(doc, resumed, v, e);
    FinishingTellsNoRung(doc, spent, o, d, e);
    assert RunCycle(doc, s, e) == ActInWindow(doc, resumed, v, d, e);
  }

  lemma AnActingCycleSteps(doc: Document, s: Proc, e: Surroundings)
    requires Validated(doc) && Acting(doc, e) && MayAct(doc, e)
    ensures RunCycle(doc, s, e).2.step.Some? <==> e.first.Read?
  {
    ActingCycle(doc, s, e);
    assert GatherOnce(Assess(doc, View(None, 0), e).0, e).1.Read? <==> e.first.Read?;
  }

  lemma AShutCycle(doc: Document, s: Proc, e: Surroundings)
    requires Validated(doc) && !Acting(doc, e)
    ensures var (after, r, w) := RunCycle(doc, s, e);
            && (s.acting != Some(true) ==> after.acting != Some(true)) && w.step.None?
            && (r.Completed? ==> !r.decision.actuating) && NoNewRung(s, after)
  {
    var (v, a) := Assess(doc, View(None, 0), e);
    if a.AssessFails? {
      FailSafeTellsNoRung(doc, s, e);
    } else if a.Acts? {
      AShutGate(doc, s, v, e);
    }
  }

  lemma AShutGate(doc: Document, s: Proc, v: View, e: Surroundings)
    requires Validated(doc)
    ensures var (after, r, w) := ActOn(doc, s, v, false, e);
            && (s.acting != Some(true) ==> after.acting != Some(true)) && w.step.None?
            && (r.Completed? ==> !r.decision.actuating) && NoNewRung(s, after)
  {
    var (memory, d) := Decide(s.acting, false, ClosingState(doc));
    var (edged, o) := TakeEdge(doc, s.(acting := memory), d, e);
    ShuttingTellsNoRung(doc, s.(acting := memory), d, e);
    FinishingTellsNoRung(doc, edged, o, d, e);
    ThenNoRungEither(s.(acting := memory), edged, FinishCycle(doc, edged, o, d, e).0);
  }

  /** What a cycle that ends normally answers: whether it acted; an opening edge exactly where the process
      was not acting before, a closing one, with the closing state to apply, exactly where it was, and
      neither where nothing changed or nothing was known. */
  lemma WhatACycleAnswers(doc: Document, s: Proc, e: Surroundings)
    requires Validated(doc) && RunCycle(doc, s, e).1.Completed?
    ensures var d, may := RunCycle(doc, s, e).1.decision, MayAct(doc, e);
            && d.actuating == may
            && (d.edge.Opened? <==> may && s.acting == Some(false))
            && (d.edge.Closed? <==> !may && s.acting == Some(true))
            && d.apply == if d.edge.Closed? then Some(ClosingState(doc)) else None
  {
    AssessedAsItMay(doc, e);
    var (v, a) := Assess(doc, View(None, 0), e);
    TheDecisionIs(doc, s, v, a.acting, e);
  }

  lemma TheDecisionIs(doc: Document, s: Proc, v: View, acting: bool, e: Surroundings)
    requires Validated(doc) && ActOn(doc, s, v, acting, e).1.Completed?
    ensures ActOn(doc, s, v, acting, e).1.decision == Decide(s.acting, acting, ClosingState(doc)).1
  {
    var (memory, d) := Decide(s.acting, acting, ClosingState(doc));
    var (edged, o) := TakeEdge(doc, s.(acting := memory), d, e);
    if o.Fine? && d.actuating {
      var (spent, _, ended, _) := SpendWindow(doc, edged.(loop := ResumeLoop(edged.loop, None, e.at)), v, e);
      assert FinishCycle(doc, spent, ended, d, e).1.Completed? ==> FinishCycle(doc, spent, ended, d, e).1.decision == d;
    }
  }

  // ---------- how it ends ----------

  predicate Numeric(o: RuleOutcome) {
    o.Gives? && o.value.Finite?
  }

  /** The rules give numbers, and the interval, where one is supplied, is one. */
  predicate Steppable(doc: Document, b: Bindings, dt: Option<Num>) {
    && (dt.Some? ==> dt.value.Finite? && dt.value.r > 0.0)
    && Numeric(doc.setpoint(b)) && Numeric(doc.input(b))
    && (doc.maxLevel.Some? ==> Numeric(doc.maxLevel.value(b)))
  }

  /** The first fault the plan's commands meet. */
  function FirstFault(doc: Document, plan: seq<Dwell>): Option<Fault> {
    if plan == [] then None
    else
      var fault := Command(doc.plant, plan[0].far, plan[0].orders).fault;
      if fault.Some? then fault else FirstFault(doc, plan[1..])
  }

  /** The fault of the closing command, where one is due and sent. */
  function ClosingFault(doc: Document, s: Proc, e: Surroundings): Option<Fault>
    requires Declared(doc.plant.keys, doc.plant.devices)
  {
    var commands := CommandsFor(ClosingState(doc), doc.plant.keys, doc.plant.devices);
    if s.acting == Some(true) && Delivers(ClosingState(doc)) && commands.Give?
    then Command(doc.plant, e.closingFar, commands.orders).fault else None
  }

  /** What stands between this cycle and its normal end, whichever comes first: a gate that cannot be
      answered, a closing command that fails, inputs that cannot be read, a rule that gives no number, or
      a rung that cannot be commanded. A configuration fault is one no later cycle can recover from. */
  function CycleFault(doc: Document, s: Proc, e: Surroundings): Option<Fault>
    requires Declared(doc.plant.keys, doc.plant.devices)
  {
    if !Answerable(doc, e) || (MayAct(doc, e) && !e.first.Read?) then
      Some(if e.first.ReadStops? then Configuration else Connection)
    else if !MayAct(doc, e) then ClosingFault(doc, s, e)
    else if !Steppable(doc, e.first.bindings, e.dt) then Some(Connection)
    else FirstFault(doc, e.plan)
  }

  /** A cycle ends normally exactly where nothing stood in its way; with the safe state exactly where a
      fault did that a later cycle may not meet; and stops the process exactly for a configuration
      fault. */
  lemma TheFaultDecidesTheReport(doc: Document, s: Proc, e: Surroundings)
    requires Validated(doc)
    ensures var r, fault := RunCycle(doc, s, e).1, CycleFault(doc, s, e);
            && (r.Completed? <==> fault.None?)
            && (r.FellSafe? <==> fault == Some(Connection))
            && (r.Stopped? <==> fault == Some(Configuration))
  {
    AssessedAsItMay(doc, e);
    var (v, a) := Assess(doc, View(None, 0), e);
    if a.Acts? {
      if a.acting {
        TheWindowDecides(doc, s, v, e);
      } else {
        TheClosingDecides(doc, s, v, e);
      }
    }
  }

  predicate EndsFor(r: Report, fault: Option<Fault>) {
    && (r.Completed? <==> fault.None?)
    && (r.FellSafe? <==> fault == Some(Connection))
    && (r.Stopped? <==> fault == Some(Configuration))
  }

  lemma FinishedFor(doc: Document, s: Proc, fault: Option<Fault>, d: Decision, e: Surroundings)
    requires Validated(doc)
    ensures EndsFor(FinishCycle(doc, s, OutcomeOf(fault), d, e).1, fault)
  {
  }

  lemma TheClosingDecides(doc: Document, s: Proc, v: View, e: Surroundings)
    requires Validated(doc)
    ensures EndsFor(ActOn(doc, s, v, false, e).1, ClosingFault(doc, s, e))
  {
    var (memory, d) := Decide(s.acting, false, ClosingState(doc));
    var (edged, o) := TakeEdge(doc, s.(acting := memory), d, e);
    TheEdgeFails(doc, s.(acting := memory), s, d, e);
    FinishedFor(doc, edged, ClosingFault(doc, s, e), d, e);
  }

  lemma TheEdgeFails(doc: Document, s: Proc, before: Proc, d: Decision, e: Surroundings)
    requires Validated(doc) && s == before.(acting := Decide(before.acting, false, ClosingState(doc)).0)
    requires d == Decide(before.acting, false, ClosingState(doc)).1
    ensures TakeEdge(doc, s, d, e).1 == OutcomeOf(ClosingFault(doc, before, e)) && !d.actuating
  {
  }

  lemma {:induction false} ThePlanFails(doc: Document, s: Proc, plan: seq<Dwell>)
    ensures SpendPlan(doc, s, plan).1 == OutcomeOf(FirstFault(doc, plan))
    decreases |plan|
  {
    if plan != [] {
      ThePlanFails(doc, Tell(doc, s, plan[0].orders, plan[0].far, Rung, plan[0].at).0, plan[1..]);
    }
  }

  /** What stops a window, once its inputs have been asked for. */
  function WindowFault(doc: Document, r: Reading, e: Surroundings): Option<Fault> {
    match r
    case ReadFails => Some(Connection)
    case ReadStops => Some(Configuration)
    case Read(b) => if !Steppable(doc, b, e.dt) then Some(Connection) else FirstFault(doc, e.plan)
  }

  lemma TheStepFails(doc: Document, s: Proc, b: Bindings, e: Surroundings)
    requires Validated(doc) && s.loop.pid.auto
    ensures var step := SteppedBy(doc, s, b, e).1;
            (step.CycleFailed? <==> !Steppable(doc, b, e.dt)) && !step.SteppedWhileHeld?
  {
    AutomaticStepAnswers(TuningOf(doc), s.loop, FeedOf(doc, b, e.dt), e.stepAt);
  }

  lemma TheWindowFails(doc: Document, s: Proc, v: View, e: Surroundings)
    requires Validated(doc) && s.loop.pid.auto
    ensures SpendWindow(doc, s, v, e).2 == OutcomeOf(WindowFault(doc, GatherOnce(v, e).1, e))
  {
    var r := GatherOnce(v, e).1;
    if r.Read? {
      TheStepFails(doc, s, r.bindings, e);
      ThePlanFails(doc, SteppedBy(doc, s, r.bindings, e).0, e.plan);
    }
  }

  lemma TheWindowDecides(doc: Document, s: Proc, v: View, e: Surroundings)
    requires Validated(doc) && Assess(doc, View(None, 0), e) == (v, Acts(true)) && MayAct(doc, e)
    ensures EndsFor(ActOn(doc, s, v, true, e).1, CycleFault(doc, s, e))
  {
    var (memory, d) := Decide(s.acting, true, ClosingState(doc));
    var edged := TakeEdge(doc, s.(acting := memory), d, e).0;
    var resumed := edged.(loop := ResumeLoop(edged.loop, None, e.at));
    ResumedIsAutomatic(edged.loop, e.at);
    TheWindowFails(doc, resumed, v, e);
    WhatTheWindowReads(doc, v, e);
    var (spent, _, o, _) := SpendWindow(doc, resumed, v, e);
    FinishedFor(doc, spent, CycleFault(doc, s, e), d, e);
    assert ActOn(doc, s, v, true, e) == ActInWindow(doc, resumed, v, d, e);
  }

  lemma WhatTheWindowReads(doc: Document, v: View, e: Surroundings)
    requires Assess(doc, View(None, 0), e) == (v, Acts(true)) && MayAct(doc, e)
    ensures GatherOnce(v, e).1 == e.first
  {
  }

  // ---------- what it demands ----------

  /** The gains are the document's. */
  predicate Tuned(doc: Document, l: Loop) {
    l.pid.kp == doc.kp && l.pid.ki == doc.ki && l.pid.kd == doc.kd
  }

  lemma StepKeepsTheGains(u: Tuning, l: Loop, f: Feed, now: real)
    requires Laddered(u)
    ensures var after := StepLoop(u, l, f, now).0.pid;
            after.kp == l.pid.kp && after.ki == l.pid.ki && after.kd == l.pid.kd
  {
  }

  lemma CycleKeepsTheGains(doc: Document, s: Proc, e: Surroundings)
    requires Validated(doc) && Tuned(doc, s.loop)
    ensures Tuned(doc, RunCycle(doc, s, e).0.loop)
  {
    if Acting(doc, e) {
      ActingCycle(doc, s, e);
      var got := GatherOnce(Assess(doc, View(None, 0), e).0, e).1;
      if got.Read? {
        StepKeepsTheGains(TuningOf(doc), Entered(s, e), FeedOf(doc, got.bindings, e.dt), e.stepAt);
      }
    } else {
      AShutCycleKeepsTheGains(doc, s, e);
    }
  }

  lemma HoldingKeepsTheGains(doc: Document, l: Loop, now: real)
    ensures Tuned(doc, HoldLoop(l, now)) <==> Tuned(doc, l)
  {
  }

  lemma AShutCycleKeepsTheGains(doc: Document, s: Proc, e: Surroundings)
    requires Validated(doc) && Tuned(doc, s.loop) && !Acting(doc, e)
    ensures Tuned(doc, RunCycle(doc, s, e).0.loop)
  {
    HoldingKeepsTheGains(doc, s.loop, HoldTime(doc, e));
    HoldingKeepsTheGains(doc, s.loop, e.at);
    if RunCycle(doc, s, e).1.Stopped? {
      IdleStop(doc, s, e);
    } else {
      IdleCycle(doc, s, e);
    }
  }

  lemma {:induction false} RunKeepsTheGains(doc: Document, s: Proc, es: seq<Surroundings>)
    requires Validated(doc) && Tuned(doc, s.loop)
    ensures Tuned(doc, RunAll(doc, s, es).0.loop)
    decreases |es|
  {
    if es != [] {
      CycleKeepsTheGains(doc, s, es[0]);
      RunKeepsTheGains(doc, RunCycle(doc, s, es[0]).0, es[1..]);
    }
  }

  /** The highest rung this cycle may reach. */
  function TopAllowed(doc: Document, b: Bindings): real
    requires Validated(doc) && (doc.maxLevel.Some? ==> Numeric(doc.maxLevel.value(b)))
  {
    if doc.maxLevel.None? then doc.levels[|doc.levels| - 1]
    else
      var ladder := CapLadder(doc.levels, doc.maxLevel.value(b).value.r);
      ladder[|ladder| - 1]
  }

  lemma TopAllowedIs(doc: Document, b: Bindings, dt: Option<Num>, l: Loop)
    requires Validated(doc) && Steppable(doc, b, dt) && Sound(TuningOf(doc), l)
    ensures UsableFeed(TuningOf(doc), FeedOf(doc, b, dt))
    ensures UpperLimit(TuningOf(doc), FeedOf(doc, b, dt), l.pid.hi) == TopAllowed(doc, b)
  {
  }

  /** The integral as this step leaves it. */
  function IntegralAfter(doc: Document, p: Pid, b: Bindings, interval: real): real
    requires Validated(doc) && Steppable(doc, b, None) && p.integral.Finite?
  {
    var error := doc.setpoint(b).value.r - doc.input(b).value.r;
    Summed(p.integral.r, Product(doc.ki, error, interval), doc.levels[0], TopAllowed(doc, b))
  }

  /** What the PID of this document demands of these readings, with this behind it. */
  function DemandOf(doc: Document, p: Pid, b: Bindings, interval: real): real
    requires Validated(doc) && Steppable(doc, b, None)
    requires p.integral.Finite? && FiniteOrNone(p.lastInput) && interval != 0.0
  {
    var setpoint, input := doc.setpoint(b).value.r, doc.input(b).value.r;
    Wanted(doc.kp, setpoint - input, IntegralAfter(doc, p, b, interval), Damping(doc.kd, input, p.lastInput, interval),
           doc.levels[0], TopAllowed(doc, b))
  }

  lemma TheStepDemands(doc: Document, l: Loop, b: Bindings, dt: Option<Num>, now: real)
    requires Validated(doc) && Sound(TuningOf(doc), l) && Tuned(doc, l) && l.pid.auto && Steppable(doc, b, dt)
    ensures var interval := Interval(dt, now, l.pid.lastTime);
            interval != 0.0
            && StepLoop(TuningOf(doc), l, FeedOf(doc, b, dt), now).1
               == Demanded(Finite(DemandOf(doc, l.pid, b, interval)))
  {
    TopAllowedIs(doc, b, dt, l);
    TheDemandIs(TuningOf(doc), l, FeedOf(doc, b, dt), now);
  }

  lemma ACycleDemands(doc: Document, s: Proc, e: Surroundings)
    requires Validated(doc) && Sound(TuningOf(doc), s.loop) && Tuned(doc, s.loop)
    requires MayAct(doc, e) && e.first.Read? && Steppable(doc, e.first.bindings, e.dt)
    ensures var p := Entered(s, e).pid;
            var interval := Interval(e.dt, e.stepAt, p.lastTime);
            && interval != 0.0 && p.integral.Finite? && FiniteOrNone(p.lastInput)
            && RunCycle(doc, s, e).2.step
               == Some((true, Demanded(Finite(DemandOf(doc, p, e.first.bindings, interval)))))
  {
    AssessedAsItMay(doc, e);
    ActingCycle(doc, s, e);
    WhatTheWindowReads(doc, Assess(doc, View(None, 0), e).0, e);
    EnteredIsReady(doc, s, e);
    TheStepDemands(doc, Entered(s, e), e.first.bindings, e.dt, e.stepAt);
  }

  lemma EnteredIsReady(doc: Document, s: Proc, e: Surroundings)
    requires Validated(doc) && Sound(TuningOf(doc), s.loop) && Tuned(doc, s.loop)
    ensures var l := Entered(s, e); Sound(TuningOf(doc), l) && Tuned(doc, l) && l.pid.auto
  {
  }

  lemma StartIsTuned(
    doc: Document, entries: Entries, kept: Option<(Memory, Num)>, inside: bool, far: Far, now: real)
    requires Validated(doc)
    ensures Tuned(doc, StartProcess(doc, entries, kept, inside, far, now).0.loop)
  {
    var fresh_ := Fresh(TuningOf(doc), now);
    var loop := if kept.None? then fresh_ else RestoreLoop(fresh_, kept.value.0, kept.value.1, now);
    TellStateReaches(doc, Proc(None, loop, map[], entries, None), StartingState(doc, inside), far, Starting, now);
  }

  /** In every run from the start of a process, a cycle that acts on numbers demands exactly what the
      document's gains make of its setpoint and its input as they are read, of the integral as this step
      leaves it, and of the reading before, brought between the lowest rung and the highest the cap
      allows. */
  lemma EveryDemandIs(
    doc: Document, entries: Entries, kept: Option<(Memory, Num)>, inside: bool, far: Far, now: real,
    es: seq<Surroundings>, e: Surroundings)
    requires Validated(doc)
    requires MayAct(doc, e) && e.first.Read? && Steppable(doc, e.first.bindings, e.dt)
    ensures var s := RunAll(doc, StartProcess(doc, entries, kept, inside, far, now).0, es).0;
            var p := Entered(s, e).pid;
            var interval := Interval(e.dt, e.stepAt, p.lastTime);
            && interval != 0.0 && p.integral.Finite? && FiniteOrNone(p.lastInput)
            && RunCycle(doc, s, e).2.step
               == Some((true, Demanded(Finite(DemandOf(doc, p, e.first.bindings, interval)))))
  {
    var start := StartProcess(doc, entries, kept, inside, far, now).0;
    EveryRunIsNumericallySafe(doc, entries, kept, inside, far, now, es);
    StartIsTuned(doc, entries, kept, inside, far, now);
    RunKeepsTheGains(doc, start, es);
    ACycleDemands(doc, RunAll(doc, start, es).0, e);
  }

  // ---------- what each device hears ----------

  /** What these orders put a device to. */
  function OrderedOf(orders: seq<Order>, key: string): Option<State> {
    if orders == [] then None
    else if orders[|orders| - 1].key == key then Some(orders[|orders| - 1].state)
    else OrderedOf(orders[..|orders| - 1], key)
  }

  /** No device is named twice. */
  ghost predicate OneEach(orders: seq<Order>) {
    forall i, j :: 0 <= i < j < |orders| ==> orders[i].key != orders[j].key
  }

  lemma {:induction false} OrderedIsAnOrder(orders: seq<Order>, key: string)
    ensures OrderedOf(orders, key).None? <==> forall i :: 0 <= i < |orders| ==> orders[i].key != key
    ensures OrderedOf(orders, key).Some? ==>
              exists i :: 0 <= i < |orders| && orders[i] == Order(key, OrderedOf(orders, key).value)
  {
    if orders != [] && orders[|orders| - 1].key != key {
      OrderedIsAnOrder(orders[..|orders| - 1], key);
      assert forall i :: 0 <= i < |orders| - 1 ==> orders[..|orders| - 1][i] == orders[i];
    }
  }

  /** Commands that all go through: each device named is put to its state, and no other is. */
  lemma AllAreCommanded(p: Plant, far: Far, orders: seq<Order>, key: string)
    requires WellFormed(p) && OneEach(orders) && Command(p, far, orders).fault.None?
    ensures var c, wanted := Commanded(Command(p, far, orders).sent), OrderedOf(orders, key);
            && (key in c <==> wanted.Some?)
            && (wanted.Some? ==> key in p.devices && c[key] == WithinScale(p.devices[key].parameter, wanted.value))
  {
    var sent := Command(p, far, orders).sent;
    AcceptedIsWhatWasAsked(p, far, orders);
    SentWasOrdered(p, orders, sent);
    OrderedWasSent(p, orders, sent);
    OrderedIsAnOrder(orders, key);
    if key in Commanded(sent) {
      var i :| 0 <= i < |orders| && Order(key, Commanded(sent)[key]) == Scaled(p, orders[i]);
      assert orders[i] in orders && orders[i].key == key;
    }
  }

  /** What a device hears of one rung. */
  function HeardAt(doc: Document, d: Dwell, key: string): seq<Heard>
    requires key in doc.plant.devices
  {
    var spec, wanted := doc.plant.devices[key], OrderedOf(d.orders, key);
    if wanted.None? then [] else [Heard(WithinScale(spec.parameter, wanted.value), spec, d.at, false)]
  }

  /** What one device hears of a plan that goes through: for each rung that names it, its state within its
      scale, when that rung is commanded. */
  function HeardOf(doc: Document, plan: seq<Dwell>, key: string): seq<Heard>
    requires key in doc.plant.devices
  {
    if plan == [] then [] else HeardAt(doc, plan[0], key) + HeardOf(doc, plan[1..], key)
  }

  lemma {:induction false} HeardInTurn(was: Option<Entry>, first: Heard, rest: seq<Heard>)
    ensures EntryAfter(was, [first] + rest)
         == EntryAfter(Some(Noted(was, first.state, first.spec, first.at, first.forced)), rest)
  {
    var all := [first] + rest;
    if rest == [] {
      assert all[..0] == [];
      assert EntryAfter(was, all[..0]) == was;
    } else {
      var n := |rest| - 1;
      assert all[..|all| - 1] == [first] + rest[..n];
      HeardInTurn(was, first, rest[..n]);
    }
  }

  /** One batch of commands, whatever it was for, as a device hears it. */
  lemma ATellIsHeard(
    doc: Document, s: Proc, orders: seq<Order>, far: Far, origin: Origin, now: real, key: string)
    requires WellFormed(doc.plant) && OneEach(orders) && Command(doc.plant, far, orders).fault.None?
    requires key in doc.plant.devices
    ensures var after, wanted := Tell(doc, s, orders, far, origin, now).0, OrderedOf(orders, key);
            if wanted.None? then
              && EntryOf(after.entries, key) == EntryOf(s.entries, key)
              && (key in after.told <==> key in s.told) && (key in s.told ==> after.told[key] == s.told[key])
            else
              var spec := doc.plant.devices[key];
              var state := WithinScale(spec.parameter, wanted.value);
              && key in after.told && after.told[key] == Told(origin, state)
              && EntryOf(after.entries, key) == Some(Noted(EntryOf(s.entries, key), state, spec, now, origin != Rung))
  {
    AllAreCommanded(doc.plant, far, orders, key);
    CommandIsDeclared(doc.plant, far, orders);
  }

  /** What was heard last. */
  ghost predicate HeardLast(before: map<string, Told>, after: map<string, Told>, key: string, heard: seq<Heard>) {
    if heard == [] then (key in after <==> key in before) && (key in before ==> after[key] == before[key])
    else key in after && after[key] == Told(Rung, heard[|heard| - 1].state)
  }

  /** Through a plan no rung of which fails, each device hears every rung that names it, in turn, at the
      moment it is commanded: it was last told the last of them, and its entry in the log is what those
      commands make of it. */
  lemma {:induction false} APlanIsHeard(doc: Document, s: Proc, plan: seq<Dwell>, key: string)
    requires WellFormed(doc.plant) && key in doc.plant.devices && FirstFault(doc, plan).None?
    requires forall i :: 0 <= i < |plan| ==> OneEach(plan[i].orders)
    ensures var after, heard := SpendPlan(doc, s, plan).0, HeardOf(doc, plan, key);
            && HeardLast(s.told, after.told, key, heard)
            && EntryOf(after.entries, key) == EntryAfter(EntryOf(s.entries, key), heard)
    decreases |plan|
  {
    if plan != [] {
      var next := Tell(doc, s, plan[0].orders, plan[0].far, Rung, plan[0].at).0;
      assert forall i :: 0 <= i < |plan[1..]| ==> plan[1..][i] == plan[i + 1];
      APlanIsHeard(doc, next, plan[1..], key);
      ARungIsHeard(doc, s, plan[0], key);
      AndThenTheRest(s.told, next.told, SpendPlan(doc, next, plan[1..]).0.told,
                     EntryOf(s.entries, key), EntryOf(next.entries, key), key,
                     HeardAt(doc, plan[0], key), HeardOf(doc, plan[1..], key));
    }
  }

  /** What one batch makes of what a device was told and of its entry, if it names it at all. */
  ghost predicate HeardOnce(
    before: map<string, Told>, after: map<string, Told>, was: Option<Entry>, is_: Option<Entry>, key: string,
    heard: seq<Heard>)
  {
    && |heard| <= 1 && HeardLast(before, after, key, heard)
    && is_ == (if heard == [] then was
               else Some(Noted(was, heard[0].state, heard[0].spec, heard[0].at, heard[0].forced)))
  }

  lemma AndThenTheRest(
    first: map<string, Told>, second: map<string, Told>, third: map<string, Told>,
    was: Option<Entry>, is_: Option<Entry>, key: string, once: seq<Heard>, rest: seq<Heard>)
    requires HeardOnce(first, second, was, is_, key, once) && HeardLast(second, third, key, rest)
    ensures HeardLast(first, third, key, once + rest)
    ensures EntryAfter(is_, rest) == EntryAfter(was, once + rest)
  {
    if once == [] {
      assert once + rest == rest;
    } else {
      assert once == [once[0]];
      HeardInTurn(was, once[0], rest);
      if rest == [] {
        assert once + rest == once;
      }
    }
  }

  lemma ARungIsHeard(doc: Document, s: Proc, d: Dwell, key: string)
    requires WellFormed(doc.plant) && key in doc.plant.devices
    requires Command(doc.plant, d.far, d.orders).fault.None? && OneEach(d.orders)
    ensures var next := Tell(doc, s, d.orders, d.far, Rung, d.at).0;
            HeardOnce(s.told, next.told, EntryOf(s.entries, key), EntryOf(next.entries, key), key, HeardAt(doc, d, key))
  {
    ATellIsHeard(doc, s, d.orders, d.far, Rung, d.at, key);
  }

  /** A plan is carried out rung by rung, as far as the first that fails: that one as far as it goes, and
      nothing after it. */
  lemma {:induction false} AFaultEndsThePlan(
    doc: Document, s: Proc, before: seq<Dwell>, failing: Dwell, rest: seq<Dwell>)
    requires FirstFault(doc, before).None? && Command(doc.plant, failing.far, failing.orders).fault.Some?
    ensures SpendPlan(doc, s, before + [failing] + rest)
         == Tell(doc, SpendPlan(doc, s, before).0, failing.orders, failing.far, Rung, failing.at)
    decreases |before|
  {
    var plan := before + [failing] + rest;
    if before == [] {
      assert plan[0] == failing;
    } else {
      assert plan[0] == before[0] && plan[1..] == before[1..] + [failing] + rest;
      var next := Tell(doc, s, before[0].orders, before[0].far, Rung, before[0].at).0;
      AFaultEndsThePlan(doc, next, before[1..], failing, rest);
    }
  }

  lemma SteppingIsNotHeard(doc: Document, s: Proc, b: Bindings, e: Surroundings)
    requires Validated(doc)
    ensures SteppedBy(doc, s, b, e).0.told == s.told && SteppedBy(doc, s, b, e).0.entries == s.entries
  {
  }

  /** An active cycle that ends normally: each device was last told the last rung of the plan that names it,
      or is as it was where none does; and its entry in the log is what those rungs make of it. */
  lemma AWindowIsHeard(doc: Document, s: Proc, e: Surroundings, key: string)
    requires Validated(doc) && key in doc.plant.devices && MayAct(doc, e) && RunCycle(doc, s, e).1.Completed?
    requires forall i :: 0 <= i < |e.plan| ==> OneEach(e.plan[i].orders)
    ensures var after, heard := RunCycle(doc, s, e).0, HeardOf(doc, e.plan, key);
            && HeardLast(s.told, after.told, key, heard)
            && EntryOf(after.entries, key) == EntryAfter(EntryOf(s.entries, key), heard)
  {
    AssessedAsItMay(doc, e);
    TheFaultDecidesTheReport(doc, s, e);
    var v := Assess(doc, View(None, 0), e).0;
    var resumed := AtItsWindow(doc, s, e);
    WhatTheWindowReads(doc, v, e);
    AtItsWindowIs(doc, s, e);
    ASpentWindowIsHeard(doc, resumed, v, e, key);
  }

  /** The process as it enters the window of an acting cycle. */
  function AtItsWindow(doc: Document, s: Proc, e: Surroundings): Proc {
    s.(acting := Some(true), loop := Entered(s, e))
  }

  lemma AtItsWindowIs(doc: Document, s: Proc, e: Surroundings)
    requires Validated(doc) && Acting(doc, e) && RunCycle(doc, s, e).1.Completed?
    ensures AtItsWindow(doc, s, e).loop.pid.auto
    ensures RunCycle(doc, s, e).0 == SpendWindow(doc, AtItsWindow(doc, s, e), Assess(doc, View(None, 0), e).0, e).0
  {
    var (memory, d) := Decide(s.acting, true, ClosingState(doc));
    ResumedIsAutomatic(s.loop, e.at);
    ResumingTwice(s.loop, e.at);
    var edged := TakeEdge(doc, s.(acting := memory), d, e).0;
    assert edged.(loop := ResumeLoop(edged.loop, None, e.at)) == AtItsWindow(doc, s, e);
  }

  lemma ASpentWindowIsHeard(doc: Document, s: Proc, v: View, e: Surroundings, key: string)
    requires Validated(doc) && key in doc.plant.devices && s.loop.pid.auto
    requires GatherOnce(v, e).1.Read? && WindowFault(doc, GatherOnce(v, e).1, e).None?
    requires forall i :: 0 <= i < |e.plan| ==> OneEach(e.plan[i].orders)
    ensures var after, heard := SpendWindow(doc, s, v, e).0, HeardOf(doc, e.plan, key);
            && HeardLast(s.told, after.told, key, heard)
            && EntryOf(after.entries, key) == EntryAfter(EntryOf(s.entries, key), heard)
  {
    var b := GatherOnce(v, e).1.bindings;
    TheStepFails(doc, s, b, e);
    SteppingIsNotHeard(doc, s, b, e);
    APlanIsHeard(doc, SteppedBy(doc, s, b, e).0, e.plan, key);
  }

  // ---------- what a state makes a device hear ----------

  /** The devices that accept a state when it is commanded, whatever the others do. */
  function Accepting(doc: Document, state: SafeState, far: Far): set<string>
    requires Declared(doc.plant.keys, doc.plant.devices)
  {
    var commands := CommandsFor(state, doc.plant.keys, doc.plant.devices);
    if commands.Give? then Commanded(Command(doc.plant, far, commands.orders).sent).Keys else {}
  }

  /** This device was put to the state, within its scale, at this moment, and the log has it as forced. */
  ghost predicate WasPut(doc: Document, after: Proc, state: SafeState, origin: Origin, at: real, key: string) {
    && TheyWereTold(doc, after, state, origin, key)
    && exists was :: EntryOf(after.entries, key)
                     == Some(Noted(was, after.told[key].state, doc.plant.devices[key], at, true))
  }

  lemma AStateIsHeard(doc: Document, s: Proc, state: SafeState, far: Far, origin: Origin, now: real, key: string)
    requires Validated(doc) && origin != Rung && key in Accepting(doc, state, far)
    ensures WasPut(doc, TellState(doc, s, state, far, origin, now).0, state, origin, now, key)
  {
    var orders := CommandsFor(state, doc.plant.keys, doc.plant.devices).orders;
    var c := Commanded(Command(doc.plant, far, orders).sent);
    var after := TellState(doc, s, state, far, origin, now).0;
    CommandsReach(doc, state, orders, far);
    CommandIsDeclared(doc.plant, far, orders);
    assert after.told[key] == Told(origin, c[key]);
    assert EntryOf(after.entries, key)
        == Some(Noted(EntryOf(s.entries, key), c[key], doc.plant.devices[key], now, true));
  }

  lemma AFailSafeIsHeard(doc: Document, s: Proc, e: Surroundings, key: string)
    requires Validated(doc) && key in Accepting(doc, doc.safeState, e.safeFar)
    ensures WasPut(doc, FailSafe(doc, s, e), doc.safeState, Safe, e.failedAt, key)
  {
    AStateIsHeard(doc, s.(loop := HoldLoop(s.loop, e.failedAt)), doc.safeState, e.safeFar, Safe, e.failedAt, key);
  }

  lemma AFinishIsMadeSafe(doc: Document, s: Proc, o: Outcome, d: Decision, e: Surroundings, key: string)
    requires Validated(doc) && key in Accepting(doc, doc.safeState, e.safeFar)
    requires FinishCycle(doc, s, o, d, e).1.FellSafe?
    ensures WasPut(doc, FinishCycle(doc, s, o, d, e).0, doc.safeState, Safe, e.failedAt, key)
  {
    AFailSafeIsHeard(doc, s, e, key);
  }

  lemma AnActedCycleIsMadeSafe(doc: Document, s: Proc, v: View, acting: bool, e: Surroundings, key: string)
    requires Validated(doc) && key in Accepting(doc, doc.safeState, e.safeFar)
    requires ActOn(doc, s, v, acting, e).1.FellSafe?
    ensures WasPut(doc, ActOn(doc, s, v, acting, e).0, doc.safeState, Safe, e.failedAt, key)
  {
    var (memory, d) := Decide(s.acting, acting, ClosingState(doc));
    var (edged, o) := TakeEdge(doc, s.(acting := memory), d, e);
    if !o.Fine? {
      AFinishIsMadeSafe(doc, edged, o, d, e, key);
    } else {
      var (spent, _, ended, _) := SpendWindow(doc, edged.(loop := ResumeLoop(edged.loop, None, e.at)), v, e);
      AFinishIsMadeSafe(doc, spent, ended, d, e, key);
    }
  }

  /** Wherever a cycle fails, each device that accepts the safe state has been put to it, and is marked so
      that no transition minimum holds it there. */
  lemma AFailedCycleIsMadeSafe(doc: Document, s: Proc, e: Surroundings, key: string)
    requires Validated(doc) && RunCycle(doc, s, e).1.FellSafe? && key in Accepting(doc, doc.safeState, e.safeFar)
    ensures WasPut(doc, RunCycle(doc, s, e).0, doc.safeState, Safe, e.failedAt, key)
  {
    var (v, a) := Assess(doc, View(None, 0), e);
    if a.AssessFails? {
      AFailSafeIsHeard(doc, s, e, key);
    } else if a.Acts? {
      AnActedCycleIsMadeSafe(doc, s, v, a.acting, e, key);
    }
  }

  /** Where every device can be reached and none refuses, that is every device. */
  lemma EveryDeviceAccepts(doc: Document, state: SafeState, far: Far)
    requires Validated(doc) && CommandsFor(state, doc.plant.keys, doc.plant.devices).Give?
    requires far == Far(map[], map[])
    requires forall k :: k in doc.plant.devices ==> doc.plant.devices[k].source in doc.plant.actuating
    ensures Accepting(doc, state, far) == doc.plant.devices.Keys
  {
    var orders := CommandsFor(state, doc.plant.keys, doc.plant.devices).orders;
    OrdersFit(doc, state, orders);
    var turns, whole := TheFirstFaultEndsIt(doc.plant, far, orders);
    CommandsReach(doc, state, orders, far);
  }

  /** A closing command that goes through puts every device it names to the closing state, at the start of
      the cycle that closes. */
  lemma AClosingIsHeard(doc: Document, s: Proc, e: Surroundings, key: string)
    requires Validated(doc) && s.acting == Some(true) && Delivers(ClosingState(doc)) && key in doc.plant.devices
    requires RunCycle(doc, s, e).1.Completed? && !MayAct(doc, e)
    ensures WasPut(doc, RunCycle(doc, s, e).0, ClosingState(doc), Closing, e.at, key)
  {
    AssessedAsItMay(doc, e);
    var held := s.(loop := HoldLoop(s.loop, e.at));
    TellStateReaches(doc, held, ClosingState(doc), e.closingFar, Closing, e.at);
    var commands := CommandsFor(ClosingState(doc), doc.plant.keys, doc.plant.devices);
    AClosingReachesAll(doc, s, e, commands.orders, key);
    AStateIsHeard(doc, held, ClosingState(doc), e.closingFar, Closing, e.at, key);
    AClosedCycleIs(doc, s, e);
  }

  lemma AClosedCycleIs(doc: Document, s: Proc, e: Surroundings)
    requires Validated(doc) && s.acting == Some(true) && Delivers(ClosingState(doc))
    requires Assess(doc, View(None, 0), e).1 == Acts(false) && RunCycle(doc, s, e).1.Completed?
    ensures var held := s.(loop := HoldLoop(s.loop, e.at));
            var told := TellState(doc, held, ClosingState(doc), e.closingFar, Closing, e.at).0;
            var after := RunCycle(doc, s, e).0;
            after.told == told.told && after.entries == told.entries
  {
    assert s.(acting := s.acting) == s;
  }

  lemma AClosingReachesAll(doc: Document, s: Proc, e: Surroundings, orders: seq<Order>, key: string)
    requires Validated(doc) && s.acting == Some(true) && Delivers(ClosingState(doc)) && key in doc.plant.devices
    requires Assess(doc, View(None, 0), e).1 == Acts(false) && RunCycle(doc, s, e).1.Completed?
    requires CommandsFor(ClosingState(doc), doc.plant.keys, doc.plant.devices) == Give(orders)
    ensures key in Accepting(doc, ClosingState(doc), e.closingFar)
  {
    CommandsReach(doc, ClosingState(doc), orders, e.closingFar);
    assert s.(acting := s.acting) == s;
    assert Command(doc.plant, e.closingFar, orders).fault.None?;
  }

  /** What a number comes to for a device: itself, or the nearer end of 0 to 100 for a percentage; and for
      a switch, on exactly where it is more than zero. */
  ghost predicate IsNumber(spec: DeviceSpec, r: real, state: State) {
    if spec.parameter.None? then state == Switch(r > 0.0)
    else if exists stem :: spec.parameter.value == stem + "_pct"
    then state == Level(Finite(if r > 100.0 then 100.0 else r))
    else state == Level(Finite(r))
  }

  /** A safe or end state that is a number, commanded and gone through, reaches every device as that. */
  lemma ANumberReachesEveryDevice(
    doc: Document, s: Proc, r: real, far: Far, origin: Origin, now: real, key: string)
    requires Validated(doc) && r >= 0.0 && key in doc.plant.devices
    requires TellState(doc, s, Value(Finite(r)), far, origin, now).1.Fine?
    ensures var after := TellState(doc, s, Value(Finite(r)), far, origin, now).0;
            key in after.told && after.told[key].origin == origin
            && IsNumber(doc.plant.devices[key], r, after.told[key].state)
  {
    var spec := doc.plant.devices[key];
    TellStateReaches(doc, s, Value(Finite(r)), far, origin, now);
    NumberWithinScale(spec, r);
    NamesAgreeWithNumbers(spec, r);
  }

  lemma NumberWithinScale(spec: DeviceSpec, r: real)
    requires r >= 0.0
    ensures var asked := if spec.parameter.Some? then Level(Finite(r)) else Switch(r > 0.0);
            IsNumber(spec, r, WithinScale(spec.parameter, asked))
  {
    if spec.parameter.Some? && exists stem :: spec.parameter.value == stem + "_pct" {
      var stem :| spec.parameter.value == stem + "_pct";
      APercentageIsAName(stem, spec.parameter, r, Level(Finite(r)));
    } else {
      APercentageIsAName("", spec.parameter, r, if spec.parameter.Some? then Level(Finite(r)) else Switch(r > 0.0));
    }
  }
}
