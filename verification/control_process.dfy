/** One control's loop: ask the gate, gather, step, command, and fall to the safe state on any
    failure (toinflux/control_process.py). What a cycle meets - the clock, the readings, the plan
    for the window and how the far end answers - is in `Surroundings`, and is arbitrary. */
module ControlProcesses {
  import opened Numbers
  import opened Controllers
  import opened Gating
  import opened Commanding

  // ---------- the document ----------

  type Bindings = map<string, Num>

  /** A control document. `period` is the end state of its active period, where it has one; a
      rule is whatever it evaluates to for given bindings. */
  datatype Document = Document(
    enabled: bool,
    period: Option<SafeState>,
    safeState: SafeState,
    enableWhen: Option<Bindings -> RuleOutcome>,
    setpoint: Bindings -> RuleOutcome,
    input: Bindings -> RuleOutcome,
    maxLevel: Option<Bindings -> RuleOutcome>,
    levels: seq<real>, kp: real, ki: real, kd: real,
    plant: Plant)

  function TuningOf(doc: Document): Tuning {
    Tuning(doc.levels, doc.kp, doc.ki, doc.kd, doc.maxLevel.Some?)
  }

  function ClosingState(doc: Document): SafeState {
    if doc.period.Some? then doc.period.value else doc.safeState
  }

  /** `starting_state`: the clock is all it asks. */
  function StartingState(doc: Document, inside: bool): SafeState {
    if doc.period.Some? && !inside then doc.period.value else doc.safeState
  }

  /** What validation promises of a stored document. */
  ghost predicate Validated(doc: Document) {
    && WellFormed(doc.plant)
    && Laddered(TuningOf(doc))
    && (forall k :: k in doc.plant.devices ==> Commandable(doc.plant, k))
    && !CommandsFor(doc.safeState, doc.plant.keys, doc.plant.devices).Unusable?
    && !CommandsFor(ClosingState(doc), doc.plant.keys, doc.plant.devices).Unusable?
  }

  // ---------- the state of a process ----------

  /** Why a device was last commanded, and to what. */
  datatype Origin = Starting | Closing | Safe | Rung

  datatype Told = Told(origin: Origin, state: State)

  /** `told` is what the far end last accepted for each device from this process, and `stored` the
      memory of its loop that it last wrote down, with the moment it did. */
  datatype Proc = Proc(
    acting: Option<bool>, loop: Loop, told: map<string, Told>, entries: Entries, stored: Option<(Memory, real)>)

  // ---------- what a cycle meets ----------

  datatype Reading = Read(bindings: Bindings) | ReadFails | ReadStops

  /** One rung of the window's plan, when it is commanded, and how the far end answers it. */
  datatype Dwell = Dwell(at: real, orders: seq<Order>, far: Far)

  /** `first` and `second` are what reading the inputs gives the first and the second time this
      cycle asks. `stepAt` is when its inputs have been read and the PID is called, and `failedAt` when a
      failing cycle reaches its fail-safe. */
  datatype Surroundings = Surroundings(
    at: real, stepAt: real, failedAt: real, inside: bool,
    first: Reading, second: Reading, dt: Option<Num>,
    plan: seq<Dwell>, closingFar: Far, safeFar: Far)

  datatype Report = Completed(decision: Decision) | FellSafe | Stopped

  /** What went on inside a cycle: how often the inputs were read, the bindings the gate and the
      loop worked from, and the PID's mode and answer at the step. */
  datatype Witness = Witness(
    asked: nat, gateSaw: Option<Bindings>, loopSaw: Option<Bindings>, step: Option<(bool, StepResult)>)

  /** How a call ends: normally, with an error this cycle handles, or with one that stops it. */
  datatype Outcome = Fine | Retry | Stop

  // ---------- a cycle as a function ----------

  datatype View = View(cache: Option<Bindings>, asked: nat)

  function GatherOnce(v: View, e: Surroundings): (View, Reading) {
    if v.cache.Some? then (v, Read(v.cache.value))
    else
      var r := if v.asked == 0 then e.first else e.second;
      (View(if r.Read? then Some(r.bindings) else None, v.asked + 1), r)
  }

  datatype Assessment = Acts(acting: bool) | AssessFails | AssessStops

  /** `_assess`: the inputs are read only where the rule is reached. */
  function Assess(doc: Document, v: View, e: Surroundings): (View, Assessment) {
    if !doc.enabled then (v, Acts(false))
    else if doc.period.Some? && !e.inside then (v, Acts(false))
    else if doc.enableWhen.None? then (v, Acts(true))
    else
      var (v', r) := GatherOnce(v, e);
      match r
      case ReadFails => (v', AssessFails)
      case ReadStops => (v', AssessStops)
      case Read(b) =>
        var held := Holds(doc.enableWhen.value(b));
        (v', if held.None? then AssessFails else Acts(held.value))
  }

  function OutcomeOf(fault: Option<Fault>): Outcome {
    match fault
    case None => Fine
    case Some(Connection) => Retry
    case Some(Configuration) => Stop
  }

  function ToldAll(told: map<string, Told>, commanded: map<string, State>, origin: Origin): map<string, Told> {
    told + map k | k in commanded :: Told(origin, commanded[k])
  }

  /** Commanding some orders: only a rung is governed by the transition minimums. */
  function Tell(doc: Document, s: Proc, orders: seq<Order>, far: Far, origin: Origin, now: real): (Proc, Outcome) {
    var d := Command(doc.plant, far, orders);
    CommandIsDeclared(doc.plant, far, orders);
    var c := Commanded(d.sent);
    (s.(told := ToldAll(s.told, c, origin), entries := Recorded(s.entries, doc.plant, c, now, origin != Rung)),
     OutcomeOf(d.fault))
  }

  function TellState(doc: Document, s: Proc, state: SafeState, far: Far, origin: Origin, now: real): (Proc, Outcome)
    requires Declared(doc.plant.keys, doc.plant.devices)
  {
    match CommandsFor(state, doc.plant.keys, doc.plant.devices)
    case Unusable => (s, Stop)
    case TouchNothing => (s, Fine)
    case Give(orders) => Tell(doc, s, orders, far, origin, now)
  }

  function SpendPlan(doc: Document, s: Proc, plan: seq<Dwell>): (Proc, Outcome)
    decreases |plan|
  {
    if plan == [] then (s, Fine)
    else
      var (s', o) := Tell(doc, s, plan[0].orders, plan[0].far, Rung, plan[0].at);
      if o.Fine? then SpendPlan(doc, s', plan[1..]) else (s', o)
  }

  function FeedOf(doc: Document, b: Bindings, dt: Option<Num>): Feed {
    Feed(dt, doc.setpoint(b), doc.input(b), if doc.maxLevel.Some? then doc.maxLevel.value(b) else Raises)
  }

  /** The loop stepped, and what it then knows written down before any device is commanded. */
  function SteppedBy(doc: Document, s: Proc, b: Bindings, e: Surroundings): (Proc, StepResult)
    requires Laddered(TuningOf(doc))
  {
    var (loop, step) := StepLoop(TuningOf(doc), s.loop, FeedOf(doc, b, e.dt), e.stepAt);
    (s.(loop := loop, stored := if step.Demanded? then Some((CaptureLoop(loop), e.stepAt)) else s.stored), step)
  }

  function SpendWindow(doc: Document, s: Proc, v: View, e: Surroundings)
    : (Proc, View, Outcome, Option<(bool, StepResult)>)
    requires Laddered(TuningOf(doc))
  {
    var (v', r) := GatherOnce(v, e);
    match r
    case ReadFails => (s, v', Retry, None)
    case ReadStops => (s, v', Stop, None)
    case Read(b) =>
      var (stepped, step) := SteppedBy(doc, s, b, e);
      var seen := Some((s.loop.pid.auto, step));
      if step.CycleFailed? then (stepped, v', Retry, seen)
      else if step.SteppedWhileHeld? then (stepped, v', Stop, seen)
      else
        var (spent, o) := SpendPlan(doc, stepped, e.plan);
        (spent, v', o, seen)
  }

  /** `_fail_safe`: a device that cannot be made safe does not stop the loop. */
  function FailSafe(doc: Document, s: Proc, e: Surroundings): Proc
    requires Declared(doc.plant.keys, doc.plant.devices)
  {
    TellState(doc, s.(loop := HoldLoop(s.loop, e.failedAt)), doc.safeState, e.safeFar, Safe, e.failedAt).0
  }

  /** What a decision does before the window: hold and command on a closing edge, which is spent
      only once its command has gone through, and resume on an opening one. */
  function TakeEdge(doc: Document, s: Proc, d: Decision, e: Surroundings): (Proc, Outcome)
    requires Declared(doc.plant.keys, doc.plant.devices)
  {
    match d.edge
    case NoEdge => (s, Fine)
    case Opened => (s.(loop := ResumeLoop(s.loop, None, e.at)), Fine)
    case Closed =>
      var held := s.(loop := HoldLoop(s.loop, e.at));
      var (told, o) := if d.apply.Some? && Truthy(d.apply.value)
                       then TellState(doc, held, d.apply.value, e.closingFar, Closing, e.at) else (held, Fine);
      (if o.Fine? then told.(acting := Some(false)) else told, o)
  }

  function FinishCycle(doc: Document, s: Proc, o: Outcome, d: Decision, e: Surroundings): (Proc, Report)
    requires Declared(doc.plant.keys, doc.plant.devices)
  {
    match o
    case Fine => (s, Completed(d))
    case Retry => (FailSafe(doc, s, e), FellSafe)
    case Stop => (s, Stopped)
  }

  function RunCycle(doc: Document, s: Proc, e: Surroundings): (Proc, Report, Witness)
    requires Laddered(TuningOf(doc)) && Declared(doc.plant.keys, doc.plant.devices)
  {
    var (v, a) := Assess(doc, View(None, 0), e);
    match a
    case AssessStops => (s, Stopped, Witness(v.asked, None, None, None))
    case AssessFails => (FailSafe(doc, s, e), FellSafe, Witness(v.asked, v.cache, None, None))
    case Acts(acting) => ActOn(doc, s, v, acting, e)
  }

  /** A cycle once its conditions have been assessed. */
  function ActOn(doc: Document, s: Proc, v: View, acting: bool, e: Surroundings): (Proc, Report, Witness)
    requires Laddered(TuningOf(doc)) && Declared(doc.plant.keys, doc.plant.devices)
  {
    var (memory, d) := Decide(s.acting, acting, ClosingState(doc));
    var (edged, o) := TakeEdge(doc, s.(acting := memory), d, e);
    if !o.Fine? then
      var (s', r) := FinishCycle(doc, edged, o, d, e);
      (s', r, Witness(v.asked, v.cache, None, None))
    else if !d.actuating then
      (edged.(loop := HoldLoop(edged.loop, e.at)), Completed(d), Witness(v.asked, v.cache, None, None))
    else ActInWindow(doc, edged.(loop := ResumeLoop(edged.loop, None, e.at)), v, d, e)
  }

  function ActInWindow(doc: Document, s: Proc, v: View, d: Decision, e: Surroundings): (Proc, Report, Witness)
    requires Laddered(TuningOf(doc)) && Declared(doc.plant.keys, doc.plant.devices)
  {
    var (spent, v', o, step) := SpendWindow(doc, s, v, e);
    var (s', r) := FinishCycle(doc, spent, o, d, e);
    (s', r, Witness(v'.asked, v.cache, if step.Some? then v'.cache else None, step))
  }

  /** The process as it is built: the memory kept from before, where there is one to resume from,
      and the starting state asserted before anything is read. */
  function StartProcess(
    doc: Document, entries: Entries, kept: Option<(Memory, Num)>, inside: bool, far: Far, now: real): (Proc, Outcome)
    requires Laddered(TuningOf(doc)) && Declared(doc.plant.keys, doc.plant.devices)
  {
    var fresh_ := Fresh(TuningOf(doc), now);
    var loop := if kept.None? then fresh_ else RestoreLoop(fresh_, kept.value.0, kept.value.1, now);
    TellState(doc, Proc(None, loop, map[], entries, None), StartingState(doc, inside), far, Starting, now)
  }

  /** Cycle after cycle until one stops the process: the last state, and whether it still runs. */
  function RunAll(doc: Document, s: Proc, es: seq<Surroundings>): (Proc, bool)
    requires Laddered(TuningOf(doc)) && Declared(doc.plant.keys, doc.plant.devices)
    decreases |es|
  {
    if es == [] then (s, true)
    else
      var (s', r, _) := RunCycle(doc, s, es[0]);
      if r.Stopped? then (s', false) else RunAll(doc, s', es[1..])
  }

  lemma CommandIsDeclared(p: Plant, far: Far, orders: seq<Order>)
    ensures Commanded(Command(p, far, orders).sent).Keys <= p.devices.Keys
  {
    CommandedKeys(Command(p, far, orders).sent);
    if AllCommandable(p, orders) {
      SentIsDeclared(p, far, p.targets, orders);
    }
  }

  // ---------- the class ----------

  class ControlProcess {
    const doc: Document
    const gate: Gate
    const controller: Controller
    const log: TransitionLog
    var told: map<string, Told>
    var stored: Option<(Memory, real)>
    var bindings: Option<Bindings>
    var asked: nat
    var stopped: bool

    ghost predicate Valid()
      reads this, controller
    {
      && WellFormed(doc.plant) && Laddered(TuningOf(doc))
      && gate.closingState == ClosingState(doc)
      && controller.tuning == TuningOf(doc)
    }

    ghost function State(): Proc
      reads this, gate, controller, log
    {
      Proc(gate.acting, controller.State(), told, log.entries, stored)
    }

    ghost function Seen(): View
      reads this
    {
      View(bindings, asked)
    }

    constructor (doc: Document, entries: Entries, now: real)
      requires WellFormed(doc.plant) && Laddered(TuningOf(doc))
      ensures Valid() && this.doc == doc
      ensures State() == Proc(None, Fresh(TuningOf(doc), now), map[], entries, None)
      ensures fresh(gate) && fresh(controller) && fresh(log)
    {
      this.doc := doc;
      gate := new Gate(ClosingState(doc));
      controller := new Controller(TuningOf(doc), now);
      log := new TransitionLog(entries);
      told, stored, bindings, asked, stopped := map[], None, None, 0, false;
    }

    /** What happens before the first cycle: resuming the loop and asserting the starting state. */
    method Start(kept: Option<(Memory, Num)>, inside: bool, far: Far, now: real) returns (o: Outcome)
      requires Valid() && State() == Proc(None, Fresh(TuningOf(doc), now), map[], log.entries, None)
      modifies this`told, controller, log
      ensures Valid()
      ensures (State(), o) == StartProcess(doc, old(log.entries), kept, inside, far, now)
    {
      if kept.Some? {
        controller.ResumeFrom(kept.value.0, kept.value.1, now);
      }
      o := ApplyState(StartingState(doc, inside), far, Starting, now);
    }

    /** `DeviceGuard.stop`: the safe state on the way out, once, whatever comes of it. */
    method Exit(far: Far, now: real)
      requires Valid()
      modifies this`told, this`stopped, log
      ensures Valid() && stopped
      ensures State() == if old(stopped) then old(State())
                         else TellState(doc, old(State()), doc.safeState, far, Safe, now).0
    {
      if stopped {
        return;
      }
      stopped := true;
      var _ := ApplyState(doc.safeState, far, Safe, now);
    }

    /** `run_control`: cycles until one of them stops the process, and the safe state last. */
    method Run(es: seq<Surroundings>, far: Far, now: real)
      requires Valid() && !stopped
      modifies this, gate, controller, log
      ensures Valid() && stopped
      ensures State() == TellState(doc, RunAll(doc, old(State()), es).0, doc.safeState, far, Safe, now).0
    {
      var i, running := 0, true;
      assert es[0..] == es;
      while i < |es| && running
        invariant 0 <= i <= |es| && Valid() && !stopped
        invariant RunAll(doc, old(State()), es) == if running then RunAll(doc, State(), es[i..]) else (State(), false)
      {
        assert es[i..][0] == es[i] && es[i..][1..] == es[i + 1..];
        ghost var w;
        var r;
        r, w := Cycle(es[i]);
        running := !r.Stopped?;
        i := i + 1;
      }
      Exit(far, now);
    }

    /** `_gather`: this cycle's bindings, read at most once where the reading succeeds. */
    method Gather(e: Surroundings) returns (r: Reading)
      modifies this`bindings, this`asked
      ensures (Seen(), r) == GatherOnce(old(Seen()), e)
    {
      if bindings.Some? {
        return Read(bindings.value);
      }
      r := if asked == 0 then e.first else e.second;
      asked := asked + 1;
      if r.Read? {
        bindings := Some(r.bindings);
      }
    }

    method AssessNow(e: Surroundings) returns (a: Assessment)
      modifies this`bindings, this`asked
      ensures (Seen(), a) == Assess(doc, old(Seen()), e)
    {
      if !doc.enabled {
        return Acts(false);
      }
      if doc.period.Some? && !e.inside {
        return Acts(false);
      }
      if doc.enableWhen.None? {
        return Acts(true);
      }
      var r := Gather(e);
      match r {
        case ReadFails => a := AssessFails;
        case ReadStops => a := AssessStops;
        case Read(b) =>
          var held := Holds(doc.enableWhen.value(b));
          a := if held.None? then AssessFails else Acts(held.value);
      }
    }

    /** `_apply` with orders to give. */
    method Apply(orders: seq<Order>, far: Far, origin: Origin, now: real) returns (o: Outcome)
      requires Valid()
      modifies this`told, log
      ensures Valid()
      ensures (State(), o) == Tell(doc, old(State()), orders, far, origin, now)
    {
      ghost var before := State();
      ghost var sent;
      var fault, commanded;
      sent, commanded, fault := CommandDevices(doc.plant, far, orders, log, now, origin != Rung);
      told := ToldAll(told, commanded, origin);
      o := OutcomeOf(fault);
    }

    /** `_apply_safe(commands_for(...))`. */
    method ApplyState(state: SafeState, far: Far, origin: Origin, now: real) returns (o: Outcome)
      requires Valid()
      modifies this`told, log
      ensures Valid()
      ensures (State(), o) == TellState(doc, old(State()), state, far, origin, now)
    {
      match CommandsFor(state, doc.plant.keys, doc.plant.devices) {
        case Unusable => o := Stop;
        case TouchNothing => o := Fine;
        case Give(orders) => o := Apply(orders, far, origin, now);
      }
    }

    method ApplyPlan(plan: seq<Dwell>) returns (o: Outcome)
      requires Valid()
      modifies this`told, log
      ensures Valid()
      ensures (State(), o) == SpendPlan(doc, old(State()), plan)
    {
      var i := 0;
      assert plan[0..] == plan;
      while i < |plan|
        invariant 0 <= i <= |plan|
        invariant Valid()
        invariant SpendPlan(doc, State(), plan[i..]) == SpendPlan(doc, old(State()), plan)
      {
        assert plan[i..][0] == plan[i] && plan[i..][1..] == plan[i + 1..];
        o := Apply(plan[i].orders, plan[i].far, Rung, plan[i].at);
        if !o.Fine? {
          return;
        }
        i := i + 1;
      }
      o := Fine;
    }

    method SpendWindowNow(e: Surroundings) returns (o: Outcome, ghost step: Option<(bool, StepResult)>)
      requires Valid()
      modifies this`bindings, this`asked, this`told, this`stored, controller, log
      ensures Valid()
      ensures (State(), Seen(), o, step) == SpendWindow(doc, old(State()), old(Seen()), e)
    {
      step := None;
      var r := Gather(e);
      if r.ReadFails? {
        return Retry, None;
      }
      if r.ReadStops? {
        return Stop, None;
      }
      ghost var auto := controller.pid.auto;
      var demanded := controller.Step(FeedOf(doc, r.bindings, e.dt), e.stepAt);
      step := Some((auto, demanded));
      if demanded.CycleFailed? {
        return Retry, step;
      }
      if demanded.SteppedWhileHeld? {
        return Stop, step;
      }
      // Written before the commands, so that a kill part-way through the window loses nothing.
      var memory := controller.Capture();
      stored := Some((memory, e.stepAt));
      o := ApplyPlan(e.plan);
    }

    method FailSafeNow(e: Surroundings)
      requires Valid()
      modifies this`told, controller, log
      ensures Valid()
      ensures State() == FailSafe(doc, old(State()), e)
    {
      controller.Hold(e.failedAt);
      var _ := ApplyState(doc.safeState, e.safeFar, Safe, e.failedAt);
    }

    method TakeEdgeNow(d: Decision, e: Surroundings) returns (o: Outcome)
      requires Valid()
      modifies this`told, gate, controller, log
      ensures Valid()
      ensures (State(), o) == TakeEdge(doc, old(State()), d, e)
    {
      o := Fine;
      if d.edge.Closed? {
        controller.Hold(e.at);
        if d.apply.Some? && Truthy(d.apply.value) {
          o := ApplyState(d.apply.value, e.closingFar, Closing, e.at);
          if !o.Fine? {
            return;
          }
        }
        gate.EdgeApplied();
      } else if d.edge.Opened? {
        controller.Resume(None, e.at);
      }
    }

    /** The handler around a cycle: an error it can retry is answered with the safe state. */
    method Finish(o: Outcome, d: Decision, e: Surroundings) returns (r: Report)
      requires Valid()
      modifies this`told, controller, log
      ensures Valid()
      ensures (State(), r) == FinishCycle(doc, old(State()), o, d, e)
    {
      match o {
        case Fine => r := Completed(d);
        case Retry =>
          FailSafeNow(e);
          r := FellSafe;
        case Stop => r := Stopped;
      }
    }

    method Cycle(e: Surroundings) returns (r: Report, ghost w: Witness)
      requires Valid()
      modifies this, gate, controller, log
      ensures Valid() && stopped == old(stopped)
      ensures (State(), r, w) == RunCycle(doc, old(State()), e)
    {
      bindings, asked := None, 0;
      var a := AssessNow(e);
      ghost var gateSaw := bindings;
      match a {
        case AssessStops =>
          return Stopped, Witness(asked, None, None, None);
        case AssessFails =>
          FailSafeNow(e);
          return FellSafe, Witness(asked, gateSaw, None, None);
        case Acts(acting) =>
          var d := gate.DecideFor(acting);
          var o := TakeEdgeNow(d, e);
          if !o.Fine? {
            r := Finish(o, d, e);
            return r, Witness(asked, gateSaw, None, None);
          }
          if !d.actuating {
            controller.Hold(e.at);
            return Completed(d), Witness(asked, gateSaw, None, None);
          }
          controller.Resume(None, e.at);
          ghost var step;
          o, step := SpendWindowNow(e);
          r := Finish(o, d, e);
          w := Witness(asked, gateSaw, if step.Some? then bindings else None, step);
      }
    }
  }
}
