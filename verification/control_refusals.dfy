/** Outages in which a device refuses: the loop has been stepped by then, and every cycle lets go of the
    hold before it steps, so each of them integrates again (`ControlProcess.cycle` and `_spend_window` in
    toinflux/control_process.py). */
module ControlRefusals {
  import opened Numbers
  import opened Controllers
  import opened ControllerProperties
  import opened ControllerSteps
  import opened Gating
  import opened Commanding
  import opened ControlProcesses
  import opened ControlRuns
  import opened ControlOutages

  // ---------- a window that is refused ----------

  /** How a plan ends, which the far end alone decides. */
  function PlanOutcome(doc: Document, plan: seq<Dwell>): Outcome {
    if plan == [] then Fine
    else
      var o := OutcomeOf(Command(doc.plant, plan[0].far, plan[0].orders).fault);
      if o.Fine? then PlanOutcome(doc, plan[1..]) else o
  }

  lemma {:induction false} ThePlanEndsSo(doc: Document, s: Proc, plan: seq<Dwell>)
    ensures SpendPlan(doc, s, plan).1 == PlanOutcome(doc, plan)
    decreases |plan|
  {
    if plan != [] {
      ThePlanEndsSo(doc, Tell(doc, s, plan[0].orders, plan[0].far, Rung, plan[0].at).0, plan[1..]);
    }
  }

  /** What the loop of an acting cycle reads. */
  function Got(doc: Document, e: Surroundings): Reading {
    GatherOnce(Assess(doc, View(None, 0), e).0, e).1
  }

  /** A cycle that acts, steps its loop, and then cannot reach a device. */
  predicate Refused(doc: Document, e: Surroundings) {
    && Acting(doc, e) && Got(doc, e).Read?
    && UsableFeed(TuningOf(doc), FeedOf(doc, Got(doc, e).bindings, e.dt))
    && PlanOutcome(doc, e.plan).Retry?
  }

  function FeedIn(doc: Document, e: Surroundings): Feed
    requires Refused(doc, e)
  {
    FeedOf(doc, Got(doc, e).bindings, e.dt)
  }

  lemma RefusedWindow(doc: Document, s: Proc, v: View, d: Decision, e: Surroundings)
    requires Validated(doc) && s.loop.pid.auto && Sound(TuningOf(doc), s.loop)
    requires GatherOnce(v, e).1.Read? && PlanOutcome(doc, e.plan).Retry?
    requires UsableFeed(TuningOf(doc), FeedOf(doc, GatherOnce(v, e).1.bindings, e.dt))
    ensures var f := FeedOf(doc, GatherOnce(v, e).1.bindings, e.dt);
            var loop := StepLoop(TuningOf(doc), s.loop, f, e.stepAt).0;
            var (after, r, _) := ActInWindow(doc, s, v, d, e);
            && r.FellSafe? && after.loop == HoldLoop(loop, e.failedAt)
            && after.stored == Some((CaptureLoop(loop), e.stepAt))
  {
    var b := GatherOnce(v, e).1.bindings;
    StepIsSafe(TuningOf(doc), s.loop, FeedOf(doc, b, e.dt), e.stepAt);
    var stepped := SteppedBy(doc, s, b, e).0;
    ThePlanEndsSo(doc, stepped, e.plan);
    PlanKeepsTheGate(doc, stepped, e.plan);
    FailSafeHolds(doc, SpendPlan(doc, stepped, e.plan).0, e);
    FailSafeStoresNothing(doc, SpendPlan(doc, stepped, e.plan).0, e);
  }

  lemma FailSafeStoresNothing(doc: Document, s: Proc, e: Surroundings)
    requires Validated(doc)
    ensures FailSafe(doc, s, e).stored == s.stored
  {
  }

  /** The loop is stepped as though the window would be carried out, and what it then knows is both
      held and written down. */
  lemma RefusedCycle(doc: Document, s: Proc, e: Surroundings)
    requires Validated(doc) && Sound(TuningOf(doc), s.loop) && Refused(doc, e)
    ensures var loop := StepLoop(TuningOf(doc), Entered(s, e), FeedIn(doc, e), e.stepAt).0;
            var (after, r, _) := RunCycle(doc, s, e);
            && r.FellSafe? && after.loop == HoldLoop(loop, e.failedAt)
            && after.stored == Some((CaptureLoop(loop), e.stepAt))
  {
    var v := Assess(doc, View(None, 0), e).0;
    var (memory, d) := Decide(s.acting, true, ClosingState(doc));
    var edged := TakeEdge(doc, s.(acting := memory), d, e).0;
    ResumingTwice(s.loop, e.at);
    ResumedIsAutomatic(s.loop, e.at);
    HoldingStaysSound(TuningOf(doc), s.loop, e.at);
    RefusedWindow(doc, edged.(loop := ResumeLoop(edged.loop, None, e.at)), v, d, e);
  }

  // ---------- an outage, cycle by cycle ----------

  /** What an outage carries from one cycle to the next: the integral held, the moment it was held, and
      the upper limit the last cap left. */
  datatype Carry = Carry(integral: real, since: real, hi: real)

  predicate Brief(since: real, at: real) {
    0.0 <= at - since <= RESUMABLE_HOLD_SECONDS
  }

  /** The integral a window is entered with. */
  function EnteredWith(c: Carry, lo: real, at: real): real {
    if Brief(c.since, at) then c.integral else ClampReal(0.0, lo, c.hi)
  }

  function CarryOn(doc: Document, ki: real, c: Carry, e: Surroundings): Carry
    requires Laddered(TuningOf(doc))
  {
    if !Acting(doc, e) then c
    else Windowed(doc, ki, Carry(EnteredWith(c, doc.levels[0], e.at), e.failedAt, c.hi), e, e.at)
  }

  /** What a failing window, entered with this, holds at its end: the same, or, where a device refused,
      one step more of the sum, clamped. */
  function Windowed(doc: Document, ki: real, c: Carry, e: Surroundings, last: real): Carry
    requires Laddered(TuningOf(doc))
  {
    if !Refused(doc, e) then c
    else
      var f, lo := FeedIn(doc, e), doc.levels[0];
      var hi := UpperLimit(TuningOf(doc), f, c.hi);
      Carry(Summed(c.integral, Increment(ki, f, Interval(f.dt, e.stepAt, last)), lo, hi), c.since, hi)
  }

  function CarryAll(doc: Document, ki: real, c: Carry, es: seq<Surroundings>): Carry
    requires Laddered(TuningOf(doc))
    decreases |es|
  {
    if es == [] then c else CarryAll(doc, ki, CarryOn(doc, ki, c, es[0]), es[1..])
  }

  /** Any cycle of an outage: one that does not act, one that fails before its step, or one that is
      refused after it. */
  ghost predicate AnyOutage(doc: Document, es: seq<Surroundings>) {
    forall i :: 0 <= i < |es| ==> InOutage(doc, es[i]) || Refused(doc, es[i])
  }

  /** The loop holds this, and nothing else matters to the rest of the outage. */
  predicate Holding(doc: Document, ki: real, l: Loop, c: Carry)
    requires Laddered(TuningOf(doc))
  {
    && !l.pid.auto && l.held == Some(Held(Finite(c.integral), c.since)) && l.pid.integral == Finite(c.integral)
    && l.pid.hi == c.hi && l.pid.lo == doc.levels[0] && l.pid.ki == ki
  }

  lemma EnteredIs(doc: Document, ki: real, s: Proc, c: Carry, e: Surroundings)
    requires Validated(doc) && Sound(TuningOf(doc), s.loop) && Holding(doc, ki, s.loop, c)
    ensures var p := Entered(s, e).pid;
            && p.auto && p.integral == Finite(EnteredWith(c, doc.levels[0], e.at)) && p.lastTime == e.at
            && p.lo == doc.levels[0] && p.hi == c.hi && p.ki == ki
    ensures Sound(TuningOf(doc), Entered(s, e)) && Entered(s, e).held.None?
  {
    HoldingStaysSound(TuningOf(doc), s.loop, e.at);
  }

  lemma CarriesOn(doc: Document, ki: real, s: Proc, c: Carry, e: Surroundings)
    requires Validated(doc) && Sound(TuningOf(doc), s.loop) && Holding(doc, ki, s.loop, c)
    requires (InOutage(doc, e) || Refused(doc, e)) && !RunCycle(doc, s, e).1.Stopped?
    ensures Holding(doc, ki, RunCycle(doc, s, e).0.loop, CarryOn(doc, ki, c, e))
  {
    EnteredIs(doc, ki, s, c, e);
    if Refused(doc, e) {
      RefusedCycle(doc, s, e);
      StepKeepsTheHold(TuningOf(doc), Entered(s, e), FeedIn(doc, e), e.stepAt);
      StepIntegrates(TuningOf(doc), Entered(s, e), FeedIn(doc, e), e.stepAt);
    } else if Acting(doc, e) {
      FailingCycle(doc, s, e);
    } else {
      IdleCycle(doc, s, e);
    }
  }

  lemma StepKeepsTheHold(u: Tuning, l: Loop, f: Feed, now: real)
    requires Laddered(u)
    ensures StepLoop(u, l, f, now).0.held == l.held
  {
  }

  lemma {:induction false} TheOutageCarries(doc: Document, ki: real, s: Proc, c: Carry, es: seq<Surroundings>)
    requires Validated(doc) && Sound(TuningOf(doc), s.loop) && Holding(doc, ki, s.loop, c)
    requires AnyOutage(doc, es) && RunAll(doc, s, es).1
    ensures Holding(doc, ki, RunAll(doc, s, es).0.loop, CarryAll(doc, ki, c, es))
    decreases |es|
  {
    if es != [] {
      CarriesOn(doc, ki, s, c, es[0]);
      CycleIsNumericallySafe(doc, s, es[0]);
      TheOutageCarries(doc, ki, RunCycle(doc, s, es[0]).0, CarryOn(doc, ki, c, es[0]), es[1..]);
    }
  }

  /** What the first cycle of an outage leaves held of a loop that was acting. */
  function FirstCarry(doc: Document, l: Loop, e: Surroundings): Carry
    requires Validated(doc) && Sound(TuningOf(doc), l)
  {
    Windowed(doc, l.pid.ki, Carry(l.pid.integral.r, FirstHold(doc, e), l.pid.hi), e, l.pid.lastTime)
  }

  lemma FirstCarries(doc: Document, s: Proc, e: Surroundings)
    requires Validated(doc) && Sound(TuningOf(doc), s.loop) && s.loop.pid.auto && s.loop.held.None?
    requires (InOutage(doc, e) || Refused(doc, e)) && !RunCycle(doc, s, e).1.Stopped?
    ensures Holding(doc, s.loop.pid.ki, RunCycle(doc, s, e).0.loop, FirstCarry(doc, s.loop, e))
  {
    if Refused(doc, e) {
      assert Entered(s, e) == s.loop;
      RefusedCycle(doc, s, e);
      StepKeepsTheHold(TuningOf(doc), s.loop, FeedIn(doc, e), e.stepAt);
      StepIntegrates(TuningOf(doc), s.loop, FeedIn(doc, e), e.stepAt);
    } else if Acting(doc, e) {
      FailingCycle(doc, s, e);
    } else {
      IdleCycle(doc, s, e);
    }
  }

  /** Over any outage at all - cycles that do not act, that fail before their step or that are refused
      after it, in any order - the next window is entered with the clamped sum of every refused cycle's
      ki x error x dt, begun again from nothing wherever a window is entered more than 1800 seconds
      after the hold before it. */
  lemma AnOutageIntegratesEachRefusal(doc: Document, s: Proc, es: seq<Surroundings>, e: Surroundings)
    requires Validated(doc) && Sound(TuningOf(doc), s.loop) && s.loop.pid.auto && s.loop.held.None?
    requires es != [] && AnyOutage(doc, es) && RunAll(doc, s, es).1
    ensures var held := CarryAll(doc, s.loop.pid.ki, FirstCarry(doc, s.loop, es[0]), es[1..]);
            && RunAll(doc, s, es).0.loop.pid.integral == Finite(held.integral)
            && Entered(RunAll(doc, s, es).0, e).pid.integral == Finite(EnteredWith(held, doc.levels[0], e.at))
  {
    var ki, first := s.loop.pid.ki, FirstCarry(doc, s.loop, es[0]);
    FirstCarries(doc, s, es[0]);
    CycleIsNumericallySafe(doc, s, es[0]);
    TheOutageCarries(doc, ki, RunCycle(doc, s, es[0]).0, first, es[1..]);
    RunIsNumericallySafe(doc, s, es);
    EnteredIs(doc, ki, RunAll(doc, s, es).0, CarryAll(doc, ki, first, es[1..]), e);
  }

  // ---------- exactly when an outage leaves the integral alone ----------

  /** A step that moves the integral nowhere: there is nothing to add, or it is at the limit already. */
  predicate Harmless(integral: real, increment: real, lo: real, hi: real) {
    && lo <= integral <= hi
    && (increment == 0.0 || (increment > 0.0 && integral == hi) || (increment < 0.0 && integral == lo))
  }

  lemma ClampedAlone(integral: real, increment: real, lo: real, hi: real)
    requires lo <= hi
    ensures Summed(integral, increment, lo, hi) == integral <==>
              Harmless(integral, increment, lo, hi)
  {
  }

  /** A cycle that is not refused, or whose step is harmless. `last` is when its PID was last called or
      let go. */
  predicate LeavesAlone(doc: Document, ki: real, integral: real, hi: real, e: Surroundings, last: real)
    requires Laddered(TuningOf(doc))
  {
    Refused(doc, e) ==>
      var f := FeedIn(doc, e);
      Harmless(integral, Increment(ki, f, Interval(f.dt, e.stepAt, last)),
               doc.levels[0], UpperLimit(TuningOf(doc), f, hi))
  }

  /** The upper limit matters where no cap sets it anew each cycle. */
  predicate SameLimit(doc: Document, c: Carry, hi: real) {
    TuningOf(doc).capped || c.hi == hi
  }

  lemma OneCycleLeavesAlone(doc: Document, ki: real, c: Carry, hi: real, e: Surroundings, last: real)
    requires Validated(doc) && SameLimit(doc, c, hi)
    requires Refused(doc, e) ==> doc.levels[0] <= UpperLimit(TuningOf(doc), FeedIn(doc, e), hi)
    ensures Windowed(doc, ki, c, e, last).integral == c.integral <==> LeavesAlone(doc, ki, c.integral, hi, e, last)
    ensures SameLimit(doc, Windowed(doc, ki, c, e, last), hi)
  {
    if Refused(doc, e) {
      var f := FeedIn(doc, e);
      var top := UpperLimit(TuningOf(doc), f, hi);
      assert UpperLimit(TuningOf(doc), f, c.hi) == top;
      ClampedAlone(c.integral, Increment(ki, f, Interval(f.dt, e.stepAt, last)), doc.levels[0], top);
    }
  }

  lemma LimitsAreInOrder(doc: Document, hi: real, e: Surroundings)
    requires Validated(doc) && Refused(doc, e) && doc.levels[0] <= hi
    ensures doc.levels[0] <= UpperLimit(TuningOf(doc), FeedIn(doc, e), hi)
  {
    CapKeepsTheBottom(TuningOf(doc), FeedIn(doc, e));
  }

  ghost predicate NeverMoves(doc: Document, ki: real, c: Carry, es: seq<Surroundings>, integral: real)
    requires Laddered(TuningOf(doc))
  {
    forall m :: 0 <= m <= |es| ==> CarryAll(doc, ki, c, es[..m]).integral == integral
  }

  ghost predicate EachLeavesAlone(doc: Document, ki: real, integral: real, hi: real, es: seq<Surroundings>)
    requires Laddered(TuningOf(doc))
  {
    forall i :: 0 <= i < |es| ==> LeavesAlone(doc, ki, integral, hi, es[i], es[i].at)
  }

  lemma NeverMovesInTurn(doc: Document, ki: real, c: Carry, es: seq<Surroundings>, integral: real)
    requires Laddered(TuningOf(doc)) && es != []
    ensures NeverMoves(doc, ki, c, es, integral) <==>
              c.integral == integral && NeverMoves(doc, ki, CarryOn(doc, ki, c, es[0]), es[1..], integral)
  {
    var next := CarryOn(doc, ki, c, es[0]);
    forall m | 0 <= m <= |es| - 1
      ensures CarryAll(doc, ki, next, es[1..][..m]) == CarryAll(doc, ki, c, es[..m + 1])
    {
      assert es[..m + 1][0] == es[0] && es[..m + 1][1..] == es[1..][..m];
    }
    assert CarryAll(doc, ki, c, es[..0]) == c;
    if c.integral == integral && NeverMoves(doc, ki, next, es[1..], integral) {
      forall m | 0 <= m <= |es|
        ensures CarryAll(doc, ki, c, es[..m]).integral == integral
      {
        if m > 0 {
          assert CarryAll(doc, ki, next, es[1..][..m - 1]) == CarryAll(doc, ki, c, es[..m]);
        }
      }
    }
    if NeverMoves(doc, ki, c, es, integral) {
      forall m | 0 <= m <= |es| - 1
        ensures CarryAll(doc, ki, next, es[1..][..m]).integral == integral
      {
        assert CarryAll(doc, ki, c, es[..m + 1]).integral == integral;
      }
    }
  }

  lemma EachInTurn(doc: Document, ki: real, integral: real, hi: real, es: seq<Surroundings>)
    requires Laddered(TuningOf(doc)) && es != []
    ensures EachLeavesAlone(doc, ki, integral, hi, es) <==>
              LeavesAlone(doc, ki, integral, hi, es[0], es[0].at) && EachLeavesAlone(doc, ki, integral, hi, es[1..])
  {
    assert forall i :: 0 <= i < |es[1..]| ==> es[1..][i] == es[i + 1];
    if LeavesAlone(doc, ki, integral, hi, es[0], es[0].at) && EachLeavesAlone(doc, ki, integral, hi, es[1..]) {
      forall i | 0 <= i < |es|
        ensures LeavesAlone(doc, ki, integral, hi, es[i], es[i].at)
      {
        if i > 0 {
          assert es[i] == es[1..][i - 1];
        }
      }
    }
  }

  lemma {:induction false} CarriedAlone(doc: Document, ki: real, c: Carry, hi: real, es: seq<Surroundings>)
    requires Validated(doc) && SameLimit(doc, c, hi) && doc.levels[0] <= hi && EveryHoldBrief(doc, es, c.since)
    ensures NeverMoves(doc, ki, c, es, c.integral) <==> EachLeavesAlone(doc, ki, c.integral, hi, es)
    decreases |es|
  {
    if es == [] {
      assert es[..0] == [];
    } else {
      NeverMovesInTurn(doc, ki, c, es, c.integral);
      EachInTurn(doc, ki, c.integral, hi, es);
      OneBriefCycle(doc, ki, c, hi, es[0]);
      var next := CarryOn(doc, ki, c, es[0]);
      if next.integral == c.integral {
        CarriedAlone(doc, ki, next, hi, es[1..]);
      } else {
        assert es[1..][..0] == [];
        assert CarryAll(doc, ki, next, es[1..][..0]).integral != c.integral;
      }
    }
  }

  lemma OneBriefCycle(doc: Document, ki: real, c: Carry, hi: real, e: Surroundings)
    requires Validated(doc) && SameLimit(doc, c, hi) && doc.levels[0] <= hi
    requires Acting(doc, e) ==> Brief(c.since, e.at)
    ensures var next := CarryOn(doc, ki, c, e);
            && SameLimit(doc, next, hi) && next.since == (if Acting(doc, e) then e.failedAt else c.since)
            && (next.integral == c.integral <==> LeavesAlone(doc, ki, c.integral, hi, e, e.at))
  {
    if Refused(doc, e) {
      LimitsAreInOrder(doc, hi, e);
    }
    OneCycleLeavesAlone(doc, ki, Carry(c.integral, e.failedAt, c.hi), hi, e, e.at);
  }

  lemma {:induction false} APrefixStillRuns(doc: Document, s: Proc, es: seq<Surroundings>, m: nat)
    requires Laddered(TuningOf(doc)) && Declared(doc.plant.keys, doc.plant.devices)
    requires RunAll(doc, s, es).1 && m <= |es|
    ensures RunAll(doc, s, es[..m]).1
    decreases |es|
  {
    if m > 0 {
      assert es[..m][0] == es[0] && es[..m][1..] == es[1..][..m - 1];
      APrefixStillRuns(doc, RunCycle(doc, s, es[0]).0, es[1..], m - 1);
    }
  }

  /** Over an outage none of whose windows is entered after the lease is spent, the loop's integral never
      moves if and only if every cycle that is refused has nothing to add, or is at the limit it would
      be pushed to: an outage of cycles that fail before their step moves nothing, and one of refusals
      does, unless ki x error is zero or the limit is already reached. */
  lemma ExactlyWhenAnOutageMovesNothing(doc: Document, s: Proc, es: seq<Surroundings>)
    requires Validated(doc) && Sound(TuningOf(doc), s.loop) && s.loop.pid.auto && s.loop.held.None?
    requires es != [] && AnyOutage(doc, es) && RunAll(doc, s, es).1
    requires EveryHoldBrief(doc, es[1..], FirstHold(doc, es[0]))
    ensures (forall m :: 1 <= m <= |es| ==> RunAll(doc, s, es[..m]).0.loop.pid.integral == s.loop.pid.integral) <==>
              var p := s.loop.pid;
              && LeavesAlone(doc, p.ki, p.integral.r, p.hi, es[0], p.lastTime)
              && EachLeavesAlone(doc, p.ki, p.integral.r, p.hi, es[1..])
  {
    var p, c := s.loop.pid, FirstCarry(doc, s.loop, es[0]);
    if Refused(doc, es[0]) {
      LimitsAreInOrder(doc, p.hi, es[0]);
    }
    OneCycleLeavesAlone(doc, p.ki, Carry(p.integral.r, FirstHold(doc, es[0]), p.hi), p.hi, es[0], p.lastTime);
    forall m | 1 <= m <= |es|
      ensures RunAll(doc, s, es[..m]).0.loop.pid.integral == Finite(CarryAll(doc, p.ki, c, es[1..][..m - 1]).integral)
    {
      APrefixIsCarried(doc, s, es, m);
    }
    MovesExactlyAsCarried(doc, s, es, c);
    if c.integral == p.integral.r {
      CarriedAlone(doc, p.ki, c, p.hi, es[1..]);
    }
  }

  lemma APrefixIsCarried(doc: Document, s: Proc, es: seq<Surroundings>, m: nat)
    requires Validated(doc) && Sound(TuningOf(doc), s.loop) && s.loop.pid.auto && s.loop.held.None?
    requires AnyOutage(doc, es) && RunAll(doc, s, es).1 && 1 <= m <= |es|
    ensures RunAll(doc, s, es[..m]).0.loop.pid.integral
         == Finite(CarryAll(doc, s.loop.pid.ki, FirstCarry(doc, s.loop, es[0]), es[1..][..m - 1]).integral)
  {
    APrefixStillRuns(doc, s, es, m);
    assert es[..m][0] == es[0] && es[..m][1..] == es[1..][..m - 1];
    AnOutageIntegratesEachRefusal(doc, s, es[..m], es[0]);
  }

  lemma MovesExactlyAsCarried(doc: Document, s: Proc, es: seq<Surroundings>, c: Carry)
    requires Laddered(TuningOf(doc)) && Declared(doc.plant.keys, doc.plant.devices) && es != []
    requires s.loop.pid.integral.Finite?
    requires forall m :: 1 <= m <= |es| ==>
               RunAll(doc, s, es[..m]).0.loop.pid.integral
               == Finite(CarryAll(doc, s.loop.pid.ki, c, es[1..][..m - 1]).integral)
    ensures (forall m :: 1 <= m <= |es| ==> RunAll(doc, s, es[..m]).0.loop.pid.integral == s.loop.pid.integral) <==>
              NeverMoves(doc, s.loop.pid.ki, c, es[1..], s.loop.pid.integral.r)
    ensures NeverMoves(doc, s.loop.pid.ki, c, es[1..], s.loop.pid.integral.r) ==> c.integral == s.loop.pid.integral.r
  {
    var ki, rest, integral := s.loop.pid.ki, es[1..], s.loop.pid.integral.r;
    assert rest[..0] == [];
    if forall m :: 1 <= m <= |es| ==> RunAll(doc, s, es[..m]).0.loop.pid.integral == s.loop.pid.integral {
      forall m | 0 <= m <= |rest|
        ensures CarryAll(doc, ki, c, rest[..m]).integral == integral
      {
        assert RunAll(doc, s, es[..m + 1]).0.loop.pid.integral == s.loop.pid.integral;
      }
    }
    if NeverMoves(doc, ki, c, rest, integral) {
      assert CarryAll(doc, ki, c, rest[..0]).integral == integral;
      forall m | 1 <= m <= |es|
        ensures RunAll(doc, s, es[..m]).0.loop.pid.integral == s.loop.pid.integral
      {
        assert CarryAll(doc, ki, c, rest[..m - 1]).integral == integral;
      }
    }
  }

  // ---------- an outage that winds the loop up ----------

  /** A lamp that would be lit to close an error of one, with an integral gain of one. */
  function RefusingLamp(): Document {
    LampUntilZero().(period := None, levels := [0.0, 100.0], ki := 1.0)
  }

  /** A cycle each minute whose inputs take a second to read, and whose lamp refuses. */
  function RefusedMinute(i: int): Surroundings {
    var at, refusing := 60.0 * i as real, Far(map[], map["lamp" := Connection]);
    Surroundings(at, at + 1.0, at + 1.0, true, Read(map[]), Read(map[]), None,
                 [Dwell(at + 1.0, [Order("lamp", Switch(true))], refusing)], refusing, refusing)
  }

  /** This many refused minutes, the first of them at this one. */
  function Refusals(from: int, n: nat): (es: seq<Surroundings>)
    ensures |es| == n && forall i :: 0 <= i < n ==> es[i] == RefusedMinute(from + i)
  {
    seq(n, i => RefusedMinute(from + i))
  }

  /** One order for a device that refuses. */
  lemma ARefusedOrder(p: Plant, far: Far, o: Order)
    requires Commandable(p, o.key) && p.targets == [TargetOf(p.devices[o.key])]
    requires p.devices[o.key].source in p.actuating && TargetOf(p.devices[o.key]) !in far.unopened
    requires o.key in far.refuses
    ensures Command(p, far, [o]) == Delivery([], Some(far.refuses[o.key]))
  {
    var t := p.targets[0];
    assert [o][..0] == [] && ItemsFor(p, [], t) == [];
    assert [] + [Scaled(p, o)] == [Scaled(p, o)];
    assert ItemsFor(p, [o], t) == [Scaled(p, o)];
  }

  lemma TheLampRefuses(i: int)
    ensures PlanOutcome(RefusingLamp(), RefusedMinute(i).plan).Retry?
  {
    var p, far, o := RefusingLamp().plant, RefusedMinute(i).plan[0].far, Order("lamp", Switch(true));
    ARefusedOrder(p, far, o);
  }

  lemma TheLampIsValidated()
    ensures Validated(RefusingLamp())
  {
    LampIsValidated();
    assert RefusingLamp().plant == LampUntilZero().plant;
    assert ClosingState(RefusingLamp()) == LampUntilZero().safeState;
  }

  lemma TheMinuteIsRefused(i: int)
    ensures Refused(RefusingLamp(), RefusedMinute(i))
    ensures var f := FeedIn(RefusingLamp(), RefusedMinute(i));
            Increment(1.0, f, Interval(f.dt, RefusedMinute(i).stepAt, RefusedMinute(i).at)) == 1.0
            && UpperLimit(TuningOf(RefusingLamp()), f, 100.0) == 100.0
  {
    TheLampRefuses(i);
  }

  function Sum(n: nat): real {
    if n as real > 100.0 then 100.0 else n as real
  }

  lemma OneMoreOfOne(doc: Document, e: Surroundings, since: real, so: nat)
    requires Laddered(TuningOf(doc)) && Refused(doc, e) && doc.levels[0] == 0.0 && Brief(since, e.at)
    requires var f := FeedIn(doc, e);
             Increment(1.0, f, Interval(f.dt, e.stepAt, e.at)) == 1.0 && UpperLimit(TuningOf(doc), f, 100.0) == 100.0
    ensures CarryOn(doc, 1.0, Carry(Sum(so), since, 100.0), e) == Carry(Sum(so + 1), e.failedAt, 100.0)
  {
  }

  /** When the hold of this minute begins. */
  function HeldFrom(i: int): real {
    60.0 * i as real + 1.0
  }

  lemma AMinuteAddsOne(i: int, so: nat)
    ensures var doc := RefusingLamp();
            Laddered(TuningOf(doc))
            && CarryOn(doc, 1.0, Carry(Sum(so), HeldFrom(i - 1), 100.0), RefusedMinute(i))
               == Carry(Sum(so + 1), HeldFrom(i), 100.0)
  {
    TheLampIsValidated();
    TheMinuteIsRefused(i);
    OneMoreOfOne(RefusingLamp(), RefusedMinute(i), HeldFrom(i - 1), so);
  }

  /** Cycles that carry each of these on to the next carry the first on to the last. */
  lemma {:induction false} CarriedAlong(doc: Document, ki: real, es: seq<Surroundings>, carries: seq<Carry>)
    requires Laddered(TuningOf(doc)) && |carries| == |es| + 1
    requires forall i :: 0 <= i < |es| ==> CarryOn(doc, ki, carries[i], es[i]) == carries[i + 1]
    ensures CarryAll(doc, ki, carries[0], es) == carries[|es|]
    decreases |es|
  {
    if es != [] {
      forall i | 0 <= i < |es| - 1
        ensures CarryOn(doc, ki, carries[1..][i], es[1..][i]) == carries[1..][i + 1]
      {
        assert carries[1..][i] == carries[i + 1] && es[1..][i] == es[i + 1];
      }
      CarriedAlong(doc, ki, es[1..], carries[1..]);
      assert CarryOn(doc, ki, carries[0], es[0]) == carries[1];
    }
  }

  /** What a refused cycle writes down is what it holds. */
  lemma WrittenIsHeld(doc: Document, s: Proc, e: Surroundings)
    requires Validated(doc) && Sound(TuningOf(doc), s.loop) && Refused(doc, e)
    ensures !RunCycle(doc, s, e).1.Stopped? && RunCycle(doc, s, e).0.stored.Some?
    ensures RunCycle(doc, s, e).0.stored.value.0.integral == Some(RunCycle(doc, s, e).0.loop.pid.integral)
  {
    RefusedCycle(doc, s, e);
    CycleIsNumericallySafe(doc, s, e);
    HoldingKeepsTheIntegral(StepLoop(TuningOf(doc), Entered(s, e), FeedIn(doc, e), e.stepAt).0, e.failedAt);
  }

  lemma HoldingKeepsTheIntegral(l: Loop, now: real)
    ensures HoldLoop(l, now).pid.integral == l.pid.integral
    ensures l.pid.integral.Finite? ==> CaptureLoop(l).integral == Some(l.pid.integral)
  {
  }

  lemma {:induction false} RefusalsNeverStop(doc: Document, s: Proc, es: seq<Surroundings>)
    requires Validated(doc) && Sound(TuningOf(doc), s.loop)
    requires forall i :: 0 <= i < |es| ==> Refused(doc, es[i])
    ensures RunAll(doc, s, es).1
    ensures var after := RunAll(doc, s, es).0;
            es != [] ==> after.stored.Some? && after.stored.value.0.integral == Some(after.loop.pid.integral)
    decreases |es|
  {
    if es != [] {
      WrittenIsHeld(doc, s, es[0]);
      CycleIsNumericallySafe(doc, s, es[0]);
      RefusalsNeverStop(doc, RunCycle(doc, s, es[0]).0, es[1..]);
    }
  }

  /** Refused cycles that carry each of these on to the next leave the loop, and the memory that is
      stored, with the last. */
  lemma RefusalsCarryAlong(doc: Document, s: Proc, es: seq<Surroundings>, carries: seq<Carry>)
    requires Validated(doc) && Sound(TuningOf(doc), s.loop) && s.loop.pid.auto && s.loop.held.None?
    requires |carries| == |es| > 0 && forall i :: 0 <= i < |es| ==> Refused(doc, es[i])
    requires FirstCarry(doc, s.loop, es[0]) == carries[0]
    requires forall i :: 0 <= i < |es| - 1 ==> CarryOn(doc, s.loop.pid.ki, carries[i], es[i + 1]) == carries[i + 1]
    ensures var (after, runs) := RunAll(doc, s, es);
            var integral := Finite(carries[|es| - 1].integral);
            && runs && after.loop.pid.integral == integral
            && after.stored.Some? && after.stored.value.0.integral == Some(integral)
  {
    RefusalsNeverStop(doc, s, es);
    AnOutageIntegratesEachRefusal(doc, s, es, es[0]);
    CarriedAlong(doc, s.loop.pid.ki, es[1..], carries);
  }

  function FromOne(n: nat): (carries: seq<Carry>)
    ensures |carries| == n
  {
    seq(n, i requires 0 <= i => Carry(Sum(1 + i), HeldFrom(i), 100.0))
  }

  /** A loop that acts, and whose first cycle leaves one. */
  ghost predicate StartsAtOne(doc: Document, l: Loop, e: Surroundings) {
    && Validated(doc) && Sound(TuningOf(doc), l) && l.pid.auto && l.held.None? && l.pid.ki == 1.0
    && FirstCarry(doc, l, e) == Carry(Sum(1), HeldFrom(0), 100.0)
  }

  ghost predicate EachRefused(doc: Document, es: seq<Surroundings>) {
    forall i :: 0 <= i < |es| ==> Refused(doc, es[i])
  }

  /** Each cycle but the first adds one to what the one before it left. */
  ghost predicate EachAddsOne(doc: Document, es: seq<Surroundings>) {
    && Laddered(TuningOf(doc))
    && forall i :: 0 <= i < |es| - 1 ==> CarryOn(doc, 1.0, FromOne(|es|)[i], es[i + 1]) == FromOne(|es|)[i + 1]
  }

  lemma CountedUp(doc: Document, s: Proc, es: seq<Surroundings>)
    requires es != [] && StartsAtOne(doc, s.loop, es[0]) && EachRefused(doc, es) && EachAddsOne(doc, es)
    ensures Validated(doc)
    ensures var (after, runs) := RunAll(doc, s, es);
            && runs && after.loop.pid.integral == Finite(Sum(|es|))
            && after.stored.Some? && after.stored.value.0.integral == Some(Finite(Sum(|es|)))
  {
    RefusalsCarryAlong(doc, s, es, FromOne(|es|));
  }

  lemma TheFirstMinuteIsOne(l: Loop)
    requires l == Fresh(TuningOf(RefusingLamp()), 0.0)
    ensures StartsAtOne(RefusingLamp(), l, RefusedMinute(0))
  {
    TheLampIsValidated();
    TheMinuteIsRefused(0);
  }

  lemma EachMinuteIsRefused(n: nat)
    ensures EachRefused(RefusingLamp(), Refusals(0, n))
  {
    forall i | 0 <= i < n
      ensures Refused(RefusingLamp(), Refusals(0, n)[i])
    {
      TheMinuteIsRefused(i);
    }
  }

  lemma EachMinuteAddsOne(n: nat)
    ensures EachAddsOne(RefusingLamp(), Refusals(0, n))
  {
    TheLampIsValidated();
    forall i | 0 <= i < n - 1
      ensures AddsOneAt(RefusingLamp(), Refusals(0, n), i)
    {
      AMinuteAddsOne(i + 1, i + 1);
    }
    SoEachAddsOne(RefusingLamp(), Refusals(0, n));
  }

  ghost predicate AddsOneAt(doc: Document, es: seq<Surroundings>, i: nat)
    requires Laddered(TuningOf(doc)) && i + 1 < |es|
  {
    CarryOn(doc, 1.0, Carry(Sum(i + 1), HeldFrom(i), 100.0), es[i + 1]) == Carry(Sum(i + 2), HeldFrom(i + 1), 100.0)
  }

  lemma SoEachAddsOne(doc: Document, es: seq<Surroundings>)
    requires Laddered(TuningOf(doc)) && forall i :: 0 <= i < |es| - 1 ==> AddsOneAt(doc, es, i)
    ensures EachAddsOne(doc, es)
  {
    forall i | 0 <= i < |es| - 1
      ensures CarryOn(doc, 1.0, FromOne(|es|)[i], es[i + 1]) == FromOne(|es|)[i + 1]
    {
      assert AddsOneAt(doc, es, i);
    }
  }

  /** A lamp that refuses every minute: after the first refusal the integral is one, held and stored,
      and after n of them it is n, up to the top of the ladder. */
  lemma RefusalsWindTheLoopUp(s: Proc, es: seq<Surroundings>)
    requires s.loop == Fresh(TuningOf(RefusingLamp()), 0.0) && es != [] && es == Refusals(0, |es|)
    ensures Validated(RefusingLamp())
    ensures var (after, runs) := RunAll(RefusingLamp(), s, es);
            && runs && after.loop.pid.integral == Finite(Sum(|es|))
            && after.stored.Some? && after.stored.value.0.integral == Some(Finite(Sum(|es|)))
  {
    TheseMinutes(s.loop, es);
    CountedUp(RefusingLamp(), s, es);
  }

  lemma TheseMinutes(l: Loop, es: seq<Surroundings>)
    requires l == Fresh(TuningOf(RefusingLamp()), 0.0) && es != [] && es == Refusals(0, |es|)
    ensures StartsAtOne(RefusingLamp(), l, es[0]) && EachRefused(RefusingLamp(), es) && EachAddsOne(RefusingLamp(), es)
  {
    TheFirstMinuteIsOne(l);
    EachMinuteIsRefused(|es|);
    EachMinuteAddsOne(|es|);
  }
}
