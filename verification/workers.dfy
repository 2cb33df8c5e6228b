/** Collecting from each source for as long as the service runs: the wait after a failure, the thread
    that is restarted unless it gave up, and the watchdog over a thread that is stuck
    (sendtoinflux.py). */
module Workers {
  import opened Numbers

  // ---------- backoff ----------

  function Power(n: nat): nat {
    if n == 0 then 1 else 2 * Power(n - 1)
  }

  /** Python's `int.bit_length`. */
  function BitLength(n: nat): nat {
    if n == 0 then 0 else 1 + BitLength(n / 2)
  }

  function Least(a: int, b: int): int {
    if b < a then b else a
  }

  function Most(a: int, b: int): int {
    if b > a then b else a
  }

  /** `get_backoff_delay` on whole numbers: the exponent is clamped before the power is taken. */
  function BackoffDelay(failures: int, base: int, ceiling: int): int {
    if base <= 0 then 0
    else
      var ratio := Most(1, ceiling / base);
      var exponent := Least(Most(0, failures - 1), BitLength(ratio));
      Least(base * Power(exponent), ceiling)
  }

  lemma {:induction false} PowerGrows(m: nat, n: nat)
    requires m <= n
    ensures Power(m) <= Power(n)
  {
    if m < n {
      PowerGrows(m, n - 1);
    }
  }

  lemma {:induction false} BitLengthBounds(n: nat)
    ensures n < Power(BitLength(n))
  {
    if n > 0 {
      BitLengthBounds(n / 2);
    }
  }

  /** Clamping the exponent changes no answer, for any whole numbers: the delay is what the unclamped
      doubling, cut off at the ceiling, would be, and nothing where the base is not positive. */
  lemma ClampingTheExponentChangesNothing(failures: int, base: int, ceiling: int)
    ensures BackoffDelay(failures, base, ceiling)
         == if base <= 0 then 0 else Least(base * Power(Most(0, failures - 1)), ceiling)
    ensures base > 0 && ceiling > 0 ==> 0 < BackoffDelay(failures, base, ceiling) <= ceiling
  {
    if base > 0 {
      PowerGrows(0, Most(0, failures - 1));
      TimesGrows(base, 1, Power(Most(0, failures - 1)));
      if ceiling > 0 && failures >= 1 {
        ClampedWhereItGrows(failures, base, ceiling);
      } else {
        PowerGrows(0, Least(Most(0, failures - 1), BitLength(Most(1, ceiling / base))));
        TimesGrows(base, 1, Power(Least(Most(0, failures - 1), BitLength(Most(1, ceiling / base)))));
      }
    }
  }

  lemma ClampedWhereItGrows(failures: nat, base: int, ceiling: int)
    requires failures >= 1 && base > 0 && ceiling > 0
    ensures BackoffDelay(failures, base, ceiling) == Least(base * Power(failures - 1), ceiling)
    ensures 0 < BackoffDelay(failures, base, ceiling) <= ceiling
  {
    var ratio := Most(1, ceiling / base);
    var clamp := BitLength(ratio);
    BitLengthBounds(ratio);
    if failures - 1 > clamp {
      PowerGrows(clamp, failures - 1);
      PastTheCeiling(base, ceiling, Power(clamp));
      PastTheCeiling(base, ceiling, Power(failures - 1));
    }
    PowerGrows(0, Least(failures - 1, clamp));
    TimesGrows(base, 1, Power(Least(failures - 1, clamp)));
  }

  lemma PastTheCeiling(base: int, ceiling: int, power: int)
    requires base > 0 && ceiling > 0 && power > ceiling / base
    ensures base * power > ceiling
  {
    var ratio := ceiling / base;
    assert ceiling == base * ratio + ceiling % base;
    TimesOneMore(base, ratio);
    TimesGrows(base, ratio + 1, power);
  }

  lemma TimesOneMore(base: int, ratio: int)
    ensures base * (ratio + 1) == base * ratio + base
  {
  }

  lemma BackoffNeverShortens(m: nat, n: nat, base: int, ceiling: int)
    requires 1 <= m <= n && base > 0 && ceiling > 0
    ensures BackoffDelay(m, base, ceiling) <= BackoffDelay(n, base, ceiling)
  {
    ClampingTheExponentChangesNothing(m, base, ceiling);
    ClampingTheExponentChangesNothing(n, base, ceiling);
    PowerGrows(m - 1, n - 1);
    TimesGrows(base, Power(m - 1), Power(n - 1));
  }

  lemma TimesGrows(base: int, a: int, b: int)
    requires base > 0 && a <= b
    ensures base * a <= base * b
  {
  }

  // ---------- one unit's threads ----------

  datatype Outcome = Succeeded | Failed

  /** A worker collects until it is configured wrong, which it notes before it returns, or until
      something ends its thread. `failures` is what it counts; `cycles` is every cycle it has had. */
  datatype Stage = Collecting | GivingUp | Noted | Dead

  datatype Worker = Worker(stage: Stage, failures: nat, cycles: seq<Outcome>)

  /** Every thread there has been for one unit, the supervisor's own being the last; whether the unit
      is among those that gave up; and what the supervisor has just seen of its thread. */
  datatype Unit = Unit(threads: seq<Worker>, stopped: bool, sawDead: Option<bool>)

  datatype Step =
    | Cycle(thread: nat, outcome: Outcome)
    | Misconfigured(thread: nat)
    | Note(thread: nat)
    | Return(thread: nat)
    | Ends(thread: nat)
    | Look
    | Judge

  predicate At(u: Unit, thread: nat, stage: Stage) {
    thread < |u.threads| && u.threads[thread].stage == stage
  }

  predicate Enabled(u: Unit, step: Step) {
    match step
    case Cycle(t, _) => At(u, t, Collecting)
    case Misconfigured(t) => At(u, t, Collecting)
    case Note(t) => At(u, t, GivingUp)
    case Return(t) => At(u, t, Noted)
    case Ends(t) => At(u, t, Collecting)
    case Look => u.threads != [] && u.sawDead.None?
    case Judge => u.sawDead.Some?
  }

  function Put(u: Unit, t: nat, w: Worker): Unit
    requires t < |u.threads|
  {
    u.(threads := u.threads[t := w])
  }

  const FRESH := Worker(Collecting, 0, [])

  /** The supervisor asks whether the thread is alive, and only after that whether the unit gave up;
      anything may happen between. */
  function Next(u: Unit, step: Step): Unit
    requires Enabled(u, step)
  {
    match step
    case Cycle(t, outcome) =>
      var w := u.threads[t];
      Put(u, t, Worker(Collecting, if outcome.Succeeded? then 0 else w.failures + 1, w.cycles + [outcome]))
    case Misconfigured(t) => Put(u, t, u.threads[t].(stage := GivingUp))
    case Note(t) => Put(u, t, u.threads[t].(stage := Noted)).(stopped := true)
    case Return(t) => Put(u, t, u.threads[t].(stage := Dead))
    case Ends(t) => Put(u, t, u.threads[t].(stage := Dead))
    case Look => u.(sawDead := Some(u.threads[|u.threads| - 1].stage.Dead?))
    case Judge =>
      if u.sawDead.value && !u.stopped then Unit(u.threads + [FRESH], u.stopped, None) else u.(sawDead := None)
  }

  ghost predicate Run(steps: seq<Step>, states: seq<Unit>) {
    && |states| == |steps| + 1
    && states[0] == Unit([FRESH], false, None)
    && forall i :: 0 <= i < |steps| ==> Enabled(states[i], steps[i]) && states[i + 1] == Next(states[i], steps[i])
  }

  /** The failures at the end of these cycles. */
  function Trailing(cycles: seq<Outcome>): nat {
    if cycles == [] || cycles[|cycles| - 1].Succeeded? then 0 else 1 + Trailing(cycles[..|cycles| - 1])
  }

  /** The failures since the last success, or since the worker began. */
  lemma {:induction false} TrailingSinceTheLastSuccess(cycles: seq<Outcome>)
    ensures var n := Trailing(cycles);
            && n <= |cycles|
            && (forall i :: |cycles| - n <= i < |cycles| ==> cycles[i].Failed?)
            && (n < |cycles| ==> cycles[|cycles| - n - 1].Succeeded?)
  {
    if cycles != [] && cycles[|cycles| - 1].Failed? {
      var earlier := cycles[..|cycles| - 1];
      TrailingSinceTheLastSuccess(earlier);
      assert forall i :: 0 <= i < |earlier| ==> earlier[i] == cycles[i];
    }
  }

  const BACKOFF_BASE_SECONDS := 5
  const BACKOFF_MAX_SECONDS := 300

  /** How a cycle of a worker ends. */
  datatype CycleEnd = Fine | Fault | BadConfiguration

  /** What a cycle beats, and how long the worker waits after it before it starts again. */
  datatype Beat = Beat(ok: bool, failures: nat, wait: int)

  function OutcomeOf(end: CycleEnd): Outcome {
    if end.Fine? then Succeeded else Failed
  }

  function Outcomes(ends: seq<CycleEnd>): seq<Outcome> {
    if ends == [] then [] else Outcomes(ends[..|ends| - 1]) + [OutcomeOf(ends[|ends| - 1])]
  }

  /** The beat of the last of these cycles: its failures are the run it ends, and its wait doubles with
      each of them up to the ceiling. */
  function LastBeat(ends: seq<CycleEnd>): Beat
    requires ends != []
  {
    var run, end := Trailing(Outcomes(ends)), ends[|ends| - 1];
    Beat(end.Fine?, run,
         if end.Fault? && run > 0 then Least(5 * Power(run - 1), 300) else 0)
  }

  /** The beats of the first cycles, one for each. */
  ghost predicate AreBeats(ends: seq<CycleEnd>, beats: seq<Beat>) {
    |beats| <= |ends| && forall i :: 0 <= i < |beats| ==> beats[i] == LastBeat(ends[..i + 1])
  }

  lemma OneMoreBeat(ends: seq<CycleEnd>, beats: seq<Beat>, beat: Beat)
    requires AreBeats(ends, beats) && |beats| < |ends| && beat == LastBeat(ends[..|beats| + 1])
    ensures AreBeats(ends, beats + [beat])
  {
  }

  /** `source_worker`, for as long as its cycles last or until it gives up. */
  method SourceWorker(ends: seq<CycleEnd>) returns (beats: seq<Beat>, gaveUp: bool)
    ensures AreBeats(ends, beats)
    ensures if gaveUp then |beats| > 0 && ends[|beats| - 1].BadConfiguration? else |beats| == |ends|
    ensures forall i :: 0 <= i < |beats| && ends[i].BadConfiguration? ==> gaveUp && i == |beats| - 1
  {
    beats := [];
    var failures := 0;
    for i := 0 to |ends|
      invariant |beats| == i && failures == Trailing(Outcomes(ends[..i])) && AreBeats(ends, beats)
      invariant forall j :: 0 <= j < i ==> !ends[j].BadConfiguration?
    {
      LastBeatFrom(ends, i);
      var beat;
      if ends[i].Fine? {
        failures := 0;
        beat := Beat(true, 0, 0);
      } else if ends[i].BadConfiguration? {
        beat := Beat(false, failures + 1, 0);
        OneMoreBeat(ends, beats, beat);
        return beats + [beat], true;
      } else {
        failures := failures + 1;
        beat := Beat(false, failures, BackoffDelay(failures, BACKOFF_BASE_SECONDS, BACKOFF_MAX_SECONDS));
      }
      OneMoreBeat(ends, beats, beat);
      beats := beats + [beat];
    }
    gaveUp := false;
  }

  lemma LastBeatFrom(ends: seq<CycleEnd>, i: nat)
    requires i < |ends|
    ensures var run := Trailing(Outcomes(ends[..i]));
            && Trailing(Outcomes(ends[..i + 1])) == (if ends[i].Fine? then 0 else run + 1)
            && LastBeat(ends[..i + 1]) ==
                 match ends[i]
                 case Fine => Beat(true, 0, 0)
                 case BadConfiguration => Beat(false, run + 1, 0)
                 case Fault => Beat(false, run + 1, BackoffDelay(run + 1, BACKOFF_BASE_SECONDS, BACKOFF_MAX_SECONDS))
  {
    OneMoreEnd(ends, i);
    ClampingTheExponentChangesNothing(Trailing(Outcomes(ends[..i])) + 1, BACKOFF_BASE_SECONDS, BACKOFF_MAX_SECONDS);
  }

  lemma OneMoreEnd(ends: seq<CycleEnd>, i: nat)
    requires i < |ends|
    ensures Trailing(Outcomes(ends[..i + 1])) == if ends[i].Fine? then 0 else Trailing(Outcomes(ends[..i])) + 1
  {
    assert ends[..i + 1][..i] == ends[..i];
    OneMoreCycle(Outcomes(ends[..i]), OutcomeOf(ends[i]));
  }

  /** Only the supervisor's own thread may be alive; one that gave up has noted it by the time it is
      dead; what the supervisor saw dead is dead. */
  ghost predicate Safe(u: Unit) {
    && u.threads != []
    && (forall t :: 0 <= t < |u.threads| - 1 ==> u.threads[t].stage.Dead?)
    && (u.threads[|u.threads| - 1].stage.Noted? ==> u.stopped)
    && (u.stopped ==> u.threads[|u.threads| - 1].stage.Noted? || u.threads[|u.threads| - 1].stage.Dead?)
    && (u.sawDead == Some(true) ==> u.threads[|u.threads| - 1].stage.Dead?)
    && (forall t :: 0 <= t < |u.threads| ==> u.threads[t].failures == Trailing(u.threads[t].cycles))
  }

  lemma OneMoreCycle(cycles: seq<Outcome>, outcome: Outcome)
    ensures Trailing(cycles + [outcome]) == if outcome.Succeeded? then 0 else Trailing(cycles) + 1
  {
    assert (cycles + [outcome])[..|cycles|] == cycles;
  }

  lemma StepKeepsSafe(u: Unit, step: Step)
    requires Safe(u) && Enabled(u, step)
    ensures Safe(Next(u, step))
  {
    if step.Cycle? {
      OneMoreCycle(u.threads[step.thread].cycles, step.outcome);
    }
  }

  lemma {:induction false} RunIsSafe(steps: seq<Step>, states: seq<Unit>, n: nat)
    requires Run(steps, states) && n < |states|
    ensures Safe(states[n])
  {
    if n > 0 {
      RunIsSafe(steps, states, n - 1);
      StepKeepsSafe(states[n - 1], steps[n - 1]);
    }
  }

  /** In every interleaving of worker and supervisor, a unit never has two live threads, and each
      worker's count, which its heartbeat carries, is the run of failures its cycles end with. */
  lemma OneLiveThread(steps: seq<Step>, states: seq<Unit>, n: nat, s: nat, t: nat)
    requires Run(steps, states) && n < |states| && s < |states[n].threads| && t < |states[n].threads|
    ensures !states[n].threads[s].stage.Dead? && !states[n].threads[t].stage.Dead? ==> s == t
    ensures states[n].threads[s].failures == Trailing(states[n].threads[s].cycles)
  {
    RunIsSafe(steps, states, n);
  }

  /** Some thread of this unit has met a configuration problem. */
  ghost predicate GaveUp(u: Unit) {
    u.stopped || exists t :: 0 <= t < |u.threads| && u.threads[t].stage.GivingUp?
  }

  lemma GivingUpLasts(u: Unit, step: Step)
    requires Safe(u) && Enabled(u, step) && GaveUp(u)
    ensures GaveUp(Next(u, step)) && |Next(u, step).threads| == |u.threads|
  {
    if !u.stopped {
      var t :| 0 <= t < |u.threads| && u.threads[t].stage.GivingUp?;
      assert t == |u.threads| - 1;
      assert !step.Note? ==> Next(u, step).threads[t].stage.GivingUp?;
    }
  }

  /** A unit that has met a configuration problem is never given another thread, from the moment it
      is met and before it has been noted. */
  lemma {:induction false} GivenUpIsNeverRestarted(steps: seq<Step>, states: seq<Unit>, m: nat, n: nat)
    requires Run(steps, states) && m <= n < |states| && GaveUp(states[m])
    ensures GaveUp(states[n]) && |states[n].threads| == |states[m].threads|
  {
    if m < n {
      GivenUpIsNeverRestarted(steps, states, m, n - 1);
      RunIsSafe(steps, states, n - 1);
      GivingUpLasts(states[n - 1], steps[n - 1]);
    }
  }

  /** When the supervisor judges what it saw, a unit is given one more thread, which starts afresh, if and
      only if its thread was dead and it has not given up; and otherwise nothing of it changes. */
  lemma AThreadThatEndedIsReplaced(steps: seq<Step>, states: seq<Unit>, n: nat)
    requires Run(steps, states) && n < |steps| && steps[n].Judge?
    ensures var before, after := states[n], states[n + 1];
            && before.threads <= after.threads && after.stopped == before.stopped && after.sawDead.None?
            && (|after.threads| == |before.threads| || |after.threads| == |before.threads| + 1)
            && (|after.threads| > |before.threads| <==> before.sawDead == Some(true) && !GaveUp(before))
            && (|after.threads| > |before.threads| ==>
                  var w := after.threads[|before.threads|];
                  w.stage.Collecting? && w.failures == 0 && w.cycles == [])
  {
    RunIsSafe(steps, states, n);
  }

  // ---------- the stall watchdog ----------

  const STALL_WARNING_SECONDS := 900.0
  const STALL_INTERVAL_MULTIPLIER := 3.0

  /** `_stall_threshold_seconds`, where None is an interval that is missing or not a number. */
  function StallThreshold(interval: Option<Num>): (t: real)
    ensures t >= 900.0
    ensures var usable := interval.Some? && interval.value.Finite? && interval.value.r > 0.0;
            (usable ==> t >= 3.0 * interval.value.r) && (t == 900.0 || (usable && t == 3.0 * interval.value.r))
  {
    if interval.Some? && interval.value.Finite? && interval.value.r > 0.0
       && interval.value.r * STALL_INTERVAL_MULTIPLIER > STALL_WARNING_SECONDS
    then interval.value.r * STALL_INTERVAL_MULTIPLIER else STALL_WARNING_SECONDS
  }

  type Key = (string, Option<string>)

  /** What one look at one unit finds: nothing to judge, or whether it is over its threshold. */
  datatype Sight = Passed | Over | Within

  function SightOf(
    unit: Key, stopped: set<Key>, activity: map<Key, real>, intervals: map<string, Num>, now: real): Sight
  {
    if unit in stopped || unit !in activity then Passed
    else if now - activity[unit] > StallThreshold(if unit.0 in intervals then Some(intervals[unit.0]) else None)
    then Over else Within
  }

  /** Looked at, and has not been heard of for longer than a quarter of an hour and than three of its
      intervals, where it has one that is a number. */
  predicate Silent(unit: Key, activity: map<Key, real>, intervals: map<string, Num>, now: real)
    requires unit in activity
  {
    && now - activity[unit] > 900.0
    && (unit.0 in intervals && intervals[unit.0].Finite? && intervals[unit.0].r > 0.0 ==>
          now - activity[unit] > 3.0 * intervals[unit.0].r)
  }

  lemma SightIsSilence(unit: Key, stopped: set<Key>, activity: map<Key, real>, intervals: map<string, Num>, now: real)
    ensures SightOf(unit, stopped, activity, intervals, now)
         == (if unit in stopped || unit !in activity then Passed
             else if Silent(unit, activity, intervals, now) then Over else Within)
  {
  }

  /** One tick of the watchdog: which units are newly said to be stalled. */
  method CheckForStalled(
    units: seq<Key>, stopped: set<Key>, activity: map<Key, real>, intervals: map<string, Num>, now: real,
    stalled: set<Key>)
    returns (flagged: set<Key>, said: set<Key>)
    ensures forall u :: u in said <==>
              && u in units && u !in stopped && u in activity && u !in stalled
              && Silent(u, activity, intervals, now)
    ensures forall u :: u in flagged <==>
              if u in units && u !in stopped && u in activity then Silent(u, activity, intervals, now) else u in stalled
  {
    flagged, said := stalled, {};
    for i := 0 to |units|
      invariant forall u :: u in said <==>
                  u in units[..i] && SightOf(u, stopped, activity, intervals, now).Over? && u !in stalled
      invariant forall u :: u in flagged <==>
                  Flag(u in stalled, if u in units[..i] then SightOf(u, stopped, activity, intervals, now) else Passed)
    {
      var unit := units[i];
      assert units[..i + 1] == units[..i] + [unit];
      match SightOf(unit, stopped, activity, intervals, now) {
        case Passed =>
        case Over =>
          if unit !in flagged {
            said := said + {unit};
            flagged := flagged + {unit};
          }
        case Within => flagged := flagged - {unit};
      }
    }
    assert units[..|units|] == units;
    forall u
      ensures SightOf(u, stopped, activity, intervals, now)
           == (if u in stopped || u !in activity then Passed
               else if Silent(u, activity, intervals, now) then Over else Within)
    {
      SightIsSilence(u, stopped, activity, intervals, now);
    }
  }

  /** Whether a unit is flagged after a look. */
  predicate Flag(before: bool, sight: Sight) {
    match sight
    case Passed => before
    case Over => true
    case Within => false
  }

  /** Whether it is flagged after these looks, in turn. */
  predicate FlagAfter(sights: seq<Sight>) {
    sights != [] && Flag(FlagAfter(sights[..|sights| - 1]), sights[|sights| - 1])
  }

  /** The stall the unit is in began at look `i`: it is over, and since the last look that judged it
      within, every judgement has been `Over`, `i` the first. */
  ghost predicate Begins(sights: seq<Sight>, i: nat)
    requires i < |sights|
  {
    sights[i].Over? && forall j :: 0 <= j < i && sights[j].Over? ==> exists k :: j < k < i && sights[k].Within?
  }

  lemma {:induction false} FlaggedSinceItBegan(sights: seq<Sight>)
    ensures FlagAfter(sights) <==>
              exists j :: 0 <= j < |sights| && sights[j].Over? && forall k :: j < k < |sights| ==> !sights[k].Within?
  {
    if sights != [] {
      var n := |sights| - 1;
      var earlier := sights[..n];
      FlaggedSinceItBegan(earlier);
      if sights[n].Passed? && FlagAfter(earlier) {
        var j :| 0 <= j < n && earlier[j].Over? && forall k :: j < k < n ==> !earlier[k].Within?;
        assert sights[j].Over? && forall k :: j < k < |sights| && k < n ==> sights[k] == earlier[k];
      }
      if exists j :: 0 <= j < |sights| && sights[j].Over? && forall k :: j < k < |sights| ==> !sights[k].Within? {
        var j :| 0 <= j < |sights| && sights[j].Over? && forall k :: j < k < |sights| ==> !sights[k].Within?;
        if j < n {
          assert earlier[j].Over? && forall k :: j < k < n ==> !earlier[k].Within?;
        }
      }
    }
  }

  /** A look says a unit is stalled exactly where a stall begins there: so each maximal stall that is
      observed is said once, at its first look, and never again until a look finds the unit within
      its threshold. */
  lemma SaidOncePerStall(sights: seq<Sight>, i: nat)
    requires i < |sights|
    ensures sights[i].Over? && !FlagAfter(sights[..i]) <==> Begins(sights, i)
  {
    FlaggedSinceItBegan(sights[..i]);
    assert forall k :: 0 <= k < i ==> sights[..i][k] == sights[k];
  }
}
