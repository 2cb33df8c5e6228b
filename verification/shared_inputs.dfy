/** Several control processes reading one source at once: a double-checked read around a lock the
    kernel releases when its holder dies (read_input, _live_reading and fetch_lock in
    toinflux/inputs.py). Every interleaving of the steps below is a run.

    What the model takes for granted is in the steps: the clock all processes share does not run
    backwards, a write-back is visible once it is made, and the handler sets no timestamp of its own.
    A collector may stamp a point at any time; where a theorem needs the stamps to be believable, that
    is no more than a minute ahead of the clock, it says so. */
module SharedInputs {
  import opened Numbers
  import FetchLocks
  import opened Inputs

  type Process = nat
  type Field = string

  /** Where a process is in `read_input`. `seen` is the newest stamp its query found. A process that
      stopped anywhere else in it is Away. */
  datatype Stage =
    | Away
    | Looking(field: Field, trigger: real, seen: Option<int>)
    | Contending(field: Field, trigger: real)
    | Locked(field: Field, trigger: real)
    | LookingAgain(field: Field, trigger: real, seen: Option<int>)
    | Fetching(field: Field, started: real)
    | Returned(moment: real, fields: set<Field>)
    | Finishing

  predicate HoldsLock(s: Stage) {
    s.Locked? || s.LookingAgain? || s.Fetching? || s.Returned? || s.Finishing?
  }

  /** `newest` is the newest stamp the database holds for a field. `completed` is kept for the
      theorems only: when the latest written-back fetch that returned a field had completed. */
  datatype System = System(
    minimum: real, now: real, newest: map<Field, int>, lock: Option<Process>, at: map<Process, Stage>,
    completed: map<Field, real>)

  datatype Step =
    | Tick(to: real)
    | Collect(fields: set<Field>, stamp: int)
    | Look(p: Process, field: Field, maxAge: real)
    | Judge(p: Process)
    | GiveUp(p: Process)
    | Acquire(p: Process)
    | LookAgain(p: Process)
    | JudgeAgain(p: Process)
    | FetchFails(p: Process)
    | FetchReturns(p: Process, fields: set<Field>)
    | WriteBack(p: Process)
    | WriteFails(p: Process)
    | Unlock(p: Process)
    | Die(p: Process)

  function StageOf(s: System, p: Process): Stage {
    if p in s.at then s.at[p] else Away
  }

  function Stored(s: System, field: Field): Option<int> {
    if field in s.newest then Some(s.newest[field]) else None
  }

  predicate FreshEnough(seen: Option<int>, now: real, trigger: real) {
    && seen.Some?
    && var age := UsableAge(Finite(seen.value as real), now);
       age.Some? && age.value <= trigger
  }

  function Stamped(newest: map<Field, int>, fields: set<Field>, stamp: int): map<Field, int> {
    newest + map f | f in fields :: if f in newest && newest[f] > stamp then newest[f] else stamp
  }

  predicate Enabled(s: System, step: Step) {
    match step
    case Tick(to) => s.now <= to
    case Collect(_, _) => true
    case Look(p, _, maxAge) => StageOf(s, p).Away? && maxAge >= 0.0
    case Judge(p) => StageOf(s, p).Looking?
    case GiveUp(p) => StageOf(s, p).Contending?
    case Acquire(p) => StageOf(s, p).Contending? && s.lock.None?
    case LookAgain(p) => StageOf(s, p).Locked?
    case JudgeAgain(p) => StageOf(s, p).LookingAgain?
    case FetchFails(p) => StageOf(s, p).Fetching?
    case FetchReturns(p, _) => StageOf(s, p).Fetching?
    case WriteBack(p) => StageOf(s, p).Returned?
    case WriteFails(p) => StageOf(s, p).Returned?
    case Unlock(p) => StageOf(s, p).Finishing?
    case Die(p) => true
  }

  function Put(s: System, p: Process, stage: Stage): System {
    s.(at := s.at[p := stage])
  }

  /** A query and the clock reading it is judged by are two steps, so anything may come between. */
  function Next(s: System, step: Step): System
    requires Enabled(s, step)
  {
    match step
    case Tick(to) => s.(now := to)
    case Collect(fields, stamp) => s.(newest := Stamped(s.newest, fields, stamp))
    case Look(p, field, maxAge) =>
      Put(s, p, Looking(field, if maxAge < s.minimum then s.minimum else maxAge, Stored(s, field)))
    case Judge(p) =>
      var l := StageOf(s, p);
      Put(s, p, if FreshEnough(l.seen, s.now, l.trigger) then Away else Contending(l.field, l.trigger))
    case GiveUp(p) => Put(s, p, Away)
    case Acquire(p) => Put(s, p, Locked(StageOf(s, p).field, StageOf(s, p).trigger)).(lock := Some(p))
    case LookAgain(p) =>
      var l := StageOf(s, p);
      Put(s, p, LookingAgain(l.field, l.trigger, Stored(s, l.field)))
    case JudgeAgain(p) =>
      var l := StageOf(s, p);
      Put(s, p, if FreshEnough(l.seen, s.now, l.trigger) then Finishing else Fetching(l.field, s.now))
    case FetchFails(p) => Put(s, p, Finishing)
    case FetchReturns(p, fields) => Put(s, p, Stage.Returned(s.now, fields))
    case WriteBack(p) =>
      var r := StageOf(s, p);
      Put(s, p, Finishing).(newest := Stamped(s.newest, r.fields, r.moment.Floor),
                            completed := s.completed + map f | f in r.fields :: r.moment)
    case WriteFails(p) => Put(s, p, Finishing)
    case Unlock(p) => Put(s, p, Away).(lock := None)
    case Die(p) =>
      Put(s, p, Away).(lock := if s.lock == Some(p) then None else s.lock)
  }

  ghost predicate Run(steps: seq<Step>, states: seq<System>) {
    && |states| == |steps| + 1
    && forall i :: 0 <= i < |steps| ==> Enabled(states[i], steps[i]) && states[i + 1] == Next(states[i], steps[i])
  }

  /** A stamp the code believes: at most a minute ahead. */
  predicate Believed(stamp: int, now: real) {
    stamp as real <= now + FUTURE_TOLERANCE_SECONDS
  }

  ghost predicate BelievedUpTo(steps: seq<Step>, states: seq<System>, n: nat)
    requires |states| == |steps| + 1 && n <= |steps|
  {
    && (forall f :: f in states[0].newest ==> Believed(states[0].newest[f], states[0].now))
    && (forall i :: 0 <= i < n && steps[i].Collect? ==> Believed(steps[i].stamp, states[i].now))
  }

  /** Nobody reading; a database a collector may have filled already. */
  ghost predicate Initial(s: System) {
    s.minimum >= 0.0 && s.lock.None? && s.at == map[] && s.completed == map[]
  }

  // ---------- what every step keeps ----------

  /** Whoever is past the lock holds it, and the holder is alive and past it. */
  ghost predicate LockIsSafe(s: System) {
    && (forall p :: p in s.at && HoldsLock(s.at[p]) ==> s.lock == Some(p))
    && (s.lock.Some? ==> s.lock.value in s.at && HoldsLock(s.at[s.lock.value]))
  }

  /** Every stamp is believed; a look that the lock protects has seen every fetch that has been written
      back. */
  ghost predicate Safe(s: System) {
    && LockIsSafe(s) && s.minimum >= 0.0
    && (forall f :: f in s.newest ==> Believed(s.newest[f], s.now))
    && (forall f :: f in s.completed ==>
          s.completed[f] <= s.now && f in s.newest && s.completed[f].Floor <= s.newest[f])
    && (forall p :: p in s.at ==> StageIsSafe(s, s.at[p]))
  }

  ghost predicate StageIsSafe(s: System, stage: Stage) {
    match stage
    case Looking(_, trigger, _) => trigger >= s.minimum
    case Contending(_, trigger) => trigger >= s.minimum
    case Locked(_, trigger) => trigger >= s.minimum
    case LookingAgain(field, trigger, seen) =>
      && trigger >= s.minimum
      && (seen.Some? ==> Believed(seen.value, s.now))
      && (field in s.completed ==> seen.Some? && s.completed[field].Floor <= seen.value)
    case Returned(moment, fields) => moment <= s.now
    case _ => true
  }

  lemma StepKeepsLocksSafe(s: System, step: Step)
    requires LockIsSafe(s) && Enabled(s, step)
    ensures LockIsSafe(Next(s, step)) && Next(s, step).minimum == s.minimum
  {
  }

  lemma {:induction false} LocksAreSafe(steps: seq<Step>, states: seq<System>, n: nat)
    requires Run(steps, states) && Initial(states[0]) && n < |states|
    ensures LockIsSafe(states[n]) && states[n].minimum == states[0].minimum
  {
    if n > 0 {
      LocksAreSafe(steps, states, n - 1);
      StepKeepsLocksSafe(states[n - 1], steps[n - 1]);
    }
  }

  lemma StepKeepsStampsSafe(s: System, step: Step)
    requires Safe(s) && Enabled(s, step) && (step.Collect? ==> Believed(step.stamp, s.now))
    ensures var after := Next(s, step);
            && after.now >= s.now
            && (forall f :: f in after.newest ==> Believed(after.newest[f], after.now))
            && (forall f :: f in after.completed ==>
                  after.completed[f] <= after.now && f in after.newest && after.completed[f].Floor <= after.newest[f])
  {
    if step.WriteBack? {
      assert StageIsSafe(s, StageOf(s, step.p));
    }
  }

  lemma StepKeepsStagesSafe(s: System, step: Step)
    requires Safe(s) && Enabled(s, step)
    ensures forall p :: p in Next(s, step).at ==> StageIsSafe(Next(s, step), Next(s, step).at[p])
  {
    var after := Next(s, step);
    forall p | p in after.at
      ensures StageIsSafe(after, after.at[p])
    {
      if p in s.at && after.at[p] == s.at[p] {
        assert StageIsSafe(s, s.at[p]);
      }
    }
  }

  lemma {:induction false} RunIsSafe(steps: seq<Step>, states: seq<System>, n: nat)
    requires Run(steps, states) && Initial(states[0]) && n < |states| && BelievedUpTo(steps, states, n)
    ensures Safe(states[n])
  {
    LocksAreSafe(steps, states, n);
    if n > 0 {
      RunIsSafe(steps, states, n - 1);
      StepKeepsStampsSafe(states[n - 1], steps[n - 1]);
      StepKeepsStagesSafe(states[n - 1], steps[n - 1]);
    }
  }

  // ---------- the floor ----------

  /** In every interleaving no two processes fetch at once, whatever the stamps. */
  lemma OneFetchAtATime(steps: seq<Step>, states: seq<System>, n: nat, p: Process, q: Process)
    requires Run(steps, states) && Initial(states[0]) && n < |states|
    requires StageOf(states[n], p).Fetching? && StageOf(states[n], q).Fetching?
    ensures p == q
  {
    LocksAreSafe(steps, states, n);
  }

  /** The part of a moment that `int` throws away. */
  function Fraction(moment: real): real {
    moment - moment.Floor as real
  }

  predicate StartsFetch(s: System, step: Step) {
    step.JudgeAgain? && Enabled(s, step) && StageOf(Next(s, step), step.p).Fetching?
  }

  /** Whatever max_age each control asks for, in every interleaving with believable stamps a fetch for a
      field starts later than the source's minimum interval after the latest fetch that returned that
      field, less the fraction of a second its timestamp lost: so always more than the minimum less one
      second. */
  lemma FetchesKeepTheirDistance(steps: seq<Step>, states: seq<System>, n: nat)
    requires Run(steps, states) && Initial(states[0]) && n < |steps| && StartsFetch(states[n], steps[n])
    requires BelievedUpTo(steps, states, n)
    ensures var s, field := states[n], StageOf(states[n], steps[n].p).field;
            field in s.completed ==>
              && s.now > s.completed[field] + states[0].minimum - Fraction(s.completed[field])
              && s.now > s.completed[field] + states[0].minimum - 1.0
  {
    RunIsSafe(steps, states, n);
    LocksAreSafe(steps, states, n);
    var l := StageOf(states[n], steps[n].p);
    assert StageIsSafe(states[n], l);
  }

  /** Exactly when a locked second look at what the latest fetch wrote lets another fetch start. */
  lemma FloorIsExact(s: System, p: Process)
    requires Safe(s) && StageOf(s, p).LookingAgain?
    requires var l := StageOf(s, p);
             && l.trigger == s.minimum && l.field in s.completed
             && l.seen == Some(s.completed[l.field].Floor)
    ensures var done := s.completed[StageOf(s, p).field];
            StartsFetch(s, JudgeAgain(p)) <==> s.now > done + s.minimum - Fraction(done)
  {
    assert StageIsSafe(s, StageOf(s, p));
  }

  // ---------- the steps are the read ----------

  /** The stored point a query found, as a read meets it. */
  function RowOf(seen: Option<int>): Row {
    if seen.None? then NoRow else Row(Finite(seen.value as real), NaN)
  }

  /** An input of a source with this minimum interval. */
  function AskOf(field: Field, maxAge: real, minimum: real): Ask
    requires maxAge >= 0.0 && minimum >= 0.0
  {
    Ask(field, FetchLocks.Number(Finite(maxAge)), FetchLocks.Number(Finite(minimum)), FetchLocks.Missing, true)
  }

  predicate BeforeItsFetch(stage: Stage) {
    stage.Looking? || stage.Contending? || stage.Locked? || stage.LookingAgain?
  }

  /** This stage is of a read that began with this look, and is judged by what that look asked for. */
  predicate BeganWith(s: System, look: Step, p: Process, stage: Stage)
    requires BeforeItsFetch(stage)
  {
    look.Look? && look.p == p && look.field == stage.field && look.maxAge >= 0.0
    && stage.trigger == if look.maxAge < s.minimum then s.minimum else look.maxAge
  }

  ghost predicate EachBegan(steps: seq<Step>, states: seq<System>, n: nat)
    requires n <= |steps| < |states|
  {
    forall p :: p in states[n].at && BeforeItsFetch(states[n].at[p]) ==>
      exists k :: 0 <= k < n && BeganWith(states[n], steps[k], p, states[n].at[p])
  }

  lemma {:induction false} EachReadBegan(steps: seq<Step>, states: seq<System>, n: nat)
    requires Run(steps, states) && Initial(states[0]) && n < |states|
    ensures EachBegan(steps, states, n)
  {
    if n > 0 {
      EachReadBegan(steps, states, n - 1);
      var s, after := states[n - 1], states[n];
      forall p | p in after.at && BeforeItsFetch(after.at[p])
        ensures exists k :: 0 <= k < n && BeganWith(after, steps[k], p, after.at[p])
      {
        OneStepOfARead(s, steps[n - 1], p);
        if steps[n - 1].Look? && steps[n - 1].p == p {
          assert BeganWith(after, steps[n - 1], p, after.at[p]);
        } else {
          var k :| 0 <= k < n - 1 && BeganWith(s, steps[k], p, s.at[p]);
          assert BeganWith(after, steps[k], p, after.at[p]);
        }
      }
    }
  }

  lemma OneStepOfARead(s: System, step: Step, p: Process)
    requires Enabled(s, step) && p in Next(s, step).at && BeforeItsFetch(Next(s, step).at[p])
    ensures var after := Next(s, step);
            && after.minimum == s.minimum
            && if step.Look? && step.p == p then BeganWith(after, step, p, after.at[p])
               else p in s.at && BeforeItsFetch(s.at[p])
                    && s.at[p].field == after.at[p].field && s.at[p].trigger == after.at[p].trigger
  {
  }

  /** In every interleaving, what a process does of a look is what `ReadInput` does of it: it goes on to the
      lock, and to a fetch once it has it, if and only if what the look found is too old for the input that
      was asked for and the source's minimum interval. */
  lemma AReadJudgesByItsAsk(steps: seq<Step>, states: seq<System>, n: nat) returns (k: nat)
    requires Run(steps, states) && Initial(states[0]) && n < |steps| && (steps[n].Judge? || steps[n].JudgeAgain?)
    ensures k < n && steps[k].Look? && steps[k].p == steps[n].p && steps[k].maxAge >= 0.0
    ensures states[n].minimum == states[0].minimum && states[0].minimum >= 0.0
    ensures var s, stage := states[n], StageOf(states[n], steps[n].p);
            var old_ := TooOld(RowOf(stage.seen), s.now, AskOf(stage.field, steps[k].maxAge, states[0].minimum));
            && stage.field == steps[k].field
            && (steps[n].JudgeAgain? ==> (StartsFetch(s, steps[n]) <==> old_))
            && (steps[n].Judge? ==> (StageOf(states[n + 1], steps[n].p).Contending? <==> old_))
  {
    LocksAreSafe(steps, states, n);
    EachReadBegan(steps, states, n);
    var s, p := states[n], steps[n].p;
    assert p in s.at && BeforeItsFetch(s.at[p]);
    k :| 0 <= k < n && BeganWith(s, steps[k], p, s.at[p]);
    JudgedByItsAge(s.at[p].seen, s.now, s.at[p].field, steps[k].maxAge, s.minimum);
  }

  lemma JudgedByItsAge(seen: Option<int>, now: real, field: Field, maxAge: real, minimum: real)
    requires maxAge >= 0.0 && minimum >= 0.0
    ensures !FreshEnough(seen, now, if maxAge < minimum then minimum else maxAge) <==>
              TooOld(RowOf(seen), now, AskOf(field, maxAge, minimum))
  {
  }

  /** One more step of a run. */
  lemma Then(steps: seq<Step>, states: seq<System>, step: Step) returns (more: seq<Step>, after: seq<System>)
    requires Run(steps, states) && Enabled(states[|steps|], step)
    ensures Run(more, after) && |more| == |steps| + 1 && after[0] == states[0]
    ensures more == steps + [step] && after[|steps|] == states[|steps|] && after[|more|] == Next(states[|steps|], step)
  {
    more, after := steps + [step], states + [Next(states[|steps|], step)];
    forall i | 0 <= i < |more|
      ensures Enabled(after[i], more[i]) && after[i + 1] == Next(after[i], more[i])
    {
      if i < |steps| {
        assert after[i] == states[i] && more[i] == steps[i] && after[i + 1] == states[i + 1];
      }
    }
  }

  /** The whole floor is not what is kept. With a minimum of 60 seconds, one fetch completes at 9.9
      and is stamped 9, and the next one starts at 69.5. */
  lemma TheWholeFloorIsNotKept() returns (steps: seq<Step>, states: seq<System>)
    ensures Run(steps, states) && Initial(states[0]) && states[0].minimum == 60.0
    ensures BelievedUpTo(steps, states, |steps|)
    ensures |steps| > 0 && StartsFetch(states[|steps| - 1], steps[|steps| - 1])
    ensures var s := states[|steps| - 1]; "t" in s.completed && s.now < s.completed["t"] + 60.0
  {
    steps, states := FirstFetch();
    steps, states := Then(steps, states, Look(1, "t", 0.0));
    steps, states := Then(steps, states, Tick(69.5));
    steps, states := Then(steps, states, Judge(1));
    steps, states := ContenderFetches(steps, states, 1, 60.0);
  }

  lemma FirstFetch() returns (steps: seq<Step>, states: seq<System>)
    ensures Run(steps, states) && Initial(states[0]) && states[0].minimum == 60.0 && states[0].newest == map[]
    ensures forall i :: 0 <= i < |steps| ==> !steps[i].Collect?
    ensures states[|steps|] == System(60.0, 9.9, map["t" := 9], None, map[0 := Away], map["t" := 9.9])
  {
    steps, states := FirstLooks();
    steps, states := Then(steps, states, FetchReturns(0, {"t"}));
    steps, states := Then(steps, states, WriteBack(0));
    steps, states := Then(steps, states, Unlock(0));
  }

  lemma FirstLooks() returns (steps: seq<Step>, states: seq<System>)
    ensures Run(steps, states) && Initial(states[0]) && states[0].minimum == 60.0 && states[0].newest == map[]
    ensures forall i :: 0 <= i < |steps| ==> !steps[i].Collect?
    ensures states[|steps|] == System(60.0, 9.9, map[], Some(0), map[0 := Fetching("t", 0.0)], map[])
  {
    steps, states := [], [System(60.0, 0.0, map[], None, map[], map[])];
    steps, states := LooksTwice(steps, states, 0);
    steps, states := Then(steps, states, Tick(9.9));
  }

  /** A process that looks twice and is not satisfied starts a fetch. */
  lemma LooksTwice(steps: seq<Step>, states: seq<System>, p: Process) returns (more: seq<Step>, after: seq<System>)
    requires Run(steps, states)
    requires var s := states[|steps|];
             s.lock.None? && StageOf(s, p).Away? && s.minimum >= 0.0 && !FreshEnough(Stored(s, "t"), s.now, s.minimum)
    ensures Run(more, after) && |more| == |steps| + 5 && more[..|steps|] == steps && after[0] == states[0]
    ensures forall i :: |steps| <= i < |more| ==> !more[i].Collect?
    ensures var s := states[|steps|];
            after[|more|] == s.(lock := Some(p), at := s.at[p := Fetching("t", s.now)])
    ensures StartsFetch(after[|more| - 1], more[|more| - 1])
    ensures after[|more| - 1].now == states[|steps|].now && after[|more| - 1].completed == states[|steps|].completed
    ensures StageOf(after[|more| - 1], more[|more| - 1].p).field == "t"
  {
    var s := states[|steps|];
    more, after := Then(steps, states, Look(p, "t", 0.0));
    more, after := Then(more, after, Judge(p));
    assert after[|more|] == s.(at := s.at[p := Contending("t", s.minimum)]);
    more, after := ContenderFetches(more, after, p, s.minimum);
  }

  /** A process that takes the lock and is not satisfied with its second look. */
  lemma ContenderFetches(steps: seq<Step>, states: seq<System>, p: Process, trigger: real)
    returns (more: seq<Step>, after: seq<System>)
    requires Run(steps, states)
    requires var s := states[|steps|];
             s.lock.None? && StageOf(s, p) == Contending("t", trigger) && !FreshEnough(Stored(s, "t"), s.now, trigger)
    ensures Run(more, after) && more == steps + [Acquire(p), LookAgain(p), JudgeAgain(p)] && after[0] == states[0]
    ensures var s := states[|steps|];
            after[|more|] == s.(lock := Some(p), at := s.at[p := Fetching("t", s.now)])
    ensures StartsFetch(after[|more| - 1], more[|more| - 1])
    ensures after[|more| - 1].now == states[|steps|].now && after[|more| - 1].completed == states[|steps|].completed
    ensures StageOf(after[|more| - 1], more[|more| - 1].p).field == "t"
  {
    more, after := Then(steps, states, Acquire(p));
    more, after := Then(more, after, LookAgain(p));
    more, after := Then(more, after, JudgeAgain(p));
  }

  // ---------- a stamp that is not believed ----------

  /** A fetch that has just been written back satisfies a look within the trigger if and only if no
      stamp further ahead than a minute is stored for the field: such a one stays the newest, is not
      believed, and hides every write-back behind it. */
  lemma AWriteBackIsSeen(s: System, p: Process, field: Field, at: real, trigger: real)
    requires StageOf(s, p).Returned? && field in StageOf(s, p).fields
    requires StageOf(s, p).moment <= at && at - StageOf(s, p).moment.Floor as real <= trigger
    ensures FreshEnough(Stored(Next(s, WriteBack(p)), field), at, trigger) <==>
              (field in s.newest ==> Believed(s.newest[field], at))
  {
  }

  /** Exactly when a locked second look starts a fetch: nothing is stored, or what is stored is too old,
      or it is stamped too far ahead to be believed. */
  lemma ALookStartsAFetch(s: System, p: Process)
    requires StageOf(s, p).LookingAgain? && StageOf(s, p).trigger >= 0.0
    ensures var l := StageOf(s, p);
            StartsFetch(s, JudgeAgain(p)) <==>
              l.seen.None? || !Believed(l.seen.value, s.now) || s.now - l.seen.value as real > l.trigger
  {
  }

  /** With no floor kept at all: a collector stamps one point far ahead, and of two fetches of its field
      the second starts at the very moment the first has completed. */
  lemma AStampFarAheadUndoesTheFloor() returns (steps: seq<Step>, states: seq<System>)
    ensures Run(steps, states) && Initial(states[0]) && states[0].minimum == 60.0
    ensures |steps| > 0 && StartsFetch(states[|steps| - 1], steps[|steps| - 1])
    ensures var s := states[|steps| - 1];
            "t" in s.completed && s.now == s.completed["t"] && StageOf(s, steps[|steps| - 1].p).field == "t"
  {
    steps, states := [], [System(60.0, 0.0, map[], None, map[], map[])];
    steps, states := Then(steps, states, Collect({"t"}, 1000));
    assert states[1] == System(60.0, 0.0, map["t" := 1000], None, map[], map[]);
    steps, states := LooksTwice(steps, states, 0);
    steps, states := TheFetchEnds(steps, states);
    steps, states := LooksTwice(steps, states, 1);
  }

  lemma TheFetchEnds(steps: seq<Step>, states: seq<System>) returns (more: seq<Step>, after: seq<System>)
    requires Run(steps, states)
    requires states[|steps|] == System(60.0, 0.0, map["t" := 1000], Some(0), map[0 := Fetching("t", 0.0)], map[])
    ensures Run(more, after) && after[0] == states[0]
    ensures after[|more|] == System(60.0, 0.0, map["t" := 1000], None, map[0 := Away], map["t" := 0.0])
  {
    more, after := Then(steps, states, FetchReturns(0, {"t"}));
    more, after := Then(more, after, WriteBack(0));
    more, after := Then(more, after, Unlock(0));
  }
}
