# Proofs about send-to-influx

This project models the parts of send-to-influx that act on their own and must not go wrong while
nobody is watching, and proves properties of them over every input and every run. Check it with
`dafny verify dfyconfig.toml`.

## What is modelled

**A control** is a process that, cycle after cycle, asks a gate whether to act, reads its inputs, steps a
PID loop, and commands its devices rung by rung, falling to a safe state on any failure.

| file | what it holds |
|---|---|
| `numbers.dfy` | numbers that may be NaN or infinite, with IEEE 754 comparisons; optional values |
| `controller.dfy` | the PID loop, the lease on its memory, the cap on its ladder, and the class that holds them |
| `controller_properties.dfy` | what the loop promises over any sequence of calls |
| `controller_steps.dfy` | what one step demands and adds to the integral, as real arithmetic |
| `gating.dfy` | states, commands and the gate's edges |
| `commanding.dfy` | commanding devices target by target, and the log of what moved |
| `deliveries.dfy` | what exactly is accepted and logged, in terms of the orders themselves |
| `control_process.dfy` | a cycle: as a function of everything it meets, and as the class that carries it out |
| `control_runs.dfy` | whole runs: quiet means safe, the log is true, the mode follows the window |
| `control_cycles.dfy` | what one cycle comes to, told from what it meets: whether it acts, how it ends, what it demands, what each device hears |
| `control_outages.dfy` | the loop's numbers and its memory through cycles that fail |
| `control_refusals.dfy` | outages in which a device refuses after the loop has been stepped: what they integrate |

What a cycle meets - the clock, the readings, the plan for the window, and how the far end answers each
command - is arbitrary, so a theorem over all runs is a theorem over all failures: a read that fails, a
rule that raises or gives NaN, a device that refuses half-way through a set.

**Shared inputs.** `inputs.dfy` is one read of one input and the gathering of all of them; `fetch_lock.dfy`
is the wait for a source's lock; `shared_inputs.dfy` is any number of processes reading one source at once,
step by step, any of which may die anywhere.

**Ownership of actuators.** `ownership.dfy` is who may command what, found by two different scans;
`control_store.dfy` is the stored documents and the tools that change them, run by several threads at once.

**History and its format.** `line_protocol.dfy` is the encoder and a reader that knows about quotes and
escapes; `migration.dfy` is the re-keying of the old Nuki history, and `migration_text.dfy` joins the two:
what the text that is sent tells whoever reads it back. `migration_runs.dfy` is the migration's two phases,
ended anywhere and run again while the new collector goes on writing, `migration_losses.dfy` two runs of it
that lose readings, and `influxql.dfy` the statements it sends with a name from the database inside them.

**Smaller machines.** `credentials.dfy` (the credential store, the systemd drop-in and the settings file),
`throttle.dfy` (repeated problems) and `workers.dfy` (backoff, restarted threads, the stall watchdog).

Each operation that changes state in place is a method of a class, or a method with a loop, and is proved
against a function of the old state; the theorems are about those functions. Where a property spans
threads or processes, it is proved of every interleaving of the steps those functions define.

## Where the code does less than it says

Each of these is a theorem here: the condition under which the code does what was meant, both ways, and an
input for which it does not.

- A closing state that is the number `0` is never sent, because the cycle tests it for truth
  (`toinflux/control_process.py:508`): the devices stay where the ladder left them through every quiet
  cycle that follows (`ControlRuns.QuietIsSafeExactlyWhenDelivered`; input:
  `ControlRuns.AnEndStateOfZeroLeavesTheLampOn`).
- The live-fetch floor is kept less the fraction of a second that `int(moment)` discards, and no better
  (`SharedInputs.FloorIsExact`; input: `SharedInputs.TheWholeFloorIsNotKept`). A stamp stored more than a
  minute ahead of the clock undoes it, because it stays the newest and hides every write-back
  (`SharedInputs.AWriteBackIsSeen`; input: `SharedInputs.AStampFarAheadUndoesTheFloor`).
- A window that fails before its step renews the loop's lease, so over an outage of such windows and of
  cycles that do not act it is not the first hold that decides but each one in turn
  (`ControlOutages.AFailingWindowRenewsTheLease`; input, of any number of hours:
  `ControlOutages.HoursOfAFaultAreResumedFrom`).
- A window that fails because a device refuses has stepped the loop already. Such an outage is said to cost
  one cycle of ki x error x dt, stored once and never growing (`toinflux/control_process.py:605-612`). But
  every cycle resumes the loop before its window (`toinflux/control_process.py:527-528`), so each refused
  cycle integrates again and stores what it comes to (`ControlRefusals.RefusedCycle`,
  `ControlRefusals.AnOutageIntegratesEachRefusal`). While no hold outlives the lease, an outage leaves the
  integral alone exactly where every refused cycle has nothing to add or is at the limit already
  (`ControlRefusals.ExactlyWhenAnOutageMovesNothing`; input, of any number of minutes:
  `ControlRefusals.RefusalsWindTheLoopUp`).
- With a cap, a restarted loop can differ from one that stayed up: exactly where the lease is spent and the
  cap left a limit that is negative and not the ladder's own (`ControllerProperties.RestartIsStayingUp`;
  input: `ControllerProperties.ACappedNegativeLadderTellsThemApart`).
- The scan over all stored controls is described as reporting one problem per clashing pair. It names every
  clash exactly where the clashes form no chains (`Ownership.EveryClashIsNamedWithoutChains`; input:
  `Ownership.TheScanDoesNotNameEveryPair`), and is silent exactly when it should be
  (`Ownership.TheDetectorsAgree`).
- Once its series is dropped, an old reading is still held exactly where its key has an underscore and the
  last step to write its field agrees with it, which of a rewrite is the last row with that key among the
  rows that were left when it started (`MigrationRuns.TheLastWriteDecides`). So where no rewrite follows a
  drop it is the last row of the history (`MigrationRuns.WhatADropLoses`), and a rewrite run again after a
  delete that stopped part-way can lose even that one
  (`MigrationLosses.ARewriteAfterADropLosesTheLastRow`). A rewrite keeps what the new collector had stored
  for a lock and timestamp exactly where no field of it disagrees (`MigrationRuns.AChunkKeepsWhatAgrees`);
  one run with no fault loses a reading to a later row, one to its name and a live one to the rewrite
  (`MigrationLosses.ThreeReadingsAreLost`). A number under a field that is text comes back as text
  (`Migration.OldPointsCanBeRebuilt`; input: `Migration.AFirmwareStoredAsANumber`).
- A credential is listed in the drop-in exactly where its name is static, so a numbered slot is stored,
  deferred to and never loaded (`Credentials.OnlyStaticNamesAreListed`; input:
  `Credentials.ASlotIsStoredAndNeverLoaded`). A command leaves the unit startable except exactly a `remove`
  that finished although its daemon-reload failed, of a name that was loaded
  (`Credentials.StartableUnlessARemoveCouldNotReload`; input: `Credentials.ARemoveThatCouldNotReload`).
- A recovery's count is all the reports since the fault began exactly where no later one of them was
  logged in full (`Throttle.ARecoveryCountsTheWholeFaultUnlessReminded`; input:
  `Throttle.TwoReportsRecoverAsOne`).

## Model

| member | source | states |
|---|---|---|
| ControlRuns.QuietImpliesSafe | toinflux/control_process.py:494-560 | in every run with arbitrary failures, where the closing state is delivered, a cycle that answers "not acting, no edge" leaves each commanded device last told its closing or safe state and never a rung, and every device where the starting state touched them |
| ControlRuns.QuietIsSafeExactlyWhenDelivered | toinflux/control_process.py:503-513 | after a closing edge and a quiet cycle no device is left at a rung if and only if the closing state is neither `leave_unchanged` nor the number zero |
| ControlRuns.ZeroIsNeverDelivered | toinflux/control_process.py:508-513 | any validated control whose period ends in zero closes and goes quiet without a word to any device |
| ControlRuns.AnEndStateOfZeroLeavesTheLampOn | toinflux/control_process.py:508-513 | a concrete validated document and a lamp a rung switched on: it stays on, although zero means off for it |
| ControlRuns.ClosingIsRedelivered | toinflux/gating.py:144-161 | a closing edge is spent exactly when its command went through, and is kept for the next cycle otherwise |
| ControlRuns.RunStaysQuiet | toinflux/control_process.py:470-560 | every run keeps the invariant that a gate which is not acting has no device at a rung |
| ControlRuns.StartIsQuiet | toinflux/gating.py:189-227 | a process begins with only its starting state told, to every device where that went through |
| ControlRuns.StartsWhereItWouldHaveClosed | toinflux/gating.py:189-227 | a control started with its period over is told its end state at once and owes no edge; one started at any other time is told its safe state |
| ControlRuns.TellStateReaches | toinflux/gating.py:332-385 | commanding a state tells each device that accepts it exactly what the state means for it within its scale, leaves the others, and on a normal return has told every device |
| ControlRuns.ExitLeavesTheSafeState | toinflux/gating.py:477-510 | on the way out each device is told the safe state or left as it was, and all of them are told it where nothing refuses |
| ControlRuns.TheLogTellsTheTruth | toinflux/control_process.py:197-221 | over every run the log holds, for each device commanded, what the far end last accepted, against the device as declared, and marks as forced only what was not a rung |
| ControlRuns.ModeFollowsTheWindow | toinflux/control_process.py:494-560 | after a completed cycle the PID is automatic exactly where an active window was finished, it is never stepped while manual, inputs are read at most once, and the gate and the loop of one cycle see the same bindings |
| ControlRuns.AnUnanswerableGateFallsSafe | toinflux/gating.py:135-187 | a gate that cannot be answered, which is exactly where its rule is reached and its inputs cannot be read or it raises or gives no finite number, sends the cycle to the safe state with nothing stepped and leaves what the gate believed untouched |
| ControlCycles.ExactlyWhenItActs | toinflux/gating.py:110-187 | a process that is not acting opens, and any process steps its loop where inputs are read, if and only if the document is enabled, inside its period where it has one, and its rule, where it has one, was read and gave true or a finite number other than zero; in any other cycle nothing is stepped, no rung is told and the report is of not acting |
| ControlCycles.WhatACycleAnswers | toinflux/gating.py:110-152 | an opening edge exactly where the process was not acting, a closing one with the closing state exactly where it was, and neither where nothing changed or nothing was known |
| ControlCycles.TheFaultDecidesTheReport | toinflux/control_process.py:470-560 | a cycle ends normally exactly where nothing stood in its way, with the safe state exactly where the first thing that did was a connection fault, an input or gate that could not be read or a rule that gave no number, and stops the process exactly for a configuration fault |
| ControlCycles.EveryDemandIs | toinflux/controller.py:205-238 | in every run from the start of a process, a cycle that acts on numbers demands exactly what the document's gains make of its setpoint and input as read, of the integral as this step leaves it and of the reading before, brought between the lowest rung and the highest the cap allows |
| ControlCycles.AWindowIsHeard | toinflux/control_process.py:613-640 | after an active cycle that ends normally each device was last told the last rung of the plan that names it, and its entry in the log is what those rungs, each at its moment, make of it |
| ControlCycles.AFaultEndsThePlan | toinflux/control_process.py:613-640 | a plan is carried out rung by rung as far as the first that fails, that one as far as it goes and nothing after it |
| ControlCycles.AFailedCycleIsMadeSafe | toinflux/control_process.py:738-784 | wherever a cycle fails, each device that accepts the safe state has been put to it, and is logged as forced at that moment |
| ControlCycles.EveryDeviceAccepts | toinflux/control_process.py:292-345 | where every device can be reached and none refuses, that is every device |
| ControlCycles.AClosingIsHeard | toinflux/control_process.py:503-513 | a closing command that goes through puts every device to the closing state, logged as forced at the start of that cycle |
| ControlCycles.ANumberReachesEveryDevice | toinflux/gating.py:332-385 | a state that is a number reaches a driven device as itself, a percentage as at most 100, and a switch as on exactly where it is more than zero |
| ControlOutages.CycleIsNumericallySafe | toinflux/control_process.py:562-640 | whatever was read and whatever the rules gave, the loop stays finite and within its limits and any demand lies within the ladder and the cycle's own cap |
| ControlOutages.EveryDemandIsBounded | toinflux/controller.py:205-238 | the same of every demand of every run from the start of a process |
| ControlOutages.EveryRunIsNumericallySafe | toinflux/controller.py:205-238 | the loop stays finite and within its limits from the start of a process, whatever memory it was given, over every run |
| ControlOutages.LeaseCoversAnIdleOutage | toinflux/controller.py:440-517 | after any number of cycles with the gate shut or unanswerable, the loop re-enters with the integral it had exactly when the first of them held it at most 1800 seconds ago |
| ControlOutages.AFailingWindowRenewsTheLease | toinflux/control_process.py:494-560 | over any outage of cycles that do not act or that fail in their window before the loop is stepped, in any order and of any length, the loop re-enters with the integral it had exactly when each window is entered at most 1800 seconds after the hold before it, every failing window being a hold of its own |
| ControlOutages.HoursOfAFaultAreResumedFrom | toinflux/control_process.py:518-528 | a validated control whose setpoint is not a number for any number of minutes resumes from the integral it had |
| ControlOutages.ARestartedProcessStayedUp | toinflux/control_process.py:655-675 | a process restarted with a kept memory and then idle enters its window as a loop that stayed up would, under the same condition both ways |
| ControlRefusals.RefusedCycle | toinflux/control_process.py:518-628 | a cycle whose window is refused holds, and stores as the loop's memory, the loop resumed and stepped as if the window had been carried out |
| ControlRefusals.AnOutageIntegratesEachRefusal | toinflux/control_process.py:605-612 | over any outage at all - cycles that do not act, fail before their step or are refused after it, in any order - the loop re-enters with the clamped sum of every refused cycle's ki x error x dt, begun again from nothing wherever a window is entered with its lease spent |
| ControlRefusals.ExactlyWhenAnOutageMovesNothing | toinflux/control_process.py:605-612 | while no hold outlives the lease, an outage never moves the integral if and only if each refused cycle has ki x error of zero or is at the limit it would be pushed to |
| ControlRefusals.RefusalsWindTheLoopUp | toinflux/control_process.py:605-612 | a validated lamp that refuses for n minutes: the integral, held and stored, is n up to the top of the ladder, where one cycle's worth is one |
| ControlProcesses.ControlProcess.Cycle | toinflux/control_process.py:470-560 | the new state, report and what was seen are those of the cycle function, on every path of failure |
| ControlProcesses.ControlProcess.SpendWindowNow | toinflux/control_process.py:562-640 | the window's effect on loop, stored memory, devices and log, rung by rung, up to the failure that ends it |
| ControlProcesses.ControlProcess.FailSafeNow | toinflux/control_process.py:738-784 | holds and commands the safe state, whatever becomes of the command |
| ControlProcesses.ControlProcess.TakeEdgeNow | toinflux/control_process.py:503-517 | what a closing or opening edge does, and that a closing one is spent last |
| ControlProcesses.ControlProcess.Gather | toinflux/control_process.py:457-468 | one reading a cycle where the reading succeeds |
| ControlProcesses.ControlProcess.AssessNow | toinflux/gating.py:163-187 | the three conditions in order, reading inputs only where the rule is reached; what they come to for a whole cycle is ControlCycles.ExactlyWhenItActs |
| ControlProcesses.ControlProcess.Start | toinflux/control_process.py:655-675 | the memory kept from before is put back, and the starting state is commanded before anything is read |
| ControlProcesses.ControlProcess.Run | toinflux/control_process.py:794-848 | cycles until one stops the process, then the safe state |
| ControlProcesses.ControlProcess.Exit | toinflux/gating.py:477-510 | the safe state once, by whichever exit comes first |
| Commanding.AcceptedIsWhatWasAsked | toinflux/control_process.py:158-221 | what is reported as accepted is part of what was asked, scaled and none twice; on a normal return each order exactly once; an undeclared device fails before anything moves |
| Deliveries.TheFirstFaultEndsIt | toinflux/control_process.py:292-345 | whatever the far end does, what is sent is exactly the orders before the first that fails, target by target and for each target as given, each within its scale, and the fault is that one's |
| Deliveries.TheLogHasWhatWasAccepted | toinflux/control_process.py:197-221 | a device whose order was accepted, whatever ended the commands, has an entry that agrees with it against its declaration |
| Deliveries.OnlyWhatWasAcceptedIsLogged | toinflux/control_process.py:197-221 | and no other entry changes |
| Deliveries.TheClockIsOfTheLastMove | toinflux/transitions.py:537-577 | however often a device is commanded, its clock is that of the command that last moved it, and it is forced exactly where that command and each since was |
| Deliveries.LastMoveIsAMove | toinflux/transitions.py:537-577 | that command is the first of all, or one that did not leave the device where the move before had put it |
| Commanding.APercentageIsAName | toinflux/control_process.py:224-269 | a parameter is a percentage exactly where its name ends in `_pct`; a percentage goes to the nearer end of 0 to 100 where it is outside, and anything else is left as it is |
| Commanding.CommandDevices | toinflux/control_process.py:158-221 | the log is written with exactly what was accepted, however the commands ended; which that is, is Deliveries.TheFirstFaultEndsIt |
| Commanding.CommandEach | toinflux/control_process.py:292-345 | target after target until a fault, noting each device accepted, those of the failing target too |
| Commanding.CommandItems | toinflux/control_process.py:318-345 | device after device of one target until one refuses |
| Commanding.WithinScaleIsWithinScale | toinflux/control_process.py:224-269 | a percentage commanded is a number from 0 to 100 whatever was asked, and unchanged where it already was |
| Commanding.TransitionLog.Record | toinflux/transitions.py:537-577 | the new entries of exactly the devices commanded |
| Commanding.TransitionLog.RecordOne | toinflux/transitions.py:537-577 | only a device that moved has its clock restarted, and a forced mark goes when the device is confirmed |
| Commanding.OnlyAMoveRestartsTheClock | toinflux/transitions.py:537-577 | commanding a device again to where it is keeps its clock and its forced mark only while every command was forced; anything else starts the clock again |
| Controllers.Controller.Step | toinflux/controller.py:180-278 | the loop and its answer as the step function has them, or an unchanged loop where anything fed was unusable; the answer itself is ControllerSteps.TheDemandIs |
| Controllers.Controller.Hold | toinflux/controller.py:419-450 | only the first hold captures |
| Controllers.Controller.Resume | toinflux/controller.py:452-502 | the integral and both last values are carried across a brief hold only |
| Controllers.Controller.Capture | toinflux/controller.py:344-362 | what is finite of the memory, and nothing where the integral is not |
| Controllers.Controller.ResumeFrom | toinflux/controller.py:364-417 | a usable memory is restored held, within the limits, and with a lease already spent where its age cannot be used |
| Controllers.CapKeepsTheBottom | toinflux/staging.py:152-191 | a capped ladder is a prefix that keeps the lowest rung and every rung at or below the cap, and nothing else above it |
| ControllerProperties.StepIsSafe | toinflux/controller.py:205-249 | an unusable feed fails the cycle and changes nothing; otherwise the demand is finite, on the ladder and at or below the cap |
| ControllerSteps.TheDemandIs | toinflux/controller.py:205-238 | the demand of a step is kp x error plus the integral it leaves less kd x the rate at which the reading moves, with no derivative where there was no reading before, brought within the lowest rung and the highest the cap allows; and the next step starts from this one's reading and moment |
| ControllerSteps.ALargerErrorNeverAsksForLess | toinflux/controller.py:205-238 | for a proportional loop under one cap, a reading further below the setpoint is answered with as much or more |
| ControllerProperties.NumericSafety | toinflux/controller.py:167-249 | over any sequence of holds, resumes, restores and steps no NaN or infinity enters the PID and the integral stays within the limits |
| ControllerProperties.OneNaNPoisonsTheRun | toinflux/controller.py:520-543 | why: one NaN reaching the PID makes every later answer of an unbroken run NaN |
| ControllerProperties.LeaseRunsFromTheFirstHold | toinflux/controller.py:440-517 | resuming gives back the first hold's integral if and only if that hold is at most 1800 seconds old, whatever holds and steps came between |
| ControllerProperties.RestartIsStayingUp | toinflux/controller.py:344-517 | for every usable age and wait, restart and staying up end with the same memory if and only if the lease lives, or zero is within the limit the cap left, or the cap left the whole ladder |
| ControllerProperties.RestartBuysNoLeniency | toinflux/controller.py:344-517 | with no cap, for every age and wait and any holds between; an unusable age is a spent lease |
| ControllerProperties.ACappedNegativeLadderTellsThemApart | toinflux/controller.py:399-417 | a concrete capped ladder where restart and staying up differ |
| Gating.Gate.DecideFor | toinflux/gating.py:110-152 | the edge answered and the memory kept, a closing edge not being consumed |
| Gating.Gate.EdgeApplied | toinflux/gating.py:154-161 | the closing edge is spent |
| Gating.OrdersNameEveryDevice | toinflux/gating.py:332-385 | the commands name every device once and in order with what the state means for it, and are refused exactly where some device has no meaning for it |
| Gating.NamesAgreeWithNumbers | toinflux/gating.py:242-385 | unenergised is zero for every device and energised is its full scale, where that is known; a number reaches a driven device as itself and turns a switch on exactly where it is more than zero |
| Gating.WhatCanBeCommanded | toinflux/gating.py:332-385 | commands are refused exactly for a text that is none of the names, a number that is not finite or is negative, or energised where some device's full scale is not known; only `leave_unchanged` asks for nothing |
| FetchLocks.Acquire | toinflux/inputs.py:699-717 | for every finite budget and every draw the wait ends in fewer than budget/0.05 + 2 attempts, ended by the first attempt not met by contention or the first busy one past the deadline, and never asks for a sleep past it |
| Inputs.UsableAge | toinflux/inputs.py:483-501 | an age is given exactly for a finite stamp no more than a minute ahead, and is the true age of a stamp in the past and zero for one ahead |
| Inputs.ReadInput | toinflux/inputs.py:810-939 | the device is asked exactly where the durations can be used, the source is live, the lock was taken, and each look found nothing datable or something older than both max_age and the minimum interval; and in every case what is returned and what is written back |
| Inputs.Gather | toinflux/control_process.py:67-121 | either every input was read and is finite and aged within its own limit, with readings over parameters, or the cycle ends at the first that is not, and the process exactly where that one cannot be read at all |
| Inputs.AnUndatedPointPassesEveryBound | toinflux/inputs.py:458-476 | why an undatable point is refused before it is compared |
| SharedInputs.LocksAreSafe | toinflux/inputs.py:610-675 | in every interleaving, with processes dying anywhere, whoever is past the lock holds it and no dead process does |
| SharedInputs.RunIsSafe | toinflux/inputs.py:810-845 | the invariant of every interleaving whose stamps are at most a minute ahead: every locked look has seen what was written back |
| SharedInputs.OneFetchAtATime | toinflux/inputs.py:610-675 | in every interleaving at most one fetch of a source runs |
| SharedInputs.FetchesKeepTheirDistance | toinflux/inputs.py:810-845 | in every interleaving whose stamps are at most a minute ahead of the clock, a fetch for a field starts more than the minimum interval, less the fraction of a second its stamp lost, after the latest written-back fetch that returned it, whatever max_age each control asks for |
| SharedInputs.FloorIsExact | toinflux/inputs.py:899-906 | the moment another fetch may start, both ways |
| SharedInputs.TheWholeFloorIsNotKept | toinflux/inputs.py:899-906 | a concrete run that fetches again before the whole minimum has passed |
| SharedInputs.AWriteBackIsSeen | toinflux/inputs.py:437-501 | a fetch just written back satisfies the next look exactly where no stamp more than a minute ahead is stored for the field |
| SharedInputs.ALookStartsAFetch | toinflux/inputs.py:840-845 | a locked look starts a fetch exactly where nothing is stored, or it is too old, or it is stamped more than a minute ahead |
| SharedInputs.AReadJudgesByItsAsk | toinflux/inputs.py:810-845 | in every interleaving each look is judged as `ReadInput` judges it: it goes on to the lock, and to a fetch, exactly where what it found is older than both the max_age its read began with and the minimum interval |
| SharedInputs.AStampFarAheadUndoesTheFloor | toinflux/inputs.py:437-501 | a concrete run of two fetches of one field with no time between them |
| Ownership.ClashIsSymmetricButNotTransitive | toinflux/controls.py:1341-1364 | what kind of relation two identities that may be one are in |
| Ownership.CaseOfASourceHidesNothing | toinflux/controls.py:1307-1338 | a document that writes its sources in another case clashes with itself, is owned elsewhere, and clashes with the document it was, exactly as if it had not |
| Ownership.TheEntriesDecide | toinflux/controls.py:1307-1364 | a document is owned elsewhere if and only if one of its entries and one of a document whose `enabled` is true or left out have sources alike but for case, the very same device, and no two instances that differ |
| Ownership.CaseOfADeviceIsKept | toinflux/controls.py:1316-1322 | so a document none of whose devices is, letter for letter, another enabled control's is owned nowhere else |
| Ownership.CheckOneKeyPerActuator | toinflux/controls.py:1652-1692 | entries are refused exactly where two may be one actuator, and each pair reported may be |
| Ownership.ValidatedDocumentsAreApart | toinflux/controls.py:1382-1394 | what a validated document owns is what its entries name, each once and apart |
| Ownership.EnabledOwnerOf | toinflux/controls.py:1397-1423 | an owner is found exactly where another enabled control commands one of the actuators, and is the first by name of those that do, with an actuator it commands |
| Ownership.PrecedesIsLexicographic | toinflux/controls.py:1416-1420 | the order owners are looked for in is that of the first character that differs |
| Ownership.SharedActuatorProblems | toinflux/controls.py:1740-1774 | the problems are those of the greedy scan over every enabled control's identities |
| Ownership.ScanIsSilentWhenApart | toinflux/controls.py:1758-1774 | the greedy scan is silent exactly where every two identities are apart, and each problem it reports is real |
| Ownership.TheDetectorsAgree | toinflux/controls.py:1740-1774 | the scan is silent if and only if no enabled control has another owner, although the clash relation is not transitive |
| Ownership.TheProblemsAreTheNamedClashes | toinflux/controls.py:1758-1774 | the problems are one for each claim met clashing with one that stands, naming the first that does |
| Ownership.EveryClashIsNamedWithoutChains | toinflux/controls.py:1740-1774 | every clash is named if and only if no claim clashes with two earlier ones and none that clashes with an earlier one is clashed with by a later one |
| Ownership.ClashingControlsAreNamed | toinflux/controls.py:1740-1774 | where there are no such chains every two stored controls that clash are named together, however many actuators each has |
| Ownership.TheScanDoesNotNameEveryPair | toinflux/controls.py:1740-1774 | three stored controls on one lamp, and a clash whose control is named by nothing reported |
| ControlStores.ControlStore.EnabledOwnerElsewhere | toinflux/mcp_controls.py:1019-1047 | an owner elsewhere is found exactly where there is one among the documents that can be read, and is the first by name that commands one of the document's actuators |
| ControlStores.ControlStore.SaveValidated | toinflux/mcp_controls.py:1087-1153 | what is stored has the devices and the rest it was given, is enabled exactly where it was to be and no enabled control is in the way, and is otherwise as given; nothing else in the store moves, and the result names the control in the way |
| ControlStores.ControlStore.SetEnabledLocked | toinflux/mcp_controls.py:1230-1283 | each of the six outcomes exactly where it is due, the control in the way named, and after a change the stored document is as enabled as was asked with its devices, its rest and every other document as they were |
| ControlStores.ControlStore.Delete | toinflux/mcp_controls.py:1286-1307 | the document is gone and nothing else is |
| ControlStores.SavingStaysExclusive | toinflux/mcp_controls.py:1087-1128 | whatever is saved, no two enabled controls share an actuator |
| ControlStores.OneEnabledOwnerPerActuator | toinflux/mcp_controls.py:1063-1307 | the same in every interleaving of saves, set-enableds and deletes with crashes anywhere |
| ControlStores.CommitsAreCurrent | toinflux/mcp_controls.py:1227-1283 | no lost update: a commit changes the document stored at that moment, by `enabled` alone, and touches no other |
| ControlStores.TheStepsSetAsTheToolDoes | toinflux/mcp_controls.py:1227-1283 | a set-enabled in the interleavings writes exactly where the tool would, and commits the very document the tool stores |
| ControlStores.TheStepsSaveAsTheToolDoes | toinflux/mcp_controls.py:1087-1128 | and so does a save |
| ControlStores.CheckingOutsideTheLockIsNotEnough | toinflux/mcp_controls.py:1082-1084 | what the lock is for: two saves that both looked first store two owners |
| LineProtocol.ChainedReplacesAreOnePass | toinflux/influx.py:63-99 | the chained replacements are one escape character by character |
| LineProtocol.PointReadsBack | toinflux/influx.py:463-467 | for every point the encoder accepts, reading the line gives back that point and stops where the line does |
| LineProtocol.RefusedExactlyForALineBreak | toinflux/influx.py:93-99 | a point is refused exactly where a key or a tag value holds a line break |
| LineProtocol.BatchReadsBack | scripts/migrate-nuki-device-tag.py:351-373 | newline-joined lines read back as the same points in order, although a text may hold newlines |
| LineProtocol.BodiesDetermineTheirPoints | scripts/migrate-nuki-device-tag.py:351-373 | no two batches are written alike |
| Migration.SplitFieldKey | scripts/migrate-nuki-device-tag.py:110-151 | the loop's answer is a known field that ends the key after an underscore, no shorter than any other that does, and the lock before it; there is none exactly where no field does or no lock is left |
| Migration.SplittingInvertsNaming | scripts/migrate-nuki-device-tag.py:110-151 | for every lock name that is not empty splitting inverts naming both ways, where no field has an underscore |
| Migration.NukiIsSpelled | scripts/migrate-nuki-device-tag.py:67-92 | every field a Nuki collector wrote is made of letters only, so none has one |
| Migration.ReadOldPoints | scripts/migrate-nuki-device-tag.py:411-441 | rows at one timestamp are merged, never replaced |
| Migration.MergedIsWhatTheRowsHave | scripts/migrate-nuki-device-tag.py:411-441 | a key is read at a timestamp exactly where some row had it, with some row's value |
| Migration.RewrittenLines | scripts/migrate-nuki-device-tag.py:444-488 | exactly one line for each lock and timestamp with all its fields, counted per lock, or a halt exactly where a key does not split or a lock cannot be a tag |
| Migration.GroupByLock | scripts/migrate-nuki-device-tag.py:476-482 | one timestamp's values under their locks and fields, none missing and none made up |
| Migration.EachValueIsInOneLine | scripts/migrate-nuki-device-tag.py:444-488 | every timestamp, key and value is in exactly one line |
| Migration.EachFieldIsAnOldValue | scripts/migrate-nuki-device-tag.py:444-488 | every field of every line is an old value under the key it had |
| Migration.OldPointsCanBeRebuilt | scripts/migrate-nuki-device-tag.py:154-188 | the lines say of each old key exactly the value that was read, save that a number under a text field comes back as text |
| Migration.TheLastRowWins | scripts/migrate-nuki-device-tag.py:411-441 | of the rows that have a key at a timestamp the last one's value is the value read |
| Migration.AFirmwareStoredAsANumber | scripts/migrate-nuki-device-tag.py:182-187 | an old point that comes back changed: of a lock's firmware stored as a number the lines say the text and nowhere the number |
| MigrationText.APointIsItsLine | scripts/migrate-nuki-device-tag.py:483-488 | the collector's encoder accepts the point of every line and gives it the very text the script sends |
| MigrationText.TheTextTellsTheOldPoints | scripts/migrate-nuki-device-tag.py:351-373 | the lines, encoded, joined and read back, say of each old key exactly the value that was read, save a number under a text field |
| InfluxQL.QuotedNamesReadBack | scripts/migrate-nuki-device-tag.py:213-258 | for both escapers and every name, a reader of quoted strings recovers exactly the name and stops at the closing quote; only a name that runs over a line is refused |
| InfluxQL.ADropNamesItsHost | scripts/migrate-nuki-device-tag.py:744-766 | whatever a host is called, the statement built for it drops the series of that host and no other |
| InfluxQL.TheKeysSelectedAreTheKeys | scripts/migrate-nuki-device-tag.py:424-427 | whatever the old keys are called, the list selected reads as exactly those keys in order |
| MigrationRuns.EveryReadingIsHeld | scripts/migrate-nuki-device-tag.py:535-567 | where the rows agree, at every point of every run of both phases, ended anywhere and run again, over whatever device-tagged points were there and while the new collector writes anything the history's line for that lock and timestamp does not contradict, each old reading is held by its old point or its new one |
| MigrationRuns.NothingIsDroppedUncarried | scripts/migrate-nuki-device-tag.py:744-826 | nothing is dropped unless a rewrite of this database has finished, by then every reading has been carried, and what is dropped is the series of one host the manifest names |
| MigrationRuns.ADeleteFollowsItsManifest | scripts/migrate-nuki-device-tag.py:767-826 | in every run a delete starts only from a manifest that some rewrite of this database finished and none has opened to write since, and is to drop every host whose rows were left when it finished |
| MigrationRuns.AChunkKeepsWhatAgrees | scripts/migrate-nuki-device-tag.py:535-567 | the script touches no device-tagged point but those it writes lines for, and of those keeps everything if and only if no field already stored disagrees with the one written |
| MigrationRuns.PointsOutsideTheHistoryAreKept | scripts/migrate-nuki-device-tag.py:744-766 | a device-tagged point for which the history has nothing is never touched by the script |
| MigrationRuns.RewritingAgainChangesNothing | scripts/migrate-nuki-device-tag.py:616-680 | in every run, once a rewrite has finished no chunk of a later one changes any point |
| MigrationRuns.TheLastWriteDecides | scripts/migrate-nuki-device-tag.py:394-441 | in every run, for any history, agreeing or not, and whatever is collected: once its series is dropped a reading is held if and only if its key has an underscore and the last step to write its field says the same, which of a rewrite is what the last of the rows still left says |
| MigrationRuns.WhatADropLoses | scripts/migrate-nuki-device-tag.py:394-441 | so in runs where no rewrite starts after a drop and the new collector contradicts nothing, it is the last row of the whole history that must agree |
| MigrationRuns.NoLaterRowDisagrees | scripts/migrate-nuki-device-tag.py:430-440 | so none is lost where no later row disagrees |
| MigrationLosses.ADisagreementMadeGoodLosesNothing | scripts/migrate-nuki-device-tag.py:430-440 | a reading disagreed with by one later row and agreed with by the last is not lost, so it is the last row alone that decides |
| MigrationLosses.ThreeReadingsAreLost | scripts/migrate-nuki-device-tag.py:394-441 | a run with no fault that loses a reading to a later row, one to its name, and a live one to the rewrite |
| MigrationLosses.ARewriteAfterADropLosesTheLastRow | scripts/migrate-nuki-device-tag.py:744-826 | a delete ended after one drop and the rewrite run again: the dropped row's reading, which was the last one there, is written over by the row before it and held by nothing |
| Credentials.CredentialHost.RegenerateDropin | toinflux/credential_cli.py:223-262 | the drop-in lists exactly the static names that are stored, but for the one excluded |
| Credentials.CredentialHost.CmdSet | toinflux/credential_cli.py:1060-1082 | what a set has done by each of its steps |
| Credentials.CredentialHost.CmdRemove | toinflux/credential_cli.py:1085-1117 | what a remove has done by each of its steps |
| Credentials.CommandsStayConsistent | toinflux/credential_cli.py:1060-1117 | after any commands each ended anywhere, the drop-in names no missing file and no field defers to a missing secret |
| Credentials.SetNeverLosesTheSecret | toinflux/credential_cli.py:1060-1082 | wherever a set ends, nothing has changed or the store holds the secret, and the plaintext goes only then |
| Credentials.ARemoveUndoesASet | toinflux/credential_cli.py:1060-1117 | a finished set and a finished remove leave every other credential as it was and this one neither stored, listed nor deferred to |
| Credentials.AFinishedCommandRepairsTheListing | toinflux/credential_cli.py:223-262 | from any state a finished command leaves the exact listing |
| Credentials.OnlyStaticNamesAreListed | toinflux/credential_cli.py:246-253 | a finished set is listed if and only if its name is static |
| Credentials.ASlotIsStoredAndNeverLoaded | toinflux/credential_cli.py:246-253 | a finished set of a second bridge's credential, stored and deferred to and neither listed nor loaded |
| Credentials.StartableUnlessARemoveCouldNotReload | toinflux/credential_cli.py:265-287 | a command leaves the unit startable except exactly a finished remove of a loaded name whose reload failed |
| Credentials.ARemoveThatCouldNotReload | toinflux/credential_cli.py:1108-1115 | a finished remove after which systemd asks for a file that is gone |
| Credentials.ReloadsKeepTheUnitStartable | toinflux/credential_cli.py:1085-1117 | any commands whose reloads work leave the unit startable wherever they end |
| Throttle.RepeatingProblem.Report | toinflux/general.py:1639-1680 | what is remembered and logged for one report |
| Throttle.RepeatingProblem.Clear | toinflux/general.py:1682-1695 | what is forgotten and logged for a recovery |
| Throttle.EachLineCountsItsReports | toinflux/general.py:1639-1680 | each line says how often its problem has been reported since it was last logged in full |
| Throttle.AnUnchangedFaultIsSaidSeldom | toinflux/general.py:1668-1680 | an unchanged fault yields at most T/repeat_after + 1 lines in full in T seconds, whatever other keys do |
| Throttle.AChangedFaultIsAlwaysSaid | toinflux/general.py:1668-1680 | a report whose fault differs from its key's last, or follows its recovery, is logged in full |
| Throttle.RecoveryCountsTheLastStretch | toinflux/general.py:1682-1695 | the recovery count is the reports since the last line in full, that one included |
| Throttle.ARecoveryCountsTheWholeFaultUnlessReminded | toinflux/general.py:1682-1695 | the recovery count is all the reports since the fault began if and only if no later one was logged in full, and less otherwise |
| Throttle.TwoReportsRecoverAsOne | toinflux/general.py:1682-1695 | a fault reported twice an hour apart recovers as one failure |
| Workers.ClampingTheExponentChangesNothing | sendtoinflux.py:81-101 | for any whole numbers the delay is the doubling cut off at the ceiling, and nothing where the base is not positive |
| Workers.BackoffNeverShortens | sendtoinflux.py:81-101 | the delay never shortens as failures mount |
| Workers.SourceWorker | sendtoinflux.py:425-474 | each cycle beats the run of failures it ends and waits by it, until a configuration problem gives the unit up |
| Workers.TrailingSinceTheLastSuccess | sendtoinflux.py:425-474 | the run of failures is those since the last success |
| Workers.OneLiveThread | sendtoinflux.py:1191-1199 | in every interleaving a unit has at most one live thread, and each thread's count is the run its cycles end with |
| Workers.GivenUpIsNeverRestarted | sendtoinflux.py:1191-1199 | a unit that met a configuration problem is never given another thread |
| Workers.AThreadThatEndedIsReplaced | sendtoinflux.py:1191-1199 | in every run a unit is given one more thread, which starts afresh, exactly where the supervisor saw its thread dead and it has not given up |
| Workers.CheckForStalled | sendtoinflux.py:1260-1283 | the units said after one tick are exactly those looked at, not given up, not flagged before, and not heard of for longer than a quarter of an hour and than three of their intervals; and which are flagged |
| Workers.StallThreshold | sendtoinflux.py:1202-1240 | the greater of a quarter of an hour and three intervals, where the interval is a finite positive number |
| Workers.SaidOncePerStall | sendtoinflux.py:1260-1283 | a look says a unit is stalled exactly where a maximal stall begins |

## Left out

- simple-pid is not part of the repository; `Controllers.Pid` holds the behaviour of it that the controller relies on, over reals.
- Floating-point rounding and overflow: finite numbers are reals.
- Rules, schedules and plans: a rule evaluates to anything, the active period is any predicate of time, and a window's plan is any sequence of rungs, so how `toinflux/staging.py` divides a window and how a minimum holds a device (`held_by_minimum`, `_hold`) are not modelled.
- The control's own history (`_record`, `control_record`), the step's reported terms, log messages, heartbeats of controls, and waiting between cycles.
- Controllers.Controller.Capture: the fingerprint and the age that decide whether a stored memory is offered at all are taken as given.
- InfluxDB, MQTT, HTTP, systemd and the file system, beyond what succeeds, what fails and what is then visible or durable.
- Controllers.Controller.Step: answers the demand; planning the window from it, the frozen rungs and the reported terms are left to staging.
- ControlProcesses.ControlProcess.SpendWindowNow: the plan is any plan, so frozen devices and pinning are not in it.
- ControlCycles.AWindowIsHeard: of plans whose rungs name each device at most once, as a mapping does; where the plan comes from is left to staging.
- ControlRefusals.ExactlyWhenAnOutageMovesNothing: of outages in which no window is entered with its lease spent; what any other comes to is in AnOutageIntegratesEachRefusal.
- SharedInputs.FetchesKeepTheirDistance: a fetch that was never written back, because the write failed or the process died first, does not bind the next one, and a handler that sets its own timestamp is outside it.
- Inputs.ReadInput: finding the settings section and the class for a source, and refusing a field or a value by its type, are left out; a row that is short of a column is a row that is not there.
- Ownership.EnabledOwnerOf: actuators are compared in the order the document names them, where the code sorts them by their printed form, so which of an owner's shared actuators is reported can differ.
- Ownership.ActuatorIdentity lower-cases ASCII letters only.
- ControlStores.OneEnabledOwnerPerActuator: hand edits of stored documents and a document that becomes readable again are outside it, as they are outside the lock.
- Migration.RewrittenLines: timestamps and locks are taken in any order, where the script sorts both, and the old keys per lock, which are only printed, are not collected.
- MigrationRuns.EveryReadingIsHeld: nothing may write the old format while the migration lasts, and no field the new collector writes disagrees with the history's line for the same lock and timestamp; where one does, or the rows disagree, TheLastWriteDecides says what is held.
- MigrationRuns.WhatADropLoses: a corollary for runs in which no rewrite starts after something has been dropped; TheLastWriteDecides is of every run.
- InfluxQL.QuotedNamesReadBack: the reader is InfluxQL's for what may stand in quotes, and no InfluxDB is part of this model.
- LineProtocol.PointReadsBack: the digits of a number are whatever Python prints, and a measurement is a word with nothing to escape, as every collector's is.
- Workers.ClampingTheExponentChangesNothing: whole numbers only; a fractional base or ceiling makes the quotient a float, which has no `bit_length`, although the docstring allows one.
- Workers.SourceWorker: the times successful cycles are scheduled for, and a worker that streams, are not in it.
- Workers.OneLiveThread: streaming workers, and the counters of `_StreamSink`, are not modelled; a stream that returns is a thread that ends.
- Credentials.CommandsStayConsistent: two commands at once, and a credential file half written by a failing encryption.
