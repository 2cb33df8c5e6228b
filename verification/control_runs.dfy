/** What holds over whole runs of a control, whatever its readings, its rules and the far end of
    its devices do. */
module ControlRuns {
  import opened Numbers
  import opened Controllers
  import opened ControllerProperties
  import opened Gating
  import opened Commanding
  import opened ControlProcesses

  // ---------- what one batch of commands leaves ----------

  lemma {:induction false} CommandedStates(sent: seq<Order>)
    ensures forall k :: k in Commanded(sent) ==> Order(k, Commanded(sent)[k]) in sent
  {
    if sent != [] {
      CommandedStates(sent[..|sent| - 1]);
    }
  }

  lemma {:induction false} ScaledFromAnOrder(p: Plant, orders: seq<Order>)
    requires AllCommandable(p, orders)
    ensures forall o :: o in ScaleAll(p, orders) ==> exists i :: 0 <= i < |orders| && o == Scaled(p, orders[i])
    ensures forall i :: 0 <= i < |orders| ==> Scaled(p, orders[i]) in ScaleAll(p, orders)
  {
    if orders != [] {
      var n := |orders| - 1;
      ScaledFromAnOrder(p, orders[..n]);
      forall o | o in ScaleAll(p, orders)
        ensures exists i :: 0 <= i < |orders| && o == Scaled(p, orders[i])
      {
        if o != Scaled(p, orders[n]) {
          var i :| 0 <= i < n && o == Scaled(p, orders[..n][i]);
          assert orders[..n][i] == orders[i];
        }
      }
      forall i | 0 <= i < |orders|
        ensures Scaled(p, orders[i]) in ScaleAll(p, orders)
      {
        if i < n {
          assert orders[..n][i] == orders[i];
        }
      }
    }
  }

  /** What a device is told for a safe or end state, brought within its scale. */
  function RestingState(doc: Document, state: SafeState, key: string): Option<State>
    requires key in doc.plant.devices
  {
    var spec := doc.plant.devices[key];
    var wanted := Intended(state, spec);
    if wanted.None? then None else Some(WithinScale(spec.parameter, wanted.value))
  }

  lemma SentWasOrdered(p: Plant, orders: seq<Order>, sent: seq<Order>)
    requires AllCommandable(p, orders) && multiset(sent) <= multiset(ScaleAll(p, orders))
    ensures forall k :: k in Commanded(sent) ==>
              exists i :: 0 <= i < |orders| && Order(k, Commanded(sent)[k]) == Scaled(p, orders[i])
  {
    CommandedStates(sent);
    ScaledFromAnOrder(p, orders);
    forall k | k in Commanded(sent)
      ensures Order(k, Commanded(sent)[k]) in ScaleAll(p, orders)
    {
      assert Order(k, Commanded(sent)[k]) in multiset(sent);
      assert Order(k, Commanded(sent)[k]) in multiset(ScaleAll(p, orders));
    }
  }

  lemma OrderedWasSent(p: Plant, orders: seq<Order>, sent: seq<Order>)
    requires AllCommandable(p, orders) && multiset(sent) == multiset(ScaleAll(p, orders))
    ensures forall i :: 0 <= i < |orders| ==> orders[i].key in Commanded(sent)
  {
    CommandedKeys(sent);
    ScaledFromAnOrder(p, orders);
    forall i | 0 <= i < |orders|
      ensures orders[i].key in Commanded(sent)
    {
      assert Scaled(p, orders[i]) in multiset(ScaleAll(p, orders));
      assert Scaled(p, orders[i]) in multiset(sent);
      assert Scaled(p, orders[i]).key == orders[i].key;
    }
  }

  lemma OrdersFit(doc: Document, state: SafeState, orders: seq<Order>)
    requires Validated(doc)
    requires CommandsFor(state, doc.plant.keys, doc.plant.devices) == Give(orders)
    ensures AllCommandable(doc.plant, orders)
    ensures forall i :: 0 <= i < |orders| ==>
              Some(Scaled(doc.plant, orders[i]).state) == RestingState(doc, state, orders[i].key)
    ensures forall k :: k in doc.plant.devices ==> exists i :: 0 <= i < |orders| && orders[i].key == k
  {
    var p := doc.plant;
    OrdersNameEveryDevice(state, p.keys, p.devices);
    forall k | k in p.devices
      ensures exists i :: 0 <= i < |orders| && orders[i].key == k
    {
      var i :| 0 <= i < |p.keys| && p.keys[i] == k;
      assert orders[i].key == k;
    }
    assert forall i :: 0 <= i < |orders| ==> orders[i].key == p.keys[i] && p.keys[i] in p.keys;
  }

  /** The commands for a state, as the far end accepted them: each is exactly what the state means
      for its device, and where nothing went wrong every device is among them. */
  lemma CommandsReach(doc: Document, state: SafeState, orders: seq<Order>, far: Far)
    requires Validated(doc)
    requires CommandsFor(state, doc.plant.keys, doc.plant.devices) == Give(orders)
    ensures var d := Command(doc.plant, far, orders);
            var c := Commanded(d.sent);
            && (forall k :: k in c ==> k in doc.plant.devices && Some(c[k]) == RestingState(doc, state, k))
            && (d.fault.None? ==> forall k :: k in doc.plant.devices ==> k in c)
  {
    OrdersFit(doc, state, orders);
    AcceptedIsWhatWasAsked(doc.plant, far, orders);
    var d := Command(doc.plant, far, orders);
    SentWasOrdered(doc.plant, orders, d.sent);
    if d.fault.None? {
      OrderedWasSent(doc.plant, orders, d.sent);
    }
  }

  lemma ToldAllAt(told: map<string, Told>, c: map<string, State>, origin: Origin)
    ensures ToldAll(told, c, origin).Keys == told.Keys + c.Keys
    ensures forall k :: k in ToldAll(told, c, origin) ==>
              ToldAll(told, c, origin)[k] == if k in c then Told(origin, c[k]) else told[k]
  {
  }

  /** A device left as it was, or told what a state means for it. */
  ghost predicate LeftOrTold(doc: Document, before: Proc, after: Proc, state: SafeState, origin: Origin) {
    && after.acting == before.acting && after.loop == before.loop
    && after.told.Keys <= before.told.Keys + doc.plant.devices.Keys
    && before.told.Keys <= after.told.Keys
    && forall k :: k in after.told ==>
         || (k in before.told && after.told[k] == before.told[k])
         || TheyWereTold(doc, after, state, origin, k)
  }

  ghost predicate TheyWereTold(doc: Document, s: Proc, state: SafeState, origin: Origin, key: string) {
    key in doc.plant.devices && key in s.told
    && s.told[key].origin == origin && Some(s.told[key].state) == RestingState(doc, state, key)
  }

  lemma ToldWhatReached(doc: Document, s: Proc, after: Proc, c: map<string, State>, state: SafeState, origin: Origin)
    requires after.acting == s.acting && after.loop == s.loop && after.told == ToldAll(s.told, c, origin)
    requires forall k :: k in c ==> k in doc.plant.devices && Some(c[k]) == RestingState(doc, state, k)
    ensures LeftOrTold(doc, s, after, state, origin)
    ensures forall k :: k in c ==> TheyWereTold(doc, after, state, origin, k)
  {
    ToldAllAt(s.told, c, origin);
  }

  lemma TellReaches(
    doc: Document, s: Proc, state: SafeState, orders: seq<Order>, far: Far, origin: Origin, now: real)
    requires Validated(doc)
    requires CommandsFor(state, doc.plant.keys, doc.plant.devices) == Give(orders)
    ensures LeftOrTold(doc, s, Tell(doc, s, orders, far, origin, now).0, state, origin)
    ensures Tell(doc, s, orders, far, origin, now).1.Fine? ==>
              forall k :: k in doc.plant.devices ==>
                TheyWereTold(doc, Tell(doc, s, orders, far, origin, now).0, state, origin, k)
  {
    var d := Command(doc.plant, far, orders);
    CommandsReach(doc, state, orders, far);
    ToldWhatReached(doc, s, Tell(doc, s, orders, far, origin, now).0, Commanded(d.sent), state, origin);
  }

  /** Commanding a state tells each device that accepts it exactly what the state means for it, and
      leaves the others as they were; where it returns normally every device has been told. */
  lemma TellStateReaches(doc: Document, s: Proc, state: SafeState, far: Far, origin: Origin, now: real)
    requires Validated(doc)
    ensures var (after, o) := TellState(doc, s, state, far, origin, now);
            && LeftOrTold(doc, s, after, state, origin)
            && (o.Fine? && state != LeaveUnchanged ==>
                  forall k :: k in doc.plant.devices ==> TheyWereTold(doc, after, state, origin, k))
            && (state == LeaveUnchanged ==> after == s && o.Fine?)
  {
    var commands := CommandsFor(state, doc.plant.keys, doc.plant.devices);
    if commands.Give? {
      TellReaches(doc, s, state, commands.orders, far, origin, now);
    }
  }

  // ---------- quiet implies safe ----------

  /** Whether a closing edge sends anything: `leave_unchanged` asks for nothing, and the number
      zero, like an empty text, is read as false by the test that guards the command. */
  predicate Delivers(state: SafeState) {
    state != LeaveUnchanged && state != Value(Finite(0.0)) && state != Unknown("")
  }

  predicate AtRest(doc: Document, key: string, told: Told)
    requires key in doc.plant.devices
  {
    && told.origin != Rung
    && (Some(told.state) == RestingState(doc, ClosingState(doc), key)
        || Some(told.state) == RestingState(doc, doc.safeState, key))
  }

  /** Unless the gate believes it is acting, no device was last told a rung of the ladder. */
  ghost predicate QuietIsSafe(doc: Document, s: Proc) {
    && s.told.Keys <= doc.plant.devices.Keys
    && (s.acting != Some(true) ==> forall k :: k in s.told ==> AtRest(doc, k, s.told[k]))
  }

  lemma StartIsQuiet(
    doc: Document, entries: Entries, kept: Option<(Memory, Num)>, inside: bool, far: Far, now: real)
    requires Validated(doc)
    ensures var (s, o) := StartProcess(doc, entries, kept, inside, far, now);
            && QuietIsSafe(doc, s)
            && (o.Fine? && StartingState(doc, inside) != LeaveUnchanged ==> s.told.Keys == doc.plant.devices.Keys)
  {
    var fresh_ := Fresh(TuningOf(doc), now);
    var loop := if kept.None? then fresh_ else RestoreLoop(fresh_, kept.value.0, kept.value.1, now);
    TellStateReaches(doc, Proc(None, loop, map[], entries, None), StartingState(doc, inside), far, Starting, now);
  }

  /** A control that starts with its period over is told its end state at once, which is what closing
      would have told it; so the first cycle, which finds the gate shut, owes no edge. One that starts
      at any other time is told its safe state. */
  lemma StartsWhereItWouldHaveClosed(
    doc: Document, entries: Entries, kept: Option<(Memory, Num)>, e: Surroundings, far: Far, now: real)
    requires Validated(doc) && doc.enabled
    ensures var (s, o) := StartProcess(doc, entries, kept, e.inside, far, now);
            && s.acting.None?
            && (doc.period.Some? && !e.inside ==>
                  && RunCycle(doc, s, e).1 == Completed(Decision(false, NoEdge, None))
                  && (o.Fine? && ClosingState(doc) != LeaveUnchanged ==>
                        forall k :: k in doc.plant.devices ==> TheyWereTold(doc, s, ClosingState(doc), Starting, k)))
            && (!(doc.period.Some? && !e.inside) && o.Fine? && doc.safeState != LeaveUnchanged ==>
                  forall k :: k in doc.plant.devices ==> TheyWereTold(doc, s, doc.safeState, Starting, k))
  {
    var fresh_ := Fresh(TuningOf(doc), now);
    var loop := if kept.None? then fresh_ else RestoreLoop(fresh_, kept.value.0, kept.value.1, now);
    TellStateReaches(doc, Proc(None, loop, map[], entries, None), StartingState(doc, e.inside), far, Starting, now);
  }

  lemma {:induction false} PlanKeepsTheGate(doc: Document, s: Proc, plan: seq<Dwell>)
    ensures var after := SpendPlan(doc, s, plan).0;
            && after.acting == s.acting && after.loop == s.loop && after.stored == s.stored
            && after.told.Keys <= s.told.Keys + doc.plant.devices.Keys
            && s.told.Keys <= after.told.Keys
    decreases |plan|
  {
    if plan != [] {
      CommandIsDeclared(doc.plant, plan[0].far, plan[0].orders);
      PlanKeepsTheGate(doc, Tell(doc, s, plan[0].orders, plan[0].far, Rung, plan[0].at).0, plan[1..]);
    }
  }

  lemma WindowKeepsTheGate(doc: Document, s: Proc, v: View, e: Surroundings)
    requires Laddered(TuningOf(doc))
    ensures var after := SpendWindow(doc, s, v, e).0;
            && after.acting == s.acting
            && after.told.Keys <= s.told.Keys + doc.plant.devices.Keys && s.told.Keys <= after.told.Keys
  {
    var (v', r) := GatherOnce(v, e);
    if r.Read? {
      PlanKeepsTheGate(doc, SteppedBy(doc, s, r.bindings, e).0, e.plan);
    }
  }

  lemma FailSafeReaches(doc: Document, s: Proc, e: Surroundings)
    requires Validated(doc)
    ensures LeftOrTold(doc, s.(loop := HoldLoop(s.loop, e.failedAt)), FailSafe(doc, s, e), doc.safeState, Safe)
  {
    TellStateReaches(doc, s.(loop := HoldLoop(s.loop, e.failedAt)), doc.safeState, e.safeFar, Safe, e.failedAt);
  }

  lemma FailSafeIsQuiet(doc: Document, s: Proc, e: Surroundings)
    requires Validated(doc) && QuietIsSafe(doc, s)
    ensures var after := FailSafe(doc, s, e);
            QuietIsSafe(doc, after) && after.acting == s.acting && s.told.Keys <= after.told.Keys
  {
    FailSafeReaches(doc, s, e);
  }

  /** What a closing edge does: every device told, or nothing sent and the edge spent anyway, or
      the edge kept because the command did not go through. */
  lemma ClosingEdge(doc: Document, s: Proc, e: Surroundings)
    requires Validated(doc) && s.acting == Some(true)
    ensures var (after, o) := TakeEdge(doc, s, Decision(false, Closed, Some(ClosingState(doc))), e);
            && after.acting == (if o.Fine? then Some(false) else Some(true))
            && after.told.Keys <= s.told.Keys + doc.plant.devices.Keys && s.told.Keys <= after.told.Keys
            && (!Delivers(ClosingState(doc)) ==> o.Fine? && after.told == s.told)
            && (o.Fine? && Delivers(ClosingState(doc)) ==>
                  forall k :: k in doc.plant.devices ==> TheyWereTold(doc, after, ClosingState(doc), Closing, k))
  {
    var held := s.(loop := HoldLoop(s.loop, e.at));
    DeliveredIsTrue(ClosingState(doc));
    TellStateReaches(doc, held, ClosingState(doc), e.closingFar, Closing, e.at);
  }

  lemma DeliveredIsTrue(state: SafeState)
    ensures Delivers(state) <==> state != LeaveUnchanged && Truthy(state)
  {
  }

  /** A cycle whose gate has shut while the control was acting: the closing command is delivered to
      every device and the edge is spent, or the edge is kept for the next cycle. */
  lemma ClosingIsRedelivered(doc: Document, s: Proc, e: Surroundings)
    requires Validated(doc) && s.acting == Some(true)
    requires Assess(doc, View(None, 0), e).1 == Acts(false)
    ensures var (after, r, _) := RunCycle(doc, s, e);
            && after.acting == (if r.Completed? then Some(false) else Some(true))
            && (r.Completed? ==> r.decision == Decision(false, Closed, Some(ClosingState(doc))))
            && (r.Completed? && !Delivers(ClosingState(doc)) ==> after.told == s.told)
            && (r.Completed? && Delivers(ClosingState(doc)) ==>
                  forall k :: k in doc.plant.devices ==> TheyWereTold(doc, after, ClosingState(doc), Closing, k))
            && after.told.Keys <= s.told.Keys + doc.plant.devices.Keys && s.told.Keys <= after.told.Keys
  {
    var d := Decision(false, Closed, Some(ClosingState(doc)));
    assert Decide(s.acting, false, ClosingState(doc)) == (s.acting, d);
    assert s.(acting := s.acting) == s;
    ClosingEdge(doc, s, e);
    FailSafeReaches(doc, TakeEdge(doc, s, d, e).0, e);
  }

  lemma FinishingStaysQuiet(doc: Document, s: Proc, o: Outcome, d: Decision, e: Surroundings)
    requires Validated(doc) && QuietIsSafe(doc, s)
    ensures var after := FinishCycle(doc, s, o, d, e).0;
            QuietIsSafe(doc, after) && s.told.Keys <= after.told.Keys
  {
    FailSafeIsQuiet(doc, s, e);
  }

  lemma WindowStaysQuiet(doc: Document, s: Proc, v: View, d: Decision, e: Surroundings)
    requires Validated(doc) && QuietIsSafe(doc, s) && s.acting == Some(true)
    ensures var after := ActInWindow(doc, s, v, d, e).0;
            QuietIsSafe(doc, after) && s.told.Keys <= after.told.Keys
  {
    var (spent, _, o, _) := SpendWindow(doc, s, v, e);
    WindowKeepsTheGate(doc, s, v, e);
    FinishingStaysQuiet(doc, spent, o, d, e);
  }

  lemma CycleStaysQuiet(doc: Document, s: Proc, e: Surroundings)
    requires Validated(doc) && Delivers(ClosingState(doc)) && QuietIsSafe(doc, s)
    ensures QuietIsSafe(doc, RunCycle(doc, s, e).0) && s.told.Keys <= RunCycle(doc, s, e).0.told.Keys
  {
    var (v, a) := Assess(doc, View(None, 0), e);
    if a.AssessFails? {
      FailSafeIsQuiet(doc, s, e);
    } else if a == Acts(false) && s.acting == Some(true) {
      ClosingIsRedelivered(doc, s, e);
    } else if a == Acts(true) {
      var (memory, d) := Decide(s.acting, true, ClosingState(doc));
      var edged := TakeEdge(doc, s.(acting := memory), d, e).0;
      WindowStaysQuiet(doc, edged.(loop := ResumeLoop(edged.loop, None, e.at)), v, d, e);
    }
  }

  lemma {:induction false} RunStaysQuiet(doc: Document, s: Proc, es: seq<Surroundings>)
    requires Validated(doc) && Delivers(ClosingState(doc)) && QuietIsSafe(doc, s)
    ensures QuietIsSafe(doc, RunAll(doc, s, es).0) && s.told.Keys <= RunAll(doc, s, es).0.told.Keys
    decreases |es|
  {
    if es != [] {
      CycleStaysQuiet(doc, s, es[0]);
      var (s', r, _) := RunCycle(doc, s, es[0]);
      if !r.Stopped? {
        RunStaysQuiet(doc, s', es[1..]);
      }
    }
  }

  /** In every run of a control whose closing state is delivered, a cycle that answers "not acting,
      and no edge" leaves each device last told its closing state or its safe state, and never a
      rung; and where the starting state touched the devices, that is every device. */
  lemma QuietImpliesSafe(
    doc: Document, entries: Entries, kept: Option<(Memory, Num)>, inside: bool, far: Far, now: real,
    es: seq<Surroundings>, e: Surroundings)
    requires Validated(doc) && Delivers(ClosingState(doc))
    requires StartProcess(doc, entries, kept, inside, far, now).1.Fine?
    ensures var s := RunAll(doc, StartProcess(doc, entries, kept, inside, far, now).0, es).0;
            var (after, r, _) := RunCycle(doc, s, e);
            r == Completed(Decision(false, NoEdge, None)) ==>
              && (forall k :: k in after.told ==> k in doc.plant.devices && AtRest(doc, k, after.told[k]))
              && (StartingState(doc, inside) != LeaveUnchanged ==> after.told.Keys == doc.plant.devices.Keys)
  {
    StartIsQuiet(doc, entries, kept, inside, far, now);
    var started := StartProcess(doc, entries, kept, inside, far, now).0;
    RunStaysQuiet(doc, started, es);
    CycleStaysQuiet(doc, RunAll(doc, started, es).0, e);
    var s := RunAll(doc, started, es).0;
    var (after, r, _) := RunCycle(doc, s, e);
    if r == Completed(Decision(false, NoEdge, None)) {
      QuietGateIsNotActing(doc, s, e);
    }
  }

  lemma QuietGateIsNotActing(doc: Document, s: Proc, e: Surroundings)
    requires Validated(doc)
    requires RunCycle(doc, s, e).1 == Completed(Decision(false, NoEdge, None))
    ensures RunCycle(doc, s, e).0.acting == Some(false) && RunCycle(doc, s, e).0.told == s.told
  {
  }

  /** Exactly when the closing edge does its work: a control that was holding some device at a rung
      closes, and then has a quiet cycle. Afterwards no device is at a rung if and only if the
      closing state is delivered; otherwise every device is still where the ladder left it. */
  lemma QuietIsSafeExactlyWhenDelivered(doc: Document, s: Proc, closing: Surroundings, quiet: Surroundings)
    requires Validated(doc) && s.acting == Some(true) && s.told.Keys <= doc.plant.devices.Keys
    requires exists k :: k in s.told && s.told[k].origin == Rung
    requires RunCycle(doc, s, closing).1 == Completed(Decision(false, Closed, Some(ClosingState(doc))))
    requires RunCycle(doc, RunCycle(doc, s, closing).0, quiet).1 == Completed(Decision(false, NoEdge, None))
    ensures var after := RunCycle(doc, RunCycle(doc, s, closing).0, quiet).0;
            && ((forall k :: k in after.told ==> after.told[k].origin != Rung) <==> Delivers(ClosingState(doc)))
            && (!Delivers(ClosingState(doc)) ==> after.told == s.told)
  {
    ClosingIsRedelivered(doc, s, closing);
    QuietGateIsNotActing(doc, RunCycle(doc, s, closing).0, quiet);
  }

  /** What decides whether the gate is answered: only where the switch and the clock leave it to the
      rule does it matter, and then the rule must be reached with readings and give a truth or a finite
      number. */
  predicate GateFails(doc: Document, e: Surroundings) {
    && doc.enabled && !(doc.period.Some? && !e.inside) && doc.enableWhen.Some?
    && (e.first.ReadFails?
        || (e.first.Read?
            && var o := doc.enableWhen.value(e.first.bindings);
               o.Raises? || (o.Gives? && !o.value.Finite?)))
  }

  /** A gate that cannot be answered is neither open nor shut: the cycle falls to the safe state, each
      device is told that or left, nothing is stepped, and what the gate believed is untouched, so an
      edge that was owed is still owed. */
  lemma AnUnanswerableGateFallsSafe(doc: Document, s: Proc, e: Surroundings)
    requires Validated(doc)
    ensures Assess(doc, View(None, 0), e).1.AssessFails? <==> GateFails(doc, e)
    ensures GateFails(doc, e) ==>
              var (after, r, w) := RunCycle(doc, s, e);
              && r.FellSafe? && after.acting == s.acting && w.step.None?
              && LeftOrTold(doc, s.(loop := HoldLoop(s.loop, e.failedAt)), after, doc.safeState, Safe)
  {
    FailSafeReaches(doc, s, e);
    if doc.enableWhen.Some? && e.first.Read? {
      AnUnanswerableGateIsNotOpen(doc.enableWhen.value(e.first.bindings));
    }
  }

  // ---------- a closing state of zero ----------

  const LAMP := DeviceSpec("hue", None, "lamp", None)

  /** A control that may switch a lamp on inside its active period, and whose end state is the
      number zero. */
  function LampUntilZero(): Document {
    Document(true, Some(Value(Finite(0.0))), Unenergised, None, _ => Gives(Finite(1.0)), _ => Gives(Finite(0.0)), None,
             [0.0, 1.0], 1.0, 0.0, 0.0,
             Plant(["lamp"], map["lamp" := LAMP], [TargetOf(LAMP)], {"hue"}))
  }

  lemma LampIsValidated()
    ensures Validated(LampUntilZero())
  {
    var doc := LampUntilZero();
    var spec := doc.plant.devices["lamp"];
    assert OrdersFor(Unenergised, ["lamp"], doc.plant.devices) == Give([Order("lamp", Switch(false))]) by {
      assert OrdersFor(Unenergised, [], doc.plant.devices) == Give([]);
    }
    assert OrdersFor(Value(Finite(0.0)), ["lamp"], doc.plant.devices) == Give([Order("lamp", Switch(false))]) by {
      assert OrdersFor(Value(Finite(0.0)), [], doc.plant.devices) == Give([]);
    }
  }

  /** With no fault anywhere, a control whose period ends in the number zero closes and then goes
      quiet without a word to any device. */
  lemma ZeroIsNeverDelivered(doc: Document, s: Proc, closing: Surroundings, quiet: Surroundings)
    requires Validated(doc) && doc.period == Some(Value(Finite(0.0))) && s.acting == Some(true)
    requires !closing.inside && !quiet.inside
    ensures var after := RunCycle(doc, RunCycle(doc, s, closing).0, quiet);
            after.1 == Completed(Decision(false, NoEdge, None)) && after.0.told == s.told
  {
    assert RunCycle(doc, s, closing).1.Completed? && Assess(doc, View(None, 0), closing).1 == Acts(false);
    ClosingIsRedelivered(doc, s, closing);
    var closed := RunCycle(doc, s, closing).0;
    assert RunCycle(doc, closed, quiet).1 == Completed(Decision(false, NoEdge, None));
    QuietGateIsNotActing(doc, closed, quiet);
  }

  /** A document validation accepts and a lamp a rung has switched on: it stays on. */
  lemma AnEndStateOfZeroLeavesTheLampOn(s: Proc, closing: Surroundings, quiet: Surroundings)
    requires s.acting == Some(true) && "lamp" in s.told && s.told["lamp"] == Told(Rung, Switch(true))
    requires !closing.inside && !quiet.inside
    ensures var doc := LampUntilZero();
            var after := RunCycle(doc, RunCycle(doc, s, closing).0, quiet);
            && Validated(doc)
            && RestingState(doc, ClosingState(doc), "lamp") == Some(Switch(false))
            && after.1 == Completed(Decision(false, NoEdge, None))
            && "lamp" in after.0.told && after.0.told["lamp"] == Told(Rung, Switch(true))
  {
    LampIsValidated();
    ZeroIsNeverDelivered(LampUntilZero(), s, closing, quiet);
  }

  /** However the cycles ended, a safe state that goes through on the way out leaves every device
      told it; one that fails part-way leaves each device told it or as the last cycle left it. */
  lemma ExitLeavesTheSafeState(doc: Document, s: Proc, es: seq<Surroundings>, far: Far, now: real)
    requires Validated(doc) && doc.safeState != LeaveUnchanged
    ensures var last := RunAll(doc, s, es).0;
            var (after, o) := TellState(doc, last, doc.safeState, far, Safe, now);
            && LeftOrTold(doc, last, after, doc.safeState, Safe)
            && (o.Fine? ==> forall k :: k in doc.plant.devices ==> TheyWereTold(doc, after, doc.safeState, Safe, k))
  {
    TellStateReaches(doc, RunAll(doc, s, es).0, doc.safeState, far, Safe, now);
  }

  // ---------- the log tells the truth ----------

  predicate Agrees(a: State, b: State) {
    a == b || SameState(a, b)
  }

  /** What the log holds for each device this process commanded is what the far end last accepted,
      recorded against the device as it is declared, and marked as forced only where it was not a
      rung that put it there. */
  ghost predicate LogIsTrue(doc: Document, s: Proc) {
    forall k :: k in s.told ==> IsTrueOf(doc, s, k)
  }

  predicate IsTrueOf(doc: Document, s: Proc, k: string)
    requires k in s.told
  {
    && k in doc.plant.devices && k in s.entries
    && Agrees(s.entries[k].state, s.told[k].state)
    && s.entries[k].identity == Some(doc.plant.devices[k])
    && (s.entries[k].forced ==> s.told[k].origin != Rung)
  }

  lemma TellKeepsTheLogTrue(doc: Document, s: Proc, orders: seq<Order>, far: Far, origin: Origin, now: real)
    requires LogIsTrue(doc, s)
    ensures LogIsTrue(doc, Tell(doc, s, orders, far, origin, now).0)
  {
    CommandIsDeclared(doc.plant, far, orders);
    var c := Commanded(Command(doc.plant, far, orders).sent);
    var after := Tell(doc, s, orders, far, origin, now).0;
    forall k | k in after.told
      ensures IsTrueOf(doc, after, k)
    {
      if k in c {
        NotedIsTrue(EntryOf(s.entries, k), c[k], doc.plant.devices[k], now, origin != Rung);
      } else {
        assert IsTrueOf(doc, s, k);
      }
    }
  }

  lemma NotedIsTrue(was: Option<Entry>, state: State, spec: DeviceSpec, now: real, forced: bool)
    ensures var e := Noted(was, state, spec, now, forced);
            Agrees(e.state, state) && e.identity == Some(spec) && (e.forced ==> forced)
  {
  }

  lemma TellStateKeepsTheLogTrue(doc: Document, s: Proc, state: SafeState, far: Far, origin: Origin, now: real)
    requires Declared(doc.plant.keys, doc.plant.devices) && LogIsTrue(doc, s)
    ensures LogIsTrue(doc, TellState(doc, s, state, far, origin, now).0)
  {
    match CommandsFor(state, doc.plant.keys, doc.plant.devices)
    case Give(orders) => TellKeepsTheLogTrue(doc, s, orders, far, origin, now);
    case _ =>
  }

  lemma {:induction false} PlanKeepsTheLogTrue(doc: Document, s: Proc, plan: seq<Dwell>)
    requires LogIsTrue(doc, s)
    ensures LogIsTrue(doc, SpendPlan(doc, s, plan).0)
    decreases |plan|
  {
    if plan != [] {
      TellKeepsTheLogTrue(doc, s, plan[0].orders, plan[0].far, Rung, plan[0].at);
      PlanKeepsTheLogTrue(doc, Tell(doc, s, plan[0].orders, plan[0].far, Rung, plan[0].at).0, plan[1..]);
    }
  }

  lemma SpendingKeepsTheLogTrue(doc: Document, s: Proc, v: View, e: Surroundings)
    requires Validated(doc) && LogIsTrue(doc, s)
    ensures LogIsTrue(doc, SpendWindow(doc, s, v, e).0)
  {
    var (v', r) := GatherOnce(v, e);
    if r.Read? {
      SteppingKeepsTheLogTrue(doc, s, r.bindings, e);
      PlanKeepsTheLogTrue(doc, SteppedBy(doc, s, r.bindings, e).0, e.plan);
    }
  }

  lemma SteppingKeepsTheLogTrue(doc: Document, s: Proc, b: Bindings, e: Surroundings)
    requires Validated(doc) && LogIsTrue(doc, s)
    ensures LogIsTrue(doc, SteppedBy(doc, s, b, e).0)
  {
    var after := SteppedBy(doc, s, b, e).0;
    forall k | k in after.told
      ensures IsTrueOf(doc, after, k)
    {
      assert IsTrueOf(doc, s, k);
    }
  }

  lemma FinishingKeepsTheLogTrue(doc: Document, s: Proc, o: Outcome, d: Decision, e: Surroundings)
    requires Validated(doc) && LogIsTrue(doc, s)
    ensures LogIsTrue(doc, FinishCycle(doc, s, o, d, e).0)
  {
    FailSafeKeepsTheLogTrue(doc, s, e);
  }

  lemma WindowKeepsTheLogTrue(doc: Document, s: Proc, v: View, d: Decision, e: Surroundings)
    requires Validated(doc) && LogIsTrue(doc, s)
    ensures LogIsTrue(doc, ActInWindow(doc, s, v, d, e).0)
  {
    var (spent, _, o, _) := SpendWindow(doc, s, v, e);
    SpendingKeepsTheLogTrue(doc, s, v, e);
    FinishingKeepsTheLogTrue(doc, spent, o, d, e);
  }

  lemma EdgeKeepsTheLogTrue(doc: Document, s: Proc, d: Decision, e: Surroundings)
    requires Validated(doc) && LogIsTrue(doc, s)
    ensures LogIsTrue(doc, TakeEdge(doc, s, d, e).0)
  {
    if d.edge.Closed? && d.apply.Some? && Truthy(d.apply.value) {
      TellStateKeepsTheLogTrue(doc, s.(loop := HoldLoop(s.loop, e.at)), d.apply.value, e.closingFar, Closing, e.at);
    }
  }

  lemma CycleKeepsTheLogTrue(doc: Document, s: Proc, e: Surroundings)
    requires Validated(doc) && LogIsTrue(doc, s)
    ensures LogIsTrue(doc, RunCycle(doc, s, e).0)
  {
    var (v, a) := Assess(doc, View(None, 0), e);
    if a.AssessFails? {
      FailSafeKeepsTheLogTrue(doc, s, e);
    } else if a.Acts? {
      var (memory, d) := Decide(s.acting, a.acting, ClosingState(doc));
      EdgeKeepsTheLogTrue(doc, s.(acting := memory), d, e);
      var edged := TakeEdge(doc, s.(acting := memory), d, e).0;
      FailSafeKeepsTheLogTrue(doc, edged, e);
      WindowKeepsTheLogTrue(doc, edged.(loop := ResumeLoop(edged.loop, None, e.at)), v, d, e);
    }
  }

  lemma FailSafeKeepsTheLogTrue(doc: Document, s: Proc, e: Surroundings)
    requires Validated(doc) && LogIsTrue(doc, s)
    ensures LogIsTrue(doc, FailSafe(doc, s, e))
  {
    TellStateKeepsTheLogTrue(doc, s.(loop := HoldLoop(s.loop, e.failedAt)), doc.safeState, e.safeFar, Safe, e.failedAt);
  }

  /** Over every run, whatever was accepted and whatever refused, the transition log tells the truth. */
  lemma {:induction false} TheLogTellsTheTruth(doc: Document, s: Proc, es: seq<Surroundings>)
    requires Validated(doc) && LogIsTrue(doc, s)
    ensures LogIsTrue(doc, RunAll(doc, s, es).0)
    decreases |es|
  {
    if es != [] {
      CycleKeepsTheLogTrue(doc, s, es[0]);
      var (s', r, _) := RunCycle(doc, s, es[0]);
      if !r.Stopped? {
        TheLogTellsTheTruth(doc, s', es[1..]);
      }
    }
  }

  // ---------- mode and bindings ----------

  lemma ResumedIsAutomatic(l: Loop, now: real)
    ensures ResumeLoop(l, None, now).pid.auto && ResumeLoop(l, None, now).held.None?
  {
  }

  lemma AutomaticStepAnswers(u: Tuning, l: Loop, f: Feed, now: real)
    requires Laddered(u) && l.pid.auto
    ensures var (after, r) := StepLoop(u, l, f, now);
            after.pid.auto && after.held == l.held && !r.SteppedWhileHeld?
  {
  }

  lemma FailSafeHolds(doc: Document, s: Proc, e: Surroundings)
    requires Validated(doc)
    ensures FailSafe(doc, s, e).loop == HoldLoop(s.loop, e.failedAt)
            && !FailSafe(doc, s, e).loop.pid.auto && FailSafe(doc, s, e).loop.held.Some?
  {
    FailSafeReaches(doc, s, e);
  }

  lemma WindowSteps(doc: Document, s: Proc, v: View, e: Surroundings)
    requires Validated(doc) && s.loop.pid.auto
    requires v == View(None, 0) || (v.asked == 1 && v.cache.Some? && e.first == Read(v.cache.value))
    ensures var (after, v', o, step) := SpendWindow(doc, s, v, e);
            && after.loop.pid.auto && v'.asked == 1
            && (step.Some? ==> step.value.0 && !step.value.1.SteppedWhileHeld?)
            && (step.Some? ==> e.first.Read? && v'.cache == Some(e.first.bindings))
            && (o.Fine? ==> step.Some?)
  {
    var (v', r) := GatherOnce(v, e);
    if r.Read? {
      var f := FeedOf(doc, r.bindings, e.dt);
      AutomaticStepAnswers(TuningOf(doc), s.loop, f, e.stepAt);
      PlanKeepsTheGate(doc, SteppedBy(doc, s, r.bindings, e).0, e.plan);
    }
  }

  lemma WindowMode(doc: Document, s: Proc, v: View, d: Decision, e: Surroundings)
    requires Validated(doc) && s.loop.pid.auto
    requires v == View(None, 0) || (v.asked == 1 && v.cache.Some? && e.first == Read(v.cache.value))
    ensures var (after, r, w) := ActInWindow(doc, s, v, d, e);
            && (r.Completed? ==> r.decision == d && after.loop.pid.auto)
            && (r.FellSafe? ==> !after.loop.pid.auto && after.loop.held.Some?)
            && (w.step.Some? ==> w.step.value.0 && !w.step.value.1.SteppedWhileHeld?)
            && w.asked == 1 && w.gateSaw == v.cache
            && (w.loopSaw.Some? ==> e.first == Read(w.loopSaw.value))
  {
    FailSafeHolds(doc, SpendWindow(doc, s, v, e).0, e);
    WindowSteps(doc, s, v, e);
  }

  predicate ModeIsRight(after: Proc, r: Report, w: Witness, e: Surroundings) {
    && (r.Completed? ==> after.loop.pid.auto == r.decision.actuating)
    && (r.FellSafe? ==> !after.loop.pid.auto && after.loop.held.Some?)
    && (w.step.Some? ==> w.step.value.0 && !w.step.value.1.SteppedWhileHeld?)
    && w.asked <= 1
    && (w.gateSaw.Some? && w.loopSaw.Some? ==> w.gateSaw == w.loopSaw)
    && (w.loopSaw.Some? ==> e.first == Read(w.loopSaw.value))
  }

  lemma ActingMode(doc: Document, s: Proc, v: View, acting: bool, e: Surroundings)
    requires Validated(doc)
    requires v == View(None, 0) || (v.asked == 1 && v.cache.Some? && e.first == Read(v.cache.value))
    ensures var (after, r, w) := ActOn(doc, s, v, acting, e);
            ModeIsRight(after, r, w, e)
  {
    var (memory, d) := Decide(s.acting, acting, ClosingState(doc));
    var (edged, o) := TakeEdge(doc, s.(acting := memory), d, e);
    FailSafeHolds(doc, edged, e);
    if o.Fine? && d.actuating {
      ResumedIsAutomatic(edged.loop, e.at);
      WindowMode(doc, edged.(loop := ResumeLoop(edged.loop, None, e.at)), v, d, e);
    }
  }

  lemma WhatWasAsked(doc: Document, e: Surroundings)
    ensures var (v, a) := Assess(doc, View(None, 0), e);
            && v.asked <= 1
            && (a.Acts? ==> v == View(None, 0) || (v.asked == 1 && v.cache.Some? && e.first == Read(v.cache.value)))
  {
  }

  /** After a cycle that returned, the PID is automatic exactly where that cycle finished an active
      window; it is never stepped while manual; the inputs are read at most once, so the gate and
      the loop of one cycle work from the same bindings. */
  lemma ModeFollowsTheWindow(doc: Document, s: Proc, e: Surroundings)
    requires Validated(doc)
    ensures var (after, r, w) := RunCycle(doc, s, e);
            && (r.Completed? ==> after.loop.pid.auto == r.decision.actuating)
            && (r.FellSafe? ==> !after.loop.pid.auto && after.loop.held.Some?)
            && (w.step.Some? ==> w.step.value.0 && !w.step.value.1.SteppedWhileHeld?)
            && w.asked <= 1
            && (w.gateSaw.Some? && w.loopSaw.Some? ==> w.gateSaw == w.loopSaw)
            && (w.loopSaw.Some? ==> e.first == Read(w.loopSaw.value))
  {
    var (v, a) := Assess(doc, View(None, 0), e);
    WhatWasAsked(doc, e);
    if a.AssessFails? {
      FailSafeHolds(doc, s, e);
    } else if a.Acts? {
      ActingMode(doc, s, v, a.acting, e);
    }
  }
}
