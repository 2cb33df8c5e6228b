/** Putting a control's devices into the states given, and noting which of them moved
    (command_devices, _command_each and _within_scale in toinflux/control_process.py;
    TransitionLog.record in toinflux/transitions.py). */
module Commanding {
  import opened Numbers
  import opened Gating

  // ---------- what is commanded, and what the far end makes of it ----------

  datatype Target = Target(source: string, instance: Option<string>)

  /** SourceConnectionError, which the next cycle may recover from, and ConfigError. */
  datatype Fault = Connection | Configuration

  /** How the far end answers this time: the targets no handler can be opened for, and the
      devices that refuse or cannot be resolved. */
  datatype Far = Far(unopened: map<Target, Fault>, refuses: map<string, Fault>)

  /** A control's devices section: its keys in order, and `targets`, every (source, instance)
      pair it names in the order their text sorts in. `actuating` are the sources that can
      switch a device at all. */
  datatype Plant = Plant(
    keys: seq<string>, devices: map<string, DeviceSpec>, targets: seq<Target>, actuating: set<string>)

  function TargetOf(spec: DeviceSpec): Target {
    Target(spec.source, spec.instance)
  }

  predicate Distinct<T(==)>(s: seq<T>) {
    forall i, j :: 0 <= i < j < |s| ==> s[i] != s[j]
  }

  ghost predicate WellFormed(p: Plant) {
    && Distinct(p.keys) && Distinct(p.targets)
    && (forall k :: k in p.keys <==> k in p.devices)
    && (forall k :: k in p.devices ==> TargetOf(p.devices[k]) in p.targets)
  }

  predicate Commandable(p: Plant, key: string) {
    key in p.devices && p.devices[key].source != "" && p.devices[key].device != ""
  }

  /** A value past the end of a percentage is brought back to it; a switch is left alone. */
  function WithinScale(parameter: Option<string>, state: State): State {
    var full := StaticFullScale(parameter);
    if full.None? || state.Switch? then state
    else Level(PyMax(Finite(0.0), PyMin(state.v, Finite(full.value))))
  }

  function Scaled(p: Plant, o: Order): Order
    requires o.key in p.devices
  {
    Order(o.key, WithinScale(p.devices[o.key].parameter, o.state))
  }

  ghost predicate AllCommandable(p: Plant, orders: seq<Order>) {
    forall o :: o in orders ==> Commandable(p, o.key)
  }

  /** The orders for one target, scaled, in the order they were given. */
  function ItemsFor(p: Plant, orders: seq<Order>, t: Target): seq<Order>
    requires AllCommandable(p, orders)
  {
    if orders == [] then []
    else
      var n := |orders| - 1;
      var earlier := ItemsFor(p, orders[..n], t);
      if TargetOf(p.devices[orders[n].key]) == t then earlier + [Scaled(p, orders[n])] else earlier
  }

  datatype Delivery = Delivery(sent: seq<Order>, fault: Option<Fault>)

  /** A delivery that went on after `sent` had been accepted. */
  function After(sent: seq<Order>, rest: Delivery): Delivery {
    Delivery(sent + rest.sent, rest.fault)
  }

  lemma AfterInTurn(first: seq<Order>, second: seq<Order>, rest: Delivery)
    ensures After(first, After(second, rest)) == After(first + second, rest)
    ensures After([], rest) == rest && After(first, Delivery([], rest.fault)) == Delivery(first, rest.fault)
  {
    assert first + (second + rest.sent) == (first + second) + rest.sent;
    assert [] + rest.sent == rest.sent && first + [] == first;
  }

  function DeliverItems(far: Far, items: seq<Order>): Delivery {
    if items == [] then Delivery([], None)
    else if items[0].key in far.refuses then Delivery([], Some(far.refuses[items[0].key]))
    else After([items[0]], DeliverItems(far, items[1..]))
  }

  function DeliverTarget(p: Plant, far: Far, t: Target, items: seq<Order>): Delivery {
    if t.source !in p.actuating then Delivery([], Some(Configuration))
    else if t in far.unopened then Delivery([], Some(far.unopened[t]))
    else DeliverItems(far, items)
  }

  function DeliverTargets(p: Plant, far: Far, targets: seq<Target>, orders: seq<Order>): Delivery
    requires AllCommandable(p, orders)
  {
    if targets == [] then Delivery([], None)
    else
      var items := ItemsFor(p, orders, targets[0]);
      var here := if items == [] then Delivery([], None) else DeliverTarget(p, far, targets[0], items);
      if here.fault.Some? then here else After(here.sent, DeliverTargets(p, far, targets[1..], orders))
  }

  /** `command_devices` as a function of what it is given: the commands the far end accepted, in
      the order they were sent, and the fault that ended them where there was one. */
  function Command(p: Plant, far: Far, orders: seq<Order>): Delivery {
    if AllCommandableNow(p, orders) then DeliverTargets(p, far, p.targets, orders)
    else Delivery([], Some(Configuration))
  }

  predicate AllCommandableNow(p: Plant, orders: seq<Order>)
    ensures AllCommandableNow(p, orders) <==> AllCommandable(p, orders)
  {
    forall i :: 0 <= i < |orders| ==> Commandable(p, orders[i].key)
  }

  /** The mapping from key to state a sequence of accepted commands leaves. */
  function Commanded(sent: seq<Order>): map<string, State> {
    if sent == [] then map[]
    else Commanded(sent[..|sent| - 1])[sent[|sent| - 1].key := sent[|sent| - 1].state]
  }

  // ---------- the transition log ----------

  /** A device's last move: the state as commanded, when it moved, the declaration it was recorded
      against, and whether a safe state moved it. */
  datatype Entry = Entry(state: State, at: real, identity: Option<DeviceSpec>, forced: bool)

  type Entries = map<string, Entry>

  /** Python's `==` between two states, by which True is 1 and NaN is not itself. */
  predicate SameState(a: State, b: State) {
    match (a, b)
    case (Switch(x), Switch(y)) => x == y
    case (Level(x), Level(y)) => Eq(x, y)
    case (Switch(x), Level(y)) => Eq(Finite(if x then 1.0 else 0.0), y)
    case (Level(x), Switch(y)) => Eq(x, Finite(if y then 1.0 else 0.0))
  }

  function Noted(was: Option<Entry>, state: State, spec: DeviceSpec, now: real, forced: bool): Entry {
    if was.Some? && SameState(was.value.state, state) && was.value.identity == Some(spec) then
      was.value.(forced := was.value.forced && forced)
    else Entry(state, now, Some(spec), forced)
  }

  /** A device commanded again to where it already is keeps its clock, and stays marked as forced only
      while every command that put or kept it there was; one that is commanded elsewhere, or is now
      declared as another device, starts its clock again. */
  lemma OnlyAMoveRestartsTheClock(
    was: Option<Entry>, state: State, spec: DeviceSpec, first: real, forced: bool,
    later: State, other: DeviceSpec, second: real, again: bool)
    ensures var once := Noted(was, state, spec, first, forced);
            var twice := Noted(Some(once), later, other, second, again);
            if SameState(once.state, later) && other == spec
            then twice.at == once.at && twice.state == once.state && (twice.forced <==> once.forced && again)
            else twice == Entry(later, second, Some(other), again)
  {
  }

  function EntryOf(entries: Entries, key: string): Option<Entry> {
    if key in entries then Some(entries[key]) else None
  }

  function Recorded(entries: Entries, p: Plant, commanded: map<string, State>, now: real, forced: bool): Entries
    requires commanded.Keys <= p.devices.Keys
  {
    entries + map k | k in commanded :: Noted(EntryOf(entries, k), commanded[k], p.devices[k], now, forced)
  }

  /** The log with these still to be recorded and the others recorded. */
  ghost predicate RecordedBut(
    todo: set<string>, before: Entries, entries: Entries, p: Plant, commanded: map<string, State>, now: real,
    forced: bool)
    requires commanded.Keys <= p.devices.Keys
  {
    && todo <= commanded.Keys
    && entries.Keys == before.Keys + (commanded.Keys - todo)
    && (forall k :: k in commanded.Keys - todo ==>
          entries[k] == Noted(EntryOf(before, k), commanded[k], p.devices[k], now, forced))
    && (forall k :: k in before && (k !in commanded || k in todo) ==> entries[k] == before[k])
  }

  lemma OneMoreRecorded(
    k: string, todo: set<string>, before: Entries, entries: Entries, p: Plant, commanded: map<string, State>, now: real,
    forced: bool)
    requires commanded.Keys <= p.devices.Keys
    requires k in todo && RecordedBut(todo, before, entries, p, commanded, now, forced)
    ensures EntryOf(entries, k) == EntryOf(before, k)
    ensures var more := entries[k := Noted(EntryOf(entries, k), commanded[k], p.devices[k], now, forced)];
            RecordedBut(todo - {k}, before, more, p, commanded, now, forced)
  {
    assert k in entries <==> k in before;
    var more := entries[k := Noted(EntryOf(entries, k), commanded[k], p.devices[k], now, forced)];
    assert more.Keys == before.Keys + (commanded.Keys - (todo - {k}));
  }

  lemma AllRecorded(
    before: Entries, entries: Entries, p: Plant, commanded: map<string, State>, now: real, forced: bool)
    requires commanded.Keys <= p.devices.Keys && RecordedBut({}, before, entries, p, commanded, now, forced)
    ensures entries == Recorded(before, p, commanded, now, forced)
  {
    var all := Recorded(before, p, commanded, now, forced);
    assert all.Keys == entries.Keys;
    forall k | k in all
      ensures all[k] == entries[k]
    {
      assert k in commanded ==> k in commanded.Keys - {};
    }
  }

  class TransitionLog {
    var entries: Entries

    constructor (entries: Entries)
      ensures this.entries == entries
    {
      this.entries := entries;
    }

    method Record(p: Plant, commanded: map<string, State>, now: real, forced: bool)
      requires commanded.Keys <= p.devices.Keys
      modifies this
      ensures entries == Recorded(old(entries), p, commanded, now, forced)
    {
      var todo := commanded.Keys;
      ghost var before := entries;
      while todo != {}
        invariant RecordedBut(todo, before, entries, p, commanded, now, forced)
        decreases |todo|
      {
        var k :| k in todo;
        OneMoreRecorded(k, todo, before, entries, p, commanded, now, forced);
        RecordOne(k, commanded[k], p.devices[k], now, forced);
        todo := todo - {k};
      }
      AllRecorded(before, entries, p, commanded, now, forced);
    }

    /** Only a device that moved has its clock restarted; one confirmed where it already is loses
        the mark of the safe state that put it there. */
    method RecordOne(key: string, state: State, spec: DeviceSpec, now: real, forced: bool)
      modifies this
      ensures entries == old(entries)[key := Noted(EntryOf(old(entries), key), state, spec, now, forced)]
    {
      if key in entries && SameState(entries[key].state, state) && entries[key].identity == Some(spec) {
        if entries[key].forced && !forced {
          entries := entries[key := entries[key].(forced := false)];
        }
      } else {
        entries := entries[key := Entry(state, now, Some(spec), forced)];
      }
    }
  }

  // ---------- the commander ----------

  lemma {:induction false} CommandedInTurn(first: seq<Order>, then_: seq<Order>)
    ensures Commanded(first + then_) == Commanded(first) + Commanded(then_)
  {
    if then_ == [] {
      assert first + then_ == first;
    } else {
      var n := |then_| - 1;
      CommandedInTurn(first, then_[..n]);
      assert (first + then_)[..|first| + n] == first + then_[..n];
    }
  }

  /** The devices of one target, in turn, until one of them refuses. */
  method CommandItems(far: Far, items: seq<Order>, before: map<string, State>)
    returns (commanded: map<string, State>, ghost sent: seq<Order>, fault: Option<Fault>)
    ensures Delivery(sent, fault) == DeliverItems(far, items)
    ensures commanded == before + Commanded(sent)
  {
    commanded, sent := before, [];
    var j := 0;
    while j < |items|
      invariant 0 <= j <= |items|
      invariant commanded == before + Commanded(sent)
      invariant After(sent, DeliverItems(far, items[j..])) == DeliverItems(far, items)
    {
      var item := items[j];
      assert items[j..][0] == item && items[j..][1..] == items[j + 1..];
      AfterInTurn(sent, [item], DeliverItems(far, items[j + 1..]));
      if item.key in far.refuses {
        return commanded, sent, Some(far.refuses[item.key]);
      }
      commanded := commanded[item.key := item.state];
      assert (sent + [item])[..|sent|] == sent;
      sent := sent + [item];
      j := j + 1;
    }
    assert items[j..] == [];
    fault := None;
  }

  /** One target: refused outright where its source cannot actuate or no handler opens. */
  method CommandTarget(p: Plant, far: Far, t: Target, items: seq<Order>, before: map<string, State>)
    returns (commanded: map<string, State>, ghost sent: seq<Order>, fault: Option<Fault>)
    ensures Delivery(sent, fault) == DeliverTarget(p, far, t, items)
    ensures commanded == before + Commanded(sent)
  {
    if t.source !in p.actuating {
      return before, [], Some(Configuration);
    }
    if t in far.unopened {
      return before, [], Some(far.unopened[t]);
    }
    commanded, sent, fault := CommandItems(far, items, before);
  }

  /** `_command_each`: fills `commanded` in with each device the far end accepted, whether it runs
      to its end or stops at a fault. */
  method CommandEach(p: Plant, far: Far, targets: map<Target, seq<Order>>, ghost orders: seq<Order>)
    returns (commanded: map<string, State>, ghost sent: seq<Order>, fault: Option<Fault>)
    requires AllCommandable(p, orders)
    requires forall t :: t in targets <==> ItemsFor(p, orders, t) != []
    requires forall t :: t in targets ==> targets[t] == ItemsFor(p, orders, t)
    ensures Delivery(sent, fault) == DeliverTargets(p, far, p.targets, orders)
    ensures commanded == Commanded(sent)
  {
    commanded, sent, fault := map[], [], None;
    var i := 0;
    assert p.targets[0..] == p.targets;
    AfterInTurn([], [], DeliverTargets(p, far, p.targets, orders));
    while i < |p.targets|
      invariant 0 <= i <= |p.targets|
      invariant commanded == Commanded(sent) && fault.None?
      invariant After(sent, DeliverTargets(p, far, p.targets[i..], orders)) == DeliverTargets(p, far, p.targets, orders)
    {
      var t := p.targets[i];
      assert p.targets[i..][0] == t && p.targets[i..][1..] == p.targets[i + 1..];
      ghost var rest := DeliverTargets(p, far, p.targets[i + 1..], orders);
      ghost var here := [];
      if t in targets {
        commanded, here, fault := CommandTarget(p, far, t, targets[t], commanded);
        CommandedInTurn(sent, here);
      }
      AfterInTurn(sent, here, if fault.Some? then Delivery([], fault) else rest);
      sent := sent + here;
      if fault.Some? {
        return;
      }
      i := i + 1;
    }
    assert p.targets[i..] == [];
  }

  /** `command_devices`: the log is written once, after the commands, whatever ended them. */
  method CommandDevices(p: Plant, far: Far, orders: seq<Order>, log: TransitionLog, now: real, forced: bool)
    returns (ghost sent: seq<Order>, commanded: map<string, State>, fault: Option<Fault>)
    requires WellFormed(p)
    modifies log
    ensures Delivery(sent, fault) == Command(p, far, orders)
    ensures commanded == Commanded(sent) && commanded.Keys <= p.devices.Keys
    ensures log.entries == Recorded(old(log.entries), p, commanded, now, forced)
  {
    sent, commanded := [], map[];
    var targets: map<Target, seq<Order>> := map[];
    var i := 0;
    while i < |orders|
      invariant 0 <= i <= |orders|
      invariant AllCommandable(p, orders[..i])
      invariant forall t :: t in targets <==> ItemsFor(p, orders[..i], t) != []
      invariant forall t :: t in targets ==> targets[t] == ItemsFor(p, orders[..i], t)
    {
      var o := orders[i];
      if !Commandable(p, o.key) {
        assert o in orders;
        return [], map[], Some(Configuration);
      }
      var t := TargetOf(p.devices[o.key]);
      targets := targets[t := (if t in targets then targets[t] else []) + [Scaled(p, o)]];
      assert orders[..i + 1][..i] == orders[..i];
      i := i + 1;
    }
    assert orders[..i] == orders;
    commanded, sent, fault := CommandEach(p, far, targets, orders);
    SentIsDeclared(p, far, p.targets, orders);
    CommandedKeys(sent);
    if commanded != map[] {
      log.Record(p, commanded, now, forced);
    }
  }

  // ---------- the log tells the truth ----------

  lemma {:induction false} CommandedKeys(sent: seq<Order>)
    ensures forall k :: k in Commanded(sent) <==> exists o :: o in sent && o.key == k
  {
    if sent != [] {
      var n := |sent| - 1;
      CommandedKeys(sent[..n]);
      assert sent == sent[..n] + [sent[n]];
    }
  }

  lemma {:induction false} ItemsAreDeclared(p: Plant, orders: seq<Order>, t: Target)
    requires AllCommandable(p, orders)
    ensures forall o :: o in ItemsFor(p, orders, t) ==> o.key in p.devices
  {
    if orders != [] {
      ItemsAreDeclared(p, orders[..|orders| - 1], t);
    }
  }

  lemma {:induction false} DeliverItemsIsAPrefix(far: Far, items: seq<Order>)
    ensures var d := DeliverItems(far, items);
            && d.sent <= items && (d.fault.None? ==> d.sent == items)
            && (forall o :: o in d.sent ==> o.key !in far.refuses)
            && (d.fault.Some? ==> |d.sent| < |items| && items[|d.sent|].key in far.refuses)
  {
    if items != [] {
      DeliverItemsIsAPrefix(far, items[1..]);
    }
  }

  /** Every scaled order, target by target: what is sent where nothing goes wrong. */
  function Schedule(p: Plant, targets: seq<Target>, orders: seq<Order>): seq<Order>
    requires AllCommandable(p, orders)
  {
    if targets == [] then [] else ItemsFor(p, orders, targets[0]) + Schedule(p, targets[1..], orders)
  }

  lemma {:induction false} DeliveryFollowsTheSchedule(p: Plant, far: Far, targets: seq<Target>, orders: seq<Order>)
    requires AllCommandable(p, orders)
    ensures var d := DeliverTargets(p, far, targets, orders);
            d.sent <= Schedule(p, targets, orders) && (d.fault.None? ==> d.sent == Schedule(p, targets, orders))
  {
    if targets != [] {
      DeliveryFollowsTheSchedule(p, far, targets[1..], orders);
      DeliverItemsIsAPrefix(far, ItemsFor(p, orders, targets[0]));
    }
  }

  lemma {:induction false} SentIsDeclared(p: Plant, far: Far, targets: seq<Target>, orders: seq<Order>)
    requires AllCommandable(p, orders)
    ensures forall o :: o in DeliverTargets(p, far, targets, orders).sent ==> o.key in p.devices
  {
    if targets != [] {
      SentIsDeclared(p, far, targets[1..], orders);
      ItemsAreDeclared(p, orders, targets[0]);
      DeliverItemsIsAPrefix(far, ItemsFor(p, orders, targets[0]));
    }
  }

  /** The scaled orders whose target is one of `targets`. */
  function ScaledFor(p: Plant, orders: seq<Order>, targets: seq<Target>): multiset<Order>
    requires AllCommandable(p, orders)
  {
    if orders == [] then multiset{}
    else
      var n := |orders| - 1;
      ScaledFor(p, orders[..n], targets)
      + (if TargetOf(p.devices[orders[n].key]) in targets then multiset{Scaled(p, orders[n])} else multiset{})
  }

  lemma {:induction false} OneMoreTarget(p: Plant, orders: seq<Order>, targets: seq<Target>)
    requires AllCommandable(p, orders) && targets != [] && Distinct(targets)
    ensures ScaledFor(p, orders, targets)
         == multiset(ItemsFor(p, orders, targets[0])) + ScaledFor(p, orders, targets[1..])
  {
    if orders != [] {
      var n := |orders| - 1;
      OneMoreTarget(p, orders[..n], targets);
      var t := TargetOf(p.devices[orders[n].key]);
      assert t in targets <==> t == targets[0] || t in targets[1..];
      assert t == targets[0] ==> t !in targets[1..];
    }
  }

  lemma {:induction false} ScheduleCoversItsTargets(p: Plant, targets: seq<Target>, orders: seq<Order>)
    requires AllCommandable(p, orders) && Distinct(targets)
    ensures multiset(Schedule(p, targets, orders)) == ScaledFor(p, orders, targets)
  {
    if targets == [] {
      NoTargets(p, orders);
    } else {
      ScheduleCoversItsTargets(p, targets[1..], orders);
      OneMoreTarget(p, orders, targets);
    }
  }

  lemma {:induction false} NoTargets(p: Plant, orders: seq<Order>)
    requires AllCommandable(p, orders)
    ensures ScaledFor(p, orders, []) == multiset{}
  {
    if orders != [] {
      NoTargets(p, orders[..|orders| - 1]);
    }
  }

  function ScaleAll(p: Plant, orders: seq<Order>): seq<Order>
    requires AllCommandable(p, orders)
  {
    if orders == [] then []
    else ScaleAll(p, orders[..|orders| - 1]) + [Scaled(p, orders[|orders| - 1])]
  }

  lemma {:induction false} EveryOrderHasATarget(p: Plant, orders: seq<Order>)
    requires AllCommandable(p, orders) && WellFormed(p)
    ensures ScaledFor(p, orders, p.targets) == multiset(ScaleAll(p, orders))
  {
    if orders != [] {
      EveryOrderHasATarget(p, orders[..|orders| - 1]);
    }
  }

  /** Without a fault what is sent is everything, and with one it is part of it. */
  lemma SentIsPartOfTheWhole(p: Plant, far: Far, orders: seq<Order>)
    requires WellFormed(p) && AllCommandable(p, orders)
    ensures var d := DeliverTargets(p, far, p.targets, orders);
            && multiset(d.sent) <= multiset(ScaleAll(p, orders))
            && (d.fault.None? ==> multiset(d.sent) == multiset(ScaleAll(p, orders)))
  {
    var d := DeliverTargets(p, far, p.targets, orders);
    DeliveryFollowsTheSchedule(p, far, p.targets, orders);
    ScheduleCoversItsTargets(p, p.targets, orders);
    EveryOrderHasATarget(p, orders);
    APrefixIsPart(d.sent, Schedule(p, p.targets, orders));
  }

  lemma APrefixIsPart(part: seq<Order>, whole: seq<Order>)
    requires part <= whole
    ensures multiset(part) <= multiset(whole)
  {
    assert whole == part + whole[|part|..];
  }

  /** There is nothing at the far end to command: no such device is declared, or its declaration lacks its
      source or its name there. */
  predicate NamesNoDevice(p: Plant, key: string) {
    key !in p.devices || p.devices[key].source == "" || p.devices[key].device == ""
  }

  /** What is reported as accepted is part of what was asked for, each value brought within its
      scale and none twice; on a normal return it is all of it, each order exactly once. An order
      for a device that is not declared, or not fully, stops everything before any device has moved. */
  lemma AcceptedIsWhatWasAsked(p: Plant, far: Far, orders: seq<Order>)
    requires WellFormed(p)
    ensures var d := Command(p, far, orders);
            && (AllCommandable(p, orders) <==> forall i :: 0 <= i < |orders| ==> !NamesNoDevice(p, orders[i].key))
            && (!AllCommandable(p, orders) ==> d == Delivery([], Some(Configuration)))
            && (AllCommandable(p, orders) ==> multiset(d.sent) <= multiset(ScaleAll(p, orders)))
            && (d.fault.None? ==> AllCommandable(p, orders) && multiset(d.sent) == multiset(ScaleAll(p, orders)))
            && (forall o :: o in d.sent ==> o.key !in far.refuses)
  {
    if AllCommandable(p, orders) {
      SentIsPartOfTheWhole(p, far, orders);
      NothingRefusedIsSent(p, far, p.targets, orders);
    }
  }

  lemma {:induction false} NothingRefusedIsSent(p: Plant, far: Far, targets: seq<Target>, orders: seq<Order>)
    requires AllCommandable(p, orders)
    ensures forall o :: o in DeliverTargets(p, far, targets, orders).sent ==> o.key !in far.refuses
  {
    if targets != [] {
      NothingRefusedIsSent(p, far, targets[1..], orders);
      DeliverItemsIsAPrefix(far, ItemsFor(p, orders, targets[0]));
    }
  }

  /** A parameter is a percentage by its name, and only so: a percentage is brought to the nearer end of 0
      to 100 where it is outside, and anything else is left as it was asked for. */
  lemma APercentageIsAName(stem: string, parameter: Option<string>, asked: real, state: State)
    ensures WithinScale(Some(stem + "_pct"), Level(Finite(asked)))
         == Level(Finite(if asked < 0.0 then 0.0 else if asked > 100.0 then 100.0 else asked))
    ensures (forall s :: parameter != Some(s + "_pct")) ==> WithinScale(parameter, state) == state
    ensures state.Switch? ==> WithinScale(parameter, state) == state
  {
    assert (stem + "_pct")[|stem|..] == "_pct";
    if parameter.Some? && EndsWith(parameter.value, "_pct") {
      var p := parameter.value;
      assert p == p[..|p| - 4] + "_pct";
    }
  }

  /** A percentage that is commanded is a number from 0 to 100, whatever was asked for. */
  lemma WithinScaleIsWithinScale(parameter: Option<string>, v: Num)
    requires StaticFullScale(parameter).Some?
    ensures var s := WithinScale(parameter, Level(v));
            && s.Level? && s.v.Finite? && 0.0 <= s.v.r <= 100.0
            && (v.Finite? && 0.0 <= v.r <= 100.0 ==> s.v == v)
  {
  }
}
