/** Whether a control acts this cycle, and what its devices do when it stops
    (toinflux/gating.py). */
module Gating {
  import opened Numbers

  // ---------- states and commands ----------

  /** A safe or end state as a document may hold it: one of the names, a value, or text that is
      none of the names. */
  datatype SafeState = Unenergised | Energised | LeaveUnchanged | Value(v: Num) | Unknown(text: string)

  datatype State = Switch(on: bool) | Level(v: Num)

  /** A `devices` entry. An empty source or device name is one that is missing. */
  datatype DeviceSpec = DeviceSpec(source: string, instance: Option<string>, device: string, parameter: Option<string>)

  /** One entry of a mapping from device to state, in the mapping's order. */
  datatype Order = Order(key: string, state: State)

  /** The commands to give, or nothing at all to touch, or ConfigError. */
  datatype Commands = Give(orders: seq<Order>) | TouchNothing | Unusable

  predicate EndsWith(text: string, suffix: string) {
    |suffix| <= |text| && text[|text| - |suffix|..] == suffix
  }

  function StaticFullScale(parameter: Option<string>): Option<real> {
    if parameter.Some? && EndsWith(parameter.value, "_pct") then Some(100.0) else None
  }

  /** What one device is told for a state, or None where the state means nothing for it. */
  function Intended(state: SafeState, spec: DeviceSpec): Option<State> {
    match state
    case Unenergised => Some(if spec.parameter.Some? then Level(Finite(0.0)) else Switch(false))
    case Energised =>
      if spec.parameter.None? then Some(Switch(true))
      else if StaticFullScale(spec.parameter).Some? then Some(Level(Finite(StaticFullScale(spec.parameter).value)))
      else None
    case Value(v) =>
      if !v.Finite? || v.r < 0.0 then None
      else Some(if spec.parameter.Some? then Level(v) else Switch(v.r > 0.0))
    case _ => None
  }

  /** Whether the state is one `commands_for` knows, before any device is looked at. */
  predicate Recognised(state: SafeState) {
    match state
    case Value(v) => v.Finite? && v.r >= 0.0
    case Unknown(_) => false
    case _ => true
  }

  ghost predicate Declared(keys: seq<string>, devices: map<string, DeviceSpec>) {
    forall k :: k in keys ==> k in devices
  }

  function OrdersFor(state: SafeState, keys: seq<string>, devices: map<string, DeviceSpec>): Commands
    requires Declared(keys, devices)
  {
    if keys == [] then Give([])
    else
      var head, rest := Intended(state, devices[keys[0]]), OrdersFor(state, keys[1..], devices);
      if head.None? || !rest.Give? then Unusable else Give([Order(keys[0], head.value)] + rest.orders)
  }

  /** `commands_for`: every device named, in the order of the devices section. */
  function CommandsFor(state: SafeState, keys: seq<string>, devices: map<string, DeviceSpec>): Commands
    requires Declared(keys, devices)
  {
    if state == LeaveUnchanged then TouchNothing
    else if !Recognised(state) then Unusable
    else OrdersFor(state, keys, devices)
  }

  /** The commands name every device, once each and in order, with what the state means for it;
      and there are none exactly where some device cannot be put into that state. */
  lemma {:induction false} OrdersNameEveryDevice(state: SafeState, keys: seq<string>, devices: map<string, DeviceSpec>)
    requires Declared(keys, devices)
    ensures var c := OrdersFor(state, keys, devices);
            && (c.Give? <==> forall i :: 0 <= i < |keys| ==> Intended(state, devices[keys[i]]).Some?)
            && (c.Give? ==>
                  && |c.orders| == |keys|
                  && forall i :: 0 <= i < |keys| ==>
                       c.orders[i].key == keys[i] && Intended(state, devices[keys[i]]) == Some(c.orders[i].state))
            && !c.TouchNothing?
  {
    if keys != [] {
      OrdersNameEveryDevice(state, keys[1..], devices);
      var rest := OrdersFor(state, keys[1..], devices);
      assert forall i :: 0 < i < |keys| ==> keys[i] == keys[1..][i - 1];
      if forall i :: 0 <= i < |keys| ==> Intended(state, devices[keys[i]]).Some? {
        assert forall i :: 0 <= i < |keys[1..]| ==> keys[1..][i] == keys[i + 1];
        assert rest.Give?;
        assert Intended(state, devices[keys[0]]).Some?;
      }
    }
  }

  /** A device whose full scale is not known, so that it cannot simply be told to be on. */
  ghost predicate Unscaled(spec: DeviceSpec) {
    spec.parameter.Some? && forall stem :: spec.parameter.value != stem + "_pct"
  }

  lemma FullScaleIsAName(parameter: Option<string>)
    ensures StaticFullScale(parameter).Some? <==> exists stem :: parameter == Some(stem + "_pct")
    ensures StaticFullScale(parameter).Some? ==> StaticFullScale(parameter).value == 100.0
  {
    if parameter.Some? && EndsWith(parameter.value, "_pct") {
      assert parameter.value == parameter.value[..|parameter.value| - 4] + "_pct";
    }
    if stem :| parameter == Some(stem + "_pct") {
      assert (stem + "_pct")[|stem|..] == "_pct";
    }
  }

  /** Which states can be commanded: a text that is none of the names cannot, nor a number that is not
      finite or is negative, nor energised where some device's full scale is not known; leave_unchanged
      asks for nothing; and every other gives each device its command. */
  lemma WhatCanBeCommanded(state: SafeState, keys: seq<string>, devices: map<string, DeviceSpec>)
    requires Declared(keys, devices)
    ensures var c := CommandsFor(state, keys, devices);
            && (c.TouchNothing? <==> state == LeaveUnchanged)
            && (c.Unusable? <==>
                  || state.Unknown?
                  || (state.Value? && !(state.v.Finite? && state.v.r >= 0.0))
                  || (state.Energised? && exists i :: 0 <= i < |keys| && Unscaled(devices[keys[i]])))
  {
    OrdersNameEveryDevice(state, keys, devices);
    forall i | 0 <= i < |keys|
      ensures state.Energised? ==> (Intended(state, devices[keys[i]]).None? <==> Unscaled(devices[keys[i]]))
    {
      FullScaleIsAName(devices[keys[i]].parameter);
    }
  }

  /** The names agree with the numbers they stand for: unenergised is zero for every device, and
      energised is a device's full scale where that is known, or simply on for a switch. A number reaches
      a driven device as itself, and turns a switch on exactly where it is more than zero. */
  lemma NamesAgreeWithNumbers(spec: DeviceSpec, r: real)
    requires r >= 0.0
    ensures Intended(Unenergised, spec) == Intended(Value(Finite(0.0)), spec)
    ensures spec.parameter.None? && r > 0.0 ==>
              && Intended(Energised, spec) == Intended(Value(Finite(r)), spec)
              && Intended(Energised, spec) != Intended(Unenergised, spec)
    ensures spec.parameter.Some? ==>
              Intended(Energised, spec) == (if StaticFullScale(spec.parameter).Some?
                                            then Intended(Value(Finite(StaticFullScale(spec.parameter).value)), spec)
                                            else None)
    ensures Intended(Value(Finite(r)), spec)
         == Some(if spec.parameter.Some? then Level(Finite(r)) else Switch(r > 0.0))
  {
  }

  // ---------- the gate ----------

  datatype Edge = NoEdge | Opened | Closed

  /** `apply` is what a closing edge asks to be applied; the reason text is not kept. */
  datatype Decision = Decision(actuating: bool, edge: Edge, apply: Option<SafeState>)

  /** The truth of a Python value: a name is never empty, so only the number zero is false. */
  predicate Truthy(state: SafeState) {
    match state
    case Value(v) => v != Finite(0.0)
    case Unknown(text) => text != ""
    case _ => true
  }

  /** `_holds`: a boolean, or a finite number read as one; anything else is a cycle that failed. */
  function Holds(o: RuleOutcome): Option<bool> {
    match o
    case GivesBool(b) => Some(b)
    case Gives(Finite(r)) => Some(r != 0.0)
    case _ => None
  }

  /** `decide` once the three conditions have been assessed: the gate's memory afterwards and the
      answer. A closing edge is not consumed. */
  function Decide(was: Option<bool>, acting: bool, closingState: SafeState): (Option<bool>, Decision) {
    if was.None? || was.value == acting then (Some(acting), Decision(acting, NoEdge, None))
    else if acting then (Some(true), Decision(true, Opened, None))
    else (was, Decision(false, Closed, Some(closingState)))
  }

  class Gate {
    const closingState: SafeState
    var acting: Option<bool>

    constructor (closingState: SafeState)
      ensures this.closingState == closingState && acting == None
    {
      this.closingState := closingState;
      acting := None;
    }

    method DecideFor(assessed: bool) returns (d: Decision)
      modifies this
      ensures (acting, d) == Decide(old(acting), assessed, closingState)
    {
      if acting.None? || acting.value == assessed {
        acting := Some(assessed);
        return Decision(assessed, NoEdge, None);
      }
      if assessed {
        acting := Some(true);
        return Decision(true, Opened, None);
      }
      d := Decision(false, Closed, Some(closingState));
    }

    method EdgeApplied()
      modifies this
      ensures acting == Some(false)
    {
      acting := Some(false);
    }
  }

  /** A failed gate is never an open one: NaN, an infinity or a rule that raises does not hold and
      does not fail to hold. */
  lemma AnUnanswerableGateIsNotOpen(o: RuleOutcome)
    ensures Holds(o).None? <==> o.Raises? || (o.Gives? && !o.value.Finite?)
    ensures Holds(o) == Some(true) <==> o == GivesBool(true) || (o.Gives? && o.value.Finite? && o.value.r != 0.0)
  {
    if o.Gives? && o.value.Finite? {
      assert o == Gives(Finite(o.value.r));
    }
  }
}
