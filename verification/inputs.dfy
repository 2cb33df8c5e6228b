/** Reading one control input: the stored point while it is fresh enough, and otherwise one live
    fetch at a time, shared between every control that reads the source
    (toinflux/inputs.py; gather in toinflux/control_process.py). */
module Inputs {
  import opened Numbers
  import opened FetchLocks
  import opened ControlProcesses

  // ---------- how old a point is ----------

  const FUTURE_TOLERANCE_SECONDS := 60.0

  /** `_usable_age`: None for a point whose timestamp cannot be believed. */
  function UsableAge(stamp: Num, moment: real): (age: Option<real>)
    ensures age.Some? <==> stamp.Finite? && stamp.r <= moment + FUTURE_TOLERANCE_SECONDS
    ensures age.Some? ==> age.value == if stamp.r <= moment then moment - stamp.r else 0.0
  {
    var age := Sub(Finite(moment), stamp);
    if !stamp.Finite? || !age.Finite? then None
    else if Lt(age, Finite(-FUTURE_TOLERANCE_SECONDS)) then None
    else Some(PyMax(age, Finite(0.0)).r)
  }

  /** A stored row: the newest point of a series, where there is one. */
  datatype Row = NoRow | Row(stamp: Num, value: Num)

  datatype Dated = Dated(value: Num, stamp: Num, age: real, live: bool)

  function HandlerReading(row: Row, moment: real): Option<Dated> {
    if row.NoRow? then None
    else
      var age := UsableAge(row.stamp, moment);
      if age.None? then None else Some(Dated(row.value, row.stamp, age.value, false))
  }

  /** Fresh enough that no fetch is made. */
  predicate Fresh(d: Option<Dated>, trigger: real) {
    d.Some? && d.value.age <= trigger
  }

  // ---------- one read ----------

  /** What `get_data` comes to, and the clock once it is back. `own` is a timestamp the handler set
      itself. */
  datatype Fetch =
    | Unreachable
    | Misconfigured
    | Returned(moment: real, own: Option<Num>, fields: map<string, Num>)

  /** What one input declares and its source allows. `live` is MCP_LIVE_STATE. */
  datatype Ask = Ask(field: string, maxAge: Setting, minimum: Setting, budget: Setting, live: bool)

  /** What one read meets: the stored row at either look, the clock at each, how the wait for the
      lock ended, and what the device answered. */
  datatype Meets = Meets(first: Row, at: real, wait: Wait, second: Row, later: real, fetch: Fetch)

  /** SourceConnectionError and ConfigError. */
  datatype ReadResult = Got(dated: Dated) | NothingToRead | CannotRead

  /** `max(max_age, minimum)`, where both durations are usable. */
  function Trigger(ask: Ask): Option<real> {
    if AsSeconds(ask.maxAge).None? || AsSeconds(ask.minimum).None? then None
    else Some(PyMax(Finite(AsSeconds(ask.maxAge).value), Finite(AsSeconds(ask.minimum).value)).r)
  }

  /** What a read that could not go live comes to: what the first look found, however old. */
  function Fallback(m: Meets): ReadResult {
    var stored := HandlerReading(m.first, m.at);
    if stored.Some? then Got(stored.value) else NothingToRead
  }

  // ---------- what one read must come to ----------

  /** A duration that is a number, finite and not negative. */
  predicate Duration(s: Setting) {
    s.Number? && s.n.Finite? && s.n.r >= 0.0
  }

  /** There is a row, dated no more than a minute ahead. */
  predicate Datable(row: Row, moment: real) {
    row.Row? && row.stamp.Finite? && row.stamp.r <= moment + 60.0
  }

  function AgeOf(row: Row, moment: real): real
    requires Datable(row, moment)
  {
    if row.stamp.r <= moment then moment - row.stamp.r else 0.0
  }

  /** Nothing that can be dated, or something older than both the input's own limit and the source's
      minimum interval. */
  predicate TooOld(row: Row, moment: real, ask: Ask)
    requires Duration(ask.maxAge) && Duration(ask.minimum)
  {
    Datable(row, moment) ==> AgeOf(row, moment) > ask.maxAge.n.r && AgeOf(row, moment) > ask.minimum.n.r
  }

  /** What a stored row comes to, where it is what there is. */
  function Stored(row: Row, moment: real): ReadResult {
    if Datable(row, moment) then Got(Dated(row.value, row.stamp, AgeOf(row, moment), false)) else NothingToRead
  }

  /** The time a fetch is written back with: the handler's own, or Python's `int` of the moment it came
      back at. */
  function Stamp(f: Fetch): Num
    requires f.Returned?
  {
    if f.own.Some? then f.own.value else Finite(f.moment.Floor as real)
  }

  /** What a fetch comes to, with this to fall back to. */
  function Fetched(ask: Ask, f: Fetch, fallback: ReadResult): ReadResult {
    match f
    case Misconfigured => CannotRead
    case Unreachable => fallback
    case Returned(moment, _, fields) =>
      var row := Row(Stamp(f), if ask.field in fields then fields[ask.field] else NaN);
      if Datable(row, moment) && ask.field in fields
      then Got(Dated(row.value, row.stamp, AgeOf(row, moment), true)) else fallback
  }

  /** What a read comes to, whatever it meets. */
  function WhatIsRead(ask: Ask, m: Meets): ReadResult {
    if !(Duration(ask.maxAge) && Duration(ask.minimum)) then CannotRead
    else if !TooOld(m.first, m.at, ask) || !ask.live then Stored(m.first, m.at)
    else if !Duration(ask.budget) || m.wait.CannotLock? then CannotRead
    else if m.wait.GaveUp? then Stored(m.first, m.at)
    else if !TooOld(m.second, m.later, ask) then Stored(m.second, m.later)
    else Fetched(ask, m.fetch, Stored(m.first, m.at))
  }

  /** `read_input` and `_live_reading`. `fetched` says whether the device was asked, and `wrote` is
      the timestamp everything it returned was handed to the writer with. The device is asked exactly
      where the durations can be used, the source is live, the lock was taken, and at each look nothing
      could be dated or what could was older than both max_age and the minimum interval. */
  method ReadInput(ask: Ask, m: Meets) returns (r: ReadResult, fetched: bool, wrote: Option<Num>)
    ensures fetched <==>
              && Duration(ask.maxAge) && Duration(ask.minimum) && Duration(ask.budget) && ask.live && m.wait.Held?
              && TooOld(m.first, m.at, ask) && TooOld(m.second, m.later, ask)
    ensures wrote == if fetched && m.fetch.Returned? && Datable(Row(Stamp(m.fetch), NaN), m.fetch.moment)
                     then Some(Stamp(m.fetch)) else None
    ensures r == WhatIsRead(ask, m)
  {
    fetched, wrote := false, None;
    var trigger := Trigger(ask);
    if trigger.None? {
      return CannotRead, fetched, wrote;
    }
    var stored := HandlerReading(m.first, m.at);
    var fallback := Fallback(m);
    if Fresh(stored, trigger.value) || !ask.live {
      return fallback, fetched, wrote;
    }
    if AsSeconds(ask.budget).None? || m.wait.CannotLock? {
      return CannotRead, fetched, wrote;
    }
    if m.wait.GaveUp? {
      return fallback, fetched, wrote;
    }
    var again := HandlerReading(m.second, m.later);
    if Fresh(again, trigger.value) {
      return Got(again.value), fetched, wrote;
    }
    fetched := true;
    match m.fetch {
      case Unreachable => r := fallback;
      case Misconfigured => r := CannotRead;
      case Returned(moment, own, fields) =>
        var stamp := if own.Some? then own.value else Finite(moment.Floor as real);
        var age := UsableAge(stamp, moment);
        if age.None? {
          return fallback, fetched, wrote;
        }
        wrote := Some(stamp);
        r := if ask.field in fields then Got(Dated(fields[ask.field], stamp, age.value, true)) else fallback;
    }
  }

  // ---------- gathering every input ----------

  /** One declared input and what reading it this cycle comes to. */
  datatype Input = Input(name: string, ask: Ask, meets: Meets)

  /** What a control may act on: a finite value no older than the input allows. */
  predicate ActedOn(ask: Ask, d: Dated) {
    d.value.Finite? && AsSeconds(ask.maxAge).Some? && 0.0 <= d.age <= AsSeconds(ask.maxAge).value
  }

  /** One of the first n inputs has this name. */
  ghost predicate Declares(inputs: seq<Input>, n: nat, name: string)
    requires n <= |inputs|
  {
    exists j :: 0 <= j < n && inputs[j].name == name
  }

  ghost predicate LastOfItsName(inputs: seq<Input>, n: nat, j: nat)
    requires j < n <= |inputs|
  {
    forall k :: j < k < n ==> inputs[k].name != inputs[j].name
  }

  /** The parameters and the first n inputs are what is bound, and a parameter no input has the name of is
      bound to itself. */
  ghost predicate NamesBound(parameters: Bindings, inputs: seq<Input>, n: nat, bindings: Bindings)
    requires n <= |inputs|
  {
    && (forall name :: name in bindings <==> name in parameters || Declares(inputs, n, name))
    && (forall name :: name in parameters && !Declares(inputs, n, name) ==> bindings[name] == parameters[name])
  }

  /** Each name is bound to what was used of the last input that has it. */
  ghost predicate ValuesBound(inputs: seq<Input>, used: seq<Dated>, n: nat, bindings: Bindings)
    requires n <= |inputs| && n <= |used|
  {
    forall j :: 0 <= j < n && LastOfItsName(inputs, n, j) ==>
      inputs[j].name in bindings && bindings[inputs[j].name] == used[j].value
  }

  lemma OneMoreName(inputs: seq<Input>, n: nat, name: string)
    requires n < |inputs|
    ensures Declares(inputs, n + 1, name) <==> Declares(inputs, n, name) || name == inputs[n].name
  {
  }

  lemma OneMoreBinding(
    parameters: Bindings, inputs: seq<Input>, used: seq<Dated>, n: nat, bindings: Bindings, d: Dated)
    requires n < |inputs| && |used| == n
    requires NamesBound(parameters, inputs, n, bindings) && ValuesBound(inputs, used, n, bindings)
    ensures NamesBound(parameters, inputs, n + 1, bindings[inputs[n].name := d.value])
    ensures ValuesBound(inputs, used + [d], n + 1, bindings[inputs[n].name := d.value])
  {
    var after := bindings[inputs[n].name := d.value];
    forall name
      ensures name in after <==> name in parameters || Declares(inputs, n + 1, name)
      ensures name in parameters && !Declares(inputs, n + 1, name) ==> after[name] == parameters[name]
    {
      OneMoreName(inputs, n, name);
    }
    forall j | 0 <= j < n + 1 && LastOfItsName(inputs, n + 1, j)
      ensures inputs[j].name in after && after[inputs[j].name] == (used + [d])[j].value
    {
      if j < n {
        assert LastOfItsName(inputs, n, j) && inputs[n].name != inputs[j].name;
      }
    }
  }

  /** This input was read, and what was read of it may be acted on. */
  predicate Used(input: Input, d: Dated) {
    WhatIsRead(input.ask, input.meets) == Got(d) && ActedOn(input.ask, d)
  }

  /** The first of the inputs were used, one after the other. */
  ghost predicate AllUsed(inputs: seq<Input>, used: seq<Dated>) {
    |used| <= |inputs| && forall i :: 0 <= i < |used| ==> Used(inputs[i], used[i])
  }

  lemma OneMoreUsed(inputs: seq<Input>, used: seq<Dated>, d: Dated)
    requires AllUsed(inputs, used) && |used| < |inputs| && Used(inputs[|used|], d)
    ensures AllUsed(inputs, used + [d])
  {
    var more := used + [d];
    forall i | 0 <= i < |more|
      ensures Used(inputs[i], more[i])
    {
      if i < |used| {
        assert Used(inputs[i], used[i]);
      }
    }
  }

  lemma ReadWithinADuration(input: Input, d: Dated)
    requires WhatIsRead(input.ask, input.meets) == Got(d)
    ensures Duration(input.ask.maxAge)
    ensures d.value.Finite? && d.age <= input.ask.maxAge.n.r ==> Used(input, d)
    ensures !(d.value.Finite? && d.age <= input.ask.maxAge.n.r) ==> !ActedOn(input.ask, d)
  {
  }

  lemma EndsAt(input: Input, read: ReadResult)
    requires read == WhatIsRead(input.ask, input.meets) && !(read.Got? && ActedOn(input.ask, read.dated))
    ensures forall d :: !Used(input, d)
  {
  }

  /** `gather`: parameters first, then every input in turn. Either every input was read and acted on, or
      the cycle or the process ends at the first that was not: the process where it cannot be read at all,
      and the cycle where there is nothing to read, or what there is is too old or not a number. */
  method Gather(parameters: Bindings, inputs: seq<Input>) returns (r: Reading, ghost used: seq<Dated>)
    ensures r.Read? <==> |used| == |inputs|
    ensures AllUsed(inputs, used)
    ensures !r.Read? ==> |used| < |inputs| && forall d :: !Used(inputs[|used|], d)
    ensures r.ReadStops? <==> |used| < |inputs| && WhatIsRead(inputs[|used|].ask, inputs[|used|].meets).CannotRead?
    ensures r.Read? ==> NamesBound(parameters, inputs, |inputs|, r.bindings)
    ensures r.Read? ==> ValuesBound(inputs, used, |inputs|, r.bindings)
  {
    var bindings := parameters;
    used := [];
    var i := 0;
    while i < |inputs|
      invariant 0 <= i <= |inputs| && |used| == i && AllUsed(inputs, used)
      invariant NamesBound(parameters, inputs, i, bindings) && ValuesBound(inputs, used, i, bindings)
    {
      var reading, _, _ := ReadInput(inputs[i].ask, inputs[i].meets);
      match reading {
        case NothingToRead =>
          EndsAt(inputs[i], reading);
          return ReadFails, used;
        case CannotRead =>
          EndsAt(inputs[i], reading);
          return ReadStops, used;
        case Got(d) =>
          ReadWithinADuration(inputs[i], d);
          var limit := AsSeconds(inputs[i].ask.maxAge);
          if d.age > limit.value || !d.value.Finite? {
            EndsAt(inputs[i], reading);
            return ReadFails, used;
          }
          OneMoreUsed(inputs, used, d);
          OneMoreBinding(parameters, inputs, used, i, bindings, d);
          bindings := bindings[inputs[i].name := d.value];
          used := used + [d];
      }
      i := i + 1;
    }
    r := Read(bindings);
  }

  /** Why an age is refused before it is compared: a point that cannot be dated passes every upper
      bound, so it would be acted on for ever. */
  lemma AnUndatedPointPassesEveryBound(moment: real, limit: real)
    ensures !Lt(Finite(limit), Sub(Finite(moment), NaN))
    ensures limit >= 0.0 ==> forall stamp :: stamp > moment ==> !Lt(Finite(limit), Sub(Finite(moment), Finite(stamp)))
    ensures UsableAge(NaN, moment).None? && UsableAge(PosInf, moment).None? && UsableAge(NegInf, moment).None?
  {
  }
}
