/** What is accepted of a control's commands, and what the log keeps of it, in terms of the orders
    themselves: which come in which turn, and where they stop (command_devices and _command_each in
    toinflux/control_process.py; TransitionLog.record in toinflux/transitions.py). */
module Deliveries {
  import opened Numbers
  import opened Gating
  import opened Commanding

  // ---------- exactly what was accepted before a fault ----------

  /** What ends the commands at this order, if anything does: its source cannot switch a device, its
      target cannot be opened, or the device itself refuses. */
  function FaultOf(p: Plant, far: Far, o: Order): Option<Fault>
    requires o.key in p.devices
  {
    var t := TargetOf(p.devices[o.key]);
    if t.source !in p.actuating then Some(Configuration)
    else if t in far.unopened then Some(far.unopened[t])
    else if o.key in far.refuses then Some(far.refuses[o.key])
    else None
  }

  /** Of these orders, one after the other, exactly those before the first that fails are sent, and the
      fault is that one's. */
  ghost predicate StopsAtTheFirst(p: Plant, far: Far, whole: seq<Order>, d: Delivery) {
    && (forall a :: 0 <= a < |whole| ==> whole[a].key in p.devices)
    && |d.sent| <= |whole| && d.sent == whole[..|d.sent|]
    && (forall a :: 0 <= a < |d.sent| ==> FaultOf(p, far, whole[a]).None?)
    && (d.fault.None? ==> |d.sent| == |whole|)
    && (d.fault.Some? ==> |d.sent| < |whole| && FaultOf(p, far, whole[|d.sent|]) == d.fault)
  }

  ghost predicate AllFor(p: Plant, t: Target, items: seq<Order>) {
    forall a :: 0 <= a < |items| ==> items[a].key in p.devices && TargetOf(p.devices[items[a].key]) == t
  }

  lemma {:induction false} ItemsAreForTheirTarget(p: Plant, orders: seq<Order>, t: Target)
    requires AllCommandable(p, orders)
    ensures AllFor(p, t, ItemsFor(p, orders, t))
  {
    if orders != [] {
      ItemsAreForTheirTarget(p, orders[..|orders| - 1], t);
    }
  }

  lemma ATargetStopsAtTheFirst(p: Plant, far: Far, t: Target, items: seq<Order>)
    requires items != [] && AllFor(p, t, items)
    ensures StopsAtTheFirst(p, far, items, DeliverTarget(p, far, t, items))
  {
    var d := DeliverTarget(p, far, t, items);
    if t.source !in p.actuating || t in far.unopened {
      assert FaultOf(p, far, items[0]) == d.fault;
    } else {
      ItemsStopAtTheFirst(p, far, t, items);
    }
  }

  lemma {:induction false} ItemsStopAtTheFirst(p: Plant, far: Far, t: Target, items: seq<Order>)
    requires AllFor(p, t, items) && t.source in p.actuating && t !in far.unopened
    ensures StopsAtTheFirst(p, far, items, DeliverItems(far, items))
  {
    if items != [] {
      var rest := DeliverItems(far, items[1..]);
      assert forall a :: 0 <= a < |items| - 1 ==> items[1..][a] == items[a + 1];
      ItemsStopAtTheFirst(p, far, t, items[1..]);
      if items[0].key !in far.refuses {
        OneAcceptedFirst(p, far, items, rest);
      }
    }
  }

  lemma OneAcceptedFirst(p: Plant, far: Far, items: seq<Order>, rest: Delivery)
    requires items != [] && items[0].key in p.devices && FaultOf(p, far, items[0]).None?
    requires StopsAtTheFirst(p, far, items[1..], rest)
    ensures StopsAtTheFirst(p, far, items, After([items[0]], rest))
  {
    assert items == [items[0]] + items[1..];
    ThenTheRest(p, far, [items[0]], items[1..], rest);
  }

  /** Some that are all accepted, and then the rest. */
  lemma ThenTheRest(p: Plant, far: Far, first: seq<Order>, then_: seq<Order>, rest: Delivery)
    requires forall a :: 0 <= a < |first| ==> first[a].key in p.devices && FaultOf(p, far, first[a]).None?
    requires StopsAtTheFirst(p, far, then_, rest)
    ensures StopsAtTheFirst(p, far, first + then_, After(first, rest))
  {
    var whole, d := first + then_, After(first, rest);
    assert d.sent == whole[..|d.sent|];
    forall a | 0 <= a < |d.sent|
      ensures FaultOf(p, far, whole[a]).None?
    {
      if a >= |first| {
        assert whole[a] == then_[a - |first|];
      }
    }
  }

  lemma {:induction false} TheScheduleStopsAtTheFirst(p: Plant, far: Far, targets: seq<Target>, orders: seq<Order>)
    requires AllCommandable(p, orders)
    ensures StopsAtTheFirst(p, far, Schedule(p, targets, orders), DeliverTargets(p, far, targets, orders))
  {
    if targets != [] {
      var items, more := ItemsFor(p, orders, targets[0]), Schedule(p, targets[1..], orders);
      var rest := DeliverTargets(p, far, targets[1..], orders);
      TheScheduleStopsAtTheFirst(p, far, targets[1..], orders);
      ItemsAreForTheirTarget(p, orders, targets[0]);
      if items == [] {
        AfterInTurn([], [], rest);
        assert [] + more == more;
      } else {
        ATargetStopsAtTheFirst(p, far, targets[0], items);
        var here := DeliverTarget(p, far, targets[0], items);
        if here.fault.Some? {
          StoppedHere(p, far, items, more, here);
        } else {
          assert here.sent == items;
          ThenTheRest(p, far, items, more, rest);
        }
      }
    }
  }

  lemma StoppedHere(p: Plant, far: Far, items: seq<Order>, more: seq<Order>, here: Delivery)
    requires StopsAtTheFirst(p, far, items, here) && here.fault.Some?
    requires forall a :: 0 <= a < |more| ==> more[a].key in p.devices
    ensures StopsAtTheFirst(p, far, items + more, here)
  {
    assert (items + more)[..|here.sent|] == items[..|here.sent|];
  }

  // ---------- in which order ----------

  function TargetAt(p: Plant, orders: seq<Order>, i: nat): Target
    requires AllCommandable(p, orders) && i < |orders|
  {
    TargetOf(p.devices[orders[i].key])
  }

  /** An order comes sooner than another where its target does, or, for one target, where it was given
      sooner. */
  ghost predicate Sooner(p: Plant, orders: seq<Order>, i: nat, j: nat)
    requires AllCommandable(p, orders) && i < |orders| && j < |orders|
  {
    exists m, n :: 0 <= m <= n < |p.targets|
                   && p.targets[m] == TargetAt(p, orders, i) && p.targets[n] == TargetAt(p, orders, j)
                   && (m == n ==> i < j)
  }

  /** Every order has its turn, and they come sooner and later as that says. */
  ghost predicate InTurn(p: Plant, orders: seq<Order>, turns: seq<nat>)
    requires AllCommandable(p, orders)
  {
    && (forall a :: 0 <= a < |turns| ==> turns[a] < |orders|)
    && (forall i :: 0 <= i < |orders| ==> i in turns)
    && (forall a, b :: 0 <= a < b < |turns| ==> Sooner(p, orders, turns[a], turns[b]))
  }

  /** These are the orders in these turns, each value brought within its scale. */
  ghost predicate AreTaken(p: Plant, orders: seq<Order>, turns: seq<nat>, whole: seq<Order>)
    requires AllCommandable(p, orders)
  {
    |whole| == |turns|
    && forall a :: 0 <= a < |turns| ==> turns[a] < |orders| && whole[a] == Scaled(p, orders[turns[a]])
  }

  function TurnsFor(p: Plant, orders: seq<Order>, t: Target): seq<nat>
    requires AllCommandable(p, orders)
  {
    if orders == [] then []
    else
      var n := |orders| - 1;
      TurnsFor(p, orders[..n], t) + if TargetOf(p.devices[orders[n].key]) == t then [n] else []
  }

  lemma {:induction false} TurnsForAre(p: Plant, orders: seq<Order>, t: Target)
    requires AllCommandable(p, orders)
    ensures AreTurnsFor(p, orders, t, TurnsFor(p, orders, t))
  {
    if orders != [] {
      TurnsForAre(p, orders[..|orders| - 1], t);
    }
  }

  lemma {:induction false} ItemsAreTaken(p: Plant, orders: seq<Order>, t: Target)
    requires AllCommandable(p, orders)
    ensures AreTaken(p, orders, TurnsFor(p, orders, t), ItemsFor(p, orders, t))
  {
    if orders != [] {
      ItemsAreTaken(p, orders[..|orders| - 1], t);
    }
  }

  function Turns(p: Plant, targets: seq<Target>, orders: seq<Order>): seq<nat>
    requires AllCommandable(p, orders)
  {
    if targets == [] then [] else TurnsFor(p, orders, targets[0]) + Turns(p, targets[1..], orders)
  }

  ghost predicate AreTurns(p: Plant, orders: seq<Order>, targets: seq<Target>, turns: seq<nat>)
    requires AllCommandable(p, orders)
  {
    && (forall a :: 0 <= a < |turns| ==> turns[a] < |orders| && TargetAt(p, orders, turns[a]) in targets)
    && (forall i :: 0 <= i < |orders| && TargetAt(p, orders, i) in targets ==> i in turns)
    && (forall a, b :: 0 <= a < b < |turns| ==> Sooner(p, orders, turns[a], turns[b]))
  }

  ghost predicate AreTurnsFor(p: Plant, orders: seq<Order>, t: Target, turns: seq<nat>)
    requires AllCommandable(p, orders)
  {
    && (forall a :: 0 <= a < |turns| ==> turns[a] < |orders| && TargetAt(p, orders, turns[a]) == t)
    && (forall i :: 0 <= i < |orders| && TargetAt(p, orders, i) == t ==> i in turns)
    && (forall a, b :: 0 <= a < b < |turns| ==> turns[a] < turns[b])
  }

  lemma {:induction false} TurnsAre(p: Plant, orders: seq<Order>, m: nat)
    requires AllCommandable(p, orders) && WellFormed(p) && m <= |p.targets|
    ensures AreTurns(p, orders, p.targets[m..], Turns(p, p.targets[m..], orders))
    decreases |p.targets| - m
  {
    if m < |p.targets| {
      var t, left := p.targets[m], p.targets[m..];
      assert left[0] == t && left[1..] == p.targets[m + 1..];
      TurnsForAre(p, orders, t);
      TurnsAre(p, orders, m + 1);
      OneTargetMore(p, orders, m, TurnsFor(p, orders, t), Turns(p, p.targets[m + 1..], orders));
    }
  }

  lemma OneTargetMore(p: Plant, orders: seq<Order>, m: nat, first: seq<nat>, later: seq<nat>)
    requires AllCommandable(p, orders) && m < |p.targets|
    requires AreTurnsFor(p, orders, p.targets[m], first) && AreTurns(p, orders, p.targets[m + 1..], later)
    ensures AreTurns(p, orders, p.targets[m..], first + later)
  {
    var left, turns := p.targets[m..], first + later;
    assert left == [p.targets[m]] + p.targets[m + 1..];
    forall i | 0 <= i < |orders| && TargetAt(p, orders, i) in left
      ensures i in turns
    {
      assert i in first || i in later;
    }
    forall a, b | 0 <= a < b < |turns|
      ensures Sooner(p, orders, turns[a], turns[b])
    {
      OneTargetSooner(p, orders, m, first, later, a, b);
    }
  }

  lemma OneTargetSooner(p: Plant, orders: seq<Order>, m: nat, first: seq<nat>, later: seq<nat>, a: nat, b: nat)
    requires AllCommandable(p, orders) && m < |p.targets|
    requires AreTurnsFor(p, orders, p.targets[m], first) && AreTurns(p, orders, p.targets[m + 1..], later)
    requires a < b < |first + later|
    ensures Sooner(p, orders, (first + later)[a], (first + later)[b])
  {
    var turns := first + later;
    if b < |first| {
      assert turns[a] == first[a] && turns[b] == first[b];
    } else {
      assert turns[b] == later[b - |first|];
      if a < |first| {
        assert turns[a] == first[a];
        var n :| 0 <= n < |p.targets[m + 1..]| && p.targets[m + 1..][n] == TargetAt(p, orders, turns[b]);
        assert p.targets[m + 1 + n] == TargetAt(p, orders, turns[b]);
      } else {
        assert turns[a] == later[a - |first|];
      }
    }
  }

  lemma {:induction false} TheScheduleIsTaken(p: Plant, targets: seq<Target>, orders: seq<Order>)
    requires AllCommandable(p, orders)
    ensures AreTaken(p, orders, Turns(p, targets, orders), Schedule(p, targets, orders))
  {
    if targets != [] {
      ItemsAreTaken(p, orders, targets[0]);
      TheScheduleIsTaken(p, targets[1..], orders);
    }
  }

  /** What is reported as accepted, and what ends it, whatever the far end does: the orders in turn,
      target by target and for each target as they were given, each brought within its scale; exactly
      those before the first that fails; and the fault is that one's. */
  lemma TheFirstFaultEndsIt(p: Plant, far: Far, orders: seq<Order>) returns (turns: seq<nat>, whole: seq<Order>)
    requires WellFormed(p) && AllCommandable(p, orders)
    ensures InTurn(p, orders, turns) && AreTaken(p, orders, turns, whole)
    ensures StopsAtTheFirst(p, far, whole, Command(p, far, orders))
  {
    turns, whole := Turns(p, p.targets, orders), Schedule(p, p.targets, orders);
    TurnsAreInTurn(p, orders);
    TheScheduleIsTaken(p, p.targets, orders);
    TheScheduleStopsAtTheFirst(p, far, p.targets, orders);
  }

  lemma TurnsAreInTurn(p: Plant, orders: seq<Order>)
    requires WellFormed(p) && AllCommandable(p, orders)
    ensures InTurn(p, orders, Turns(p, p.targets, orders))
  {
    assert p.targets[0..] == p.targets;
    TurnsAre(p, orders, 0);
  }

  // ---------- and into the log ----------

  /** The state this device was last sent. */
  ghost predicate LastSent(sent: seq<Order>, a: nat) {
    a < |sent| && forall b :: a < b < |sent| ==> sent[b].key != sent[a].key
  }

  lemma {:induction false} TheLastIsCommanded(sent: seq<Order>, a: nat)
    requires LastSent(sent, a)
    ensures sent[a].key in Commanded(sent) && Commanded(sent)[sent[a].key] == sent[a].state
  {
    var n := |sent| - 1;
    if a < n {
      assert sent[n].key != sent[a].key;
      assert sent[..n][a] == sent[a];
      TheLastIsCommanded(sent[..n], a);
    }
  }

  /** This entry agrees with what the device was sent, and with how it is declared. */
  predicate Tells(e: Entry, spec: DeviceSpec, state: State) {
    (e.state == state || SameState(e.state, state)) && e.identity == Some(spec)
  }

  /** A device whose order was accepted, whatever ended the commands, has an entry in the log that agrees
      with it, against the device as it is declared. */
  lemma TheLogHasWhatWasAccepted(
    p: Plant, sent: seq<Order>, before: Entries, now: real, forced: bool, a: nat)
    requires Commanded(sent).Keys <= p.devices.Keys && LastSent(sent, a)
    ensures sent[a].key in p.devices
    ensures var entry := EntryOf(Recorded(before, p, Commanded(sent), now, forced), sent[a].key);
            entry.Some? && Tells(entry.value, p.devices[sent[a].key], sent[a].state)
  {
    TheLastIsCommanded(sent, a);
  }

  /** And no other entry changes. */
  lemma OnlyWhatWasAcceptedIsLogged(
    p: Plant, sent: seq<Order>, before: Entries, now: real, forced: bool, key: string)
    requires Commanded(sent).Keys <= p.devices.Keys && forall a :: 0 <= a < |sent| ==> sent[a].key != key
    ensures EntryOf(Recorded(before, p, Commanded(sent), now, forced), key) == EntryOf(before, key)
  {
    CommandedKeys(sent);
    assert key !in Commanded(sent);
  }

  // ---------- the clock of an entry ----------

  /** One command a device accepted: what it was put to, as it was declared then, when, and whether the
      transition minimums were overridden. */
  datatype Heard = Heard(state: State, spec: DeviceSpec, at: real, forced: bool)

  /** The device's entry after these, in turn. */
  function EntryAfter(was: Option<Entry>, heard: seq<Heard>): Option<Entry> {
    if heard == [] then was
    else
      var h := heard[|heard| - 1];
      Some(Noted(EntryAfter(was, heard[..|heard| - 1]), h.state, h.spec, h.at, h.forced))
  }

  /** The second of these commands leaves the device where the first put it. */
  predicate StaysPut(first: Heard, second: Heard) {
    SameState(first.state, second.state) && first.spec == second.spec
  }

  /** Where the last stretch of commands that left the device where it was begins. */
  function LastMove(heard: seq<Heard>): (i: nat)
    requires heard != []
    ensures i < |heard| && forall j :: i < j < |heard| ==> StaysPut(heard[i], heard[j])
  {
    var n := |heard| - 1;
    if n == 0 then 0
    else
      var i := LastMove(heard[..n]);
      if StaysPut(heard[i], heard[n]) then i else n
  }

  ghost predicate AllForced(heard: seq<Heard>, i: nat) {
    forall j :: i <= j < |heard| ==> heard[j].forced
  }

  /** However often a device is commanded, its clock is that of the command that last moved it, and it is
      marked as forced exactly where that command and each one since was. */
  lemma {:induction false} TheClockIsOfTheLastMove(heard: seq<Heard>)
    requires heard != []
    ensures var i := LastMove(heard);
            EntryAfter(None, heard)
            == Some(Entry(heard[i].state, heard[i].at, Some(heard[i].spec), AllForced(heard, i)))
  {
    var n := |heard| - 1;
    var i := LastMove(heard);
    if n == 0 {
      assert EntryAfter(None, heard[..0]) == None;
    } else {
      TheClockIsOfTheLastMove(heard[..n]);
      assert forall j :: 0 <= j < n ==> heard[..n][j] == heard[j];
      if i != n {
        assert AllForced(heard, i) <==> AllForced(heard[..n], i) && heard[n].forced;
      }
    }
  }

  /** Its last move is the first command of all, or one that did not leave the device where the command
      that moved it before had put it. */
  lemma {:induction false} LastMoveIsAMove(heard: seq<Heard>, i: nat)
    requires heard != [] && i == LastMove(heard) && i > 0
    ensures !StaysPut(heard[LastMove(heard[..i])], heard[i])
    decreases |heard|
  {
    var n := |heard| - 1;
    if i < n {
      var earlier := heard[..n];
      assert i == LastMove(earlier);
      LastMoveIsAMove(earlier, i);
      assert earlier[..i] == heard[..i] && earlier[i] == heard[i];
    }
  }
}
