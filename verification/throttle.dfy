/** Saying once what would otherwise be said every cycle (RepeatingProblem in toinflux/general.py). */
module Throttle {
  import opened Numbers

  /** What is remembered of a problem: what it was, when it was last said in full, and how many times
      it has been reported since, that time included. */
  datatype Seen = Seen(identity: string, since: real, count: nat)

  type Memory = map<string, Seen>

  /** `InFull` carries how often the same problem had been reported since it was last said. */
  datatype Line = InFull(again: Option<nat>) | AtDebug(count: nat) | Recovered(count: nat) | Nothing

  datatype Event = Report(key: string, identity: string, at: real) | Cleared(key: string, at: real)

  predicate Unchanged(m: Memory, e: Event, repeatAfter: real)
    requires e.Report?
  {
    e.key in m && m[e.key].identity == e.identity && e.at - m[e.key].since < repeatAfter
  }

  function Apply(m: Memory, e: Event, repeatAfter: real): (Memory, Line) {
    match e
    case Report(key, identity, at) =>
      if Unchanged(m, e, repeatAfter) then
        (m[key := m[key].(count := m[key].count + 1)], AtDebug(m[key].count + 1))
      else
        (m[key := Seen(identity, at, 1)],
         InFull(if key in m && m[key].identity == identity then Some(m[key].count) else None))
    case Cleared(key, _) => if key in m then (m - {key}, Recovered(m[key].count)) else (m, Nothing)
  }

  class RepeatingProblem {
    const repeatAfter: real
    var seen: Memory

    constructor (repeatAfter: real)
      ensures this.repeatAfter == repeatAfter && seen == map[]
    {
      this.repeatAfter := repeatAfter;
      seen := map[];
    }

    method Report(key: string, identity: string, now: real) returns (line: Line)
      modifies this
      ensures (seen, line) == Apply(old(seen), Event.Report(key, identity, now), repeatAfter)
    {
      if key in seen && seen[key].identity == identity && now - seen[key].since < repeatAfter {
        var count := seen[key].count + 1;
        seen := seen[key := Seen(identity, seen[key].since, count)];
        return AtDebug(count);
      }
      line := if key in seen && seen[key].identity == identity then InFull(Some(seen[key].count)) else InFull(None);
      seen := seen[key := Seen(identity, now, 1)];
    }

    method Clear(key: string, now: real) returns (line: Line)
      modifies this
      ensures (seen, line) == Apply(old(seen), Cleared(key, now), repeatAfter)
    {
      if key !in seen {
        return Nothing;
      }
      line := Recovered(seen[key].count);
      seen := seen - {key};
    }
  }

  // ---------- histories ----------

  /** The memory after these events, in turn. */
  function After(m: Memory, events: seq<Event>, repeatAfter: real): Memory {
    if events == [] then m
    else Apply(After(m, events[..|events| - 1], repeatAfter), events[|events| - 1], repeatAfter).0
  }

  /** What is logged for one of them. */
  function LineAt(m: Memory, events: seq<Event>, i: nat, repeatAfter: real): Line
    requires i < |events|
  {
    Apply(After(m, events[..i], repeatAfter), events[i], repeatAfter).1
  }

  /** How many of them were logged in full for this key. */
  function InFullFor(m: Memory, events: seq<Event>, key: string, repeatAfter: real): nat {
    if events == [] then 0
    else
      var n := |events| - 1;
      InFullFor(m, events[..n], key, repeatAfter)
      + if events[n].key == key && LineAt(m, events, n, repeatAfter).InFull? then 1 else 0
  }

  /** The reports of this key since the last one that was logged in full, that one included. */
  function ReportsSinceInFull(m: Memory, events: seq<Event>, key: string, repeatAfter: real): nat {
    if events == [] then if key in m then m[key].count else 0
    else
      var n := |events| - 1;
      var before := ReportsSinceInFull(m, events[..n], key, repeatAfter);
      if events[n].key != key then before
      else if events[n].Cleared? then 0
      else if LineAt(m, events, n, repeatAfter).InFull? then 1
      else before + 1
  }

  ghost predicate Clocked(events: seq<Event>, start: real, end: real) {
    forall i :: 0 <= i < |events| ==> start <= events[i].at <= end
  }

  /** Every event of this key reports the same fault. */
  ghost predicate OneFault(events: seq<Event>, key: string, identity: string) {
    forall i :: 0 <= i < |events| && events[i].key == key ==> events[i].Report? && events[i].identity == identity
  }

  function Times(n: nat, step: real): real {
    if n == 0 then 0.0 else Times(n - 1, step) + step
  }

  lemma {:induction false} TimesIsProduct(n: nat, step: real)
    ensures Times(n, step) == n as real * step
  {
    if n > 0 {
      TimesIsProduct(n - 1, step);
    }
  }

  /** After `n` lines in full for this fault, the last of them was said `n - 1` intervals after `start`
      or later. */
  ghost predicate Spaced(
    n: nat, after: Memory, key: string, identity: string, start: real, end: real, repeatAfter: real)
  {
    n > 0 ==>
      && key in after && after[key].identity == identity
      && start + Times(n - 1, repeatAfter) <= after[key].since <= end
  }

  lemma OneMoreIsSpaced(
    n: nat, before: Memory, e: Event, key: string, identity: string, start: real, end: real, repeatAfter: real)
    requires Spaced(n, before, key, identity, start, end, repeatAfter)
    requires start <= e.at <= end
    requires e.key == key ==> e.Report? && e.identity == identity
    ensures var (after, line) := Apply(before, e, repeatAfter);
            Spaced(n + (if e.key == key && line.InFull? then 1 else 0), after, key, identity, start, end, repeatAfter)
  {
  }

  lemma {:induction false} LinesAreSpaced(
    m: Memory, events: seq<Event>, key: string, identity: string, start: real, end: real, repeatAfter: real)
    requires Clocked(events, start, end) && OneFault(events, key, identity)
    ensures Spaced(InFullFor(m, events, key, repeatAfter), After(m, events, repeatAfter), key, identity,
                   start, end, repeatAfter)
  {
    if events != [] {
      var last := |events| - 1;
      LinesAreSpaced(m, events[..last], key, identity, start, end, repeatAfter);
      OneMoreIsSpaced(InFullFor(m, events[..last], key, repeatAfter), After(m, events[..last], repeatAfter),
                      events[last], key, identity, start, end, repeatAfter);
    }
  }

  lemma AtMost(x: real, q: real, y: real)
    requires y > 0.0 && x * y <= q * y
    ensures x <= q
  {
  }

  lemma Quotient(x: real, y: real, total: real)
    requires y > 0.0 && x * y <= total
    ensures x <= total / y
  {
    var q := total / y;
    assert q * y == total;
    AtMost(x, q, y);
  }

  lemma SpacedIsSeldom(n: nat, step: real, span: real)
    requires n > 0 && step > 0.0 && Times(n - 1, step) <= span
    ensures n as real <= span / step + 1.0
  {
    TimesIsProduct(n - 1, step);
    Quotient((n - 1) as real, step, span);
  }

  /** Whatever happens to other keys between, and however often the fault recurs, one unchanged fault
      is logged in full at most once for each `repeat_after` of the time it lasts, and once more. */
  lemma AnUnchangedFaultIsSaidSeldom(
    m: Memory, events: seq<Event>, key: string, identity: string, start: real, end: real, repeatAfter: real)
    requires Clocked(events, start, end) && OneFault(events, key, identity) && start <= end && repeatAfter > 0.0
    ensures InFullFor(m, events, key, repeatAfter) as real <= (end - start) / repeatAfter + 1.0
  {
    var n := InFullFor(m, events, key, repeatAfter);
    if n > 0 {
      LinesAreSpaced(m, events, key, identity, start, end, repeatAfter);
      SpacedIsSeldom(n, repeatAfter, end - start);
    }
  }

  /** What a recovery counts: the reports since the last line in full, and not since the fault began,
      so a fault that outlasts `repeat_after` recovers with the count of its last stretch only. */
  lemma {:induction false} RecoveryCountsTheLastStretch(m: Memory, events: seq<Event>, key: string, repeatAfter: real)
    ensures var after := After(m, events, repeatAfter);
            && (key in after ==> after[key].count == ReportsSinceInFull(m, events, key, repeatAfter))
            && (key !in after ==> ReportsSinceInFull(m, events, key, repeatAfter) == 0)
  {
    if events != [] {
      RecoveryCountsTheLastStretch(m, events[..|events| - 1], key, repeatAfter);
    }
  }

  /** Every line says how often its problem has been reported since it was last logged in full: a line at
      debug that report included, a line in full only those before it. */
  lemma EachLineCountsItsReports(m: Memory, events: seq<Event>, i: nat, repeatAfter: real)
    requires i < |events| && events[i].Report?
    ensures var line, key := LineAt(m, events, i, repeatAfter), events[i].key;
            var before := ReportsSinceInFull(m, events[..i], key, repeatAfter);
            && (line.AtDebug? || line.InFull?)
            && (line.AtDebug? ==> line.count == before + 1)
            && (line.InFull? && line.again.Some? ==> line.again.value == before)
  {
    RecoveryCountsTheLastStretch(m, events[..i], events[i].key, repeatAfter);
  }

  /** The reports of this key since its fault began: since the last one that said something new, that one
      included. */
  function ReportsSinceItBegan(m: Memory, events: seq<Event>, key: string, repeatAfter: real): nat {
    if events == [] then if key in m then m[key].count else 0
    else
      var n := |events| - 1;
      var before := ReportsSinceItBegan(m, events[..n], key, repeatAfter);
      if events[n].key != key then before
      else if events[n].Cleared? then 0
      else if LineAt(m, events, n, repeatAfter) == InFull(None) then 1
      else before + 1
  }

  /** How often, since it began, the same fault has been said in full again. */
  function Reminders(m: Memory, events: seq<Event>, key: string, repeatAfter: real): nat {
    if events == [] then 0
    else
      var n := |events| - 1;
      var before, line := Reminders(m, events[..n], key, repeatAfter), LineAt(m, events, n, repeatAfter);
      if events[n].key != key then before
      else if events[n].Cleared? || line == InFull(None) then 0
      else if line.InFull? then before + 1
      else before
  }

  /** Each memory counts the report it was made by. */
  predicate Counted(m: Memory) {
    forall key :: key in m ==> m[key].count > 0
  }

  lemma {:induction false} ARecoveryCountsAtMostTheWholeFault(
    m: Memory, events: seq<Event>, key: string, repeatAfter: real)
    requires Counted(m)
    ensures var last := ReportsSinceInFull(m, events, key, repeatAfter);
            var whole := ReportsSinceItBegan(m, events, key, repeatAfter);
            && last <= whole
            && (last == whole <==> Reminders(m, events, key, repeatAfter) == 0)
            && (key in After(m, events, repeatAfter) ==> last > 0)
            && (key !in After(m, events, repeatAfter) ==> whole == 0)
  {
    if events != [] {
      var n := |events| - 1;
      ARecoveryCountsAtMostTheWholeFault(m, events[..n], key, repeatAfter);
      RecoveryCountsTheLastStretch(m, events[..n], key, repeatAfter);
      RecoveryCountsTheLastStretch(m, events, key, repeatAfter);
    }
  }

  /** What a recovery says is the number of all the reports since the fault began if and only if no later
      one of them was logged in full; otherwise it is less. */
  lemma ARecoveryCountsTheWholeFaultUnlessReminded(
    m: Memory, events: seq<Event>, key: string, at: real, repeatAfter: real)
    requires Counted(m) && key in After(m, events, repeatAfter)
    ensures var line := Apply(After(m, events, repeatAfter), Cleared(key, at), repeatAfter).1;
            && line.Recovered? && line.count <= ReportsSinceItBegan(m, events, key, repeatAfter)
            && (line.count == ReportsSinceItBegan(m, events, key, repeatAfter) <==>
                Reminders(m, events, key, repeatAfter) == 0)
  {
    ARecoveryCountsAtMostTheWholeFault(m, events, key, repeatAfter);
    RecoveryCountsTheLastStretch(m, events, key, repeatAfter);
  }

  /** A fault reported twice, an hour apart, recovers as having failed once. */
  lemma TwoReportsRecoverAsOne(key: string, fault: string)
    ensures var events := [Report(key, fault, 0.0), Report(key, fault, 3600.0)];
            && ReportsSinceItBegan(map[], events, key, 3600.0) == 2
            && Apply(After(map[], events, 3600.0), Cleared(key, 3660.0), 3600.0).1 == Recovered(1)
  {
    var first, second := Report(key, fault, 0.0), Report(key, fault, 3600.0);
    assert [first, second][..1] == [first] && [first][..0] == [];
    assert After(map[], [first], 3600.0) == map[key := Seen(fault, 0.0, 1)];
    assert ReportsSinceItBegan(map[], [first], key, 3600.0) == 1;
  }

  /** What is remembered of a key is the last thing that happened to it. */
  lemma {:induction false} LastEventIsRemembered(m: Memory, events: seq<Event>, j: nat, i: nat, repeatAfter: real)
    requires j < i <= |events| && forall k :: j < k < i ==> events[k].key != events[j].key
    ensures var key, before := events[j].key, After(m, events[..i], repeatAfter);
            if events[j].Report? then key in before && before[key].identity == events[j].identity else key !in before
    decreases i
  {
    assert events[..i][..i - 1] == events[..i - 1];
    if j < i - 1 {
      LastEventIsRemembered(m, events, j, i - 1, repeatAfter);
    }
  }

  /** Whatever happens to other keys between, a report whose fault differs from the key's last one, or
      that follows its recovery, is logged in full; and one of the same fault is not, for as long as
      it was last logged in full less than `repeat_after` ago. */
  lemma AChangedFaultIsAlwaysSaid(m: Memory, events: seq<Event>, j: nat, i: nat, repeatAfter: real)
    requires j < i < |events| && events[i].Report? && events[j].key == events[i].key
    requires forall k :: j < k < i ==> events[k].key != events[j].key
    ensures var line, key := LineAt(m, events, i, repeatAfter), events[i].key;
            if events[j].Cleared? || events[j].identity != events[i].identity then line == InFull(None)
            else key in After(m, events[..i], repeatAfter)
                 && (line.InFull? <==> events[i].at - After(m, events[..i], repeatAfter)[key].since >= repeatAfter)
  {
    LastEventIsRemembered(m, events, j, i, repeatAfter);
  }
}
