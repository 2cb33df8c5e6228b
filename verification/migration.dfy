/** Re-keying the old Nuki history: one point per lock and timestamp, where the old format had the
    lock's name in every field key (scripts/migrate-nuki-device-tag.py). */
module Migration {
  import opened Numbers
  import opened LineProtocol

  // ---------- field keys ----------

  /** The field names a collector wrote, and which of them are text. */
  datatype Vocabulary = Vocabulary(known: seq<string>, text: set<string>)

  /** What the splitting rests on. */
  ghost predicate Unambiguous(v: Vocabulary) {
    forall i :: 0 <= i < |v.known| ==> '_' !in v.known[i]
  }

  /** The key a lock's field had in the old format. */
  function OldKey(lock: string, field: string): string {
    lock + "_" + field
  }

  predicate EndsIn(key: string, field: string) {
    |field| < |key| && key[|key| - |field| - 1] == '_' && key[|key| - |field|..] == field
  }

  /** The longest of the first `n` known fields that ends the key, in the order they are tried. */
  function Best(v: Vocabulary, key: string, n: nat): Option<string>
    requires n <= |v.known|
  {
    if n == 0 then None
    else
      var best, field := Best(v, key, n - 1), v.known[n - 1];
      if EndsIn(key, field) && (best.None? || |field| > |best.value|) then Some(field) else best
  }

  /** `split_field_key`: None is MigrationError. */
  function SplitKey(v: Vocabulary, key: string): Option<(string, string)> {
    var best := Best(v, key, |v.known|);
    if best.None? then None
    else
      BestEnds(v, key, |v.known|);
      var lock := key[..|key| - |best.value| - 1];
      if lock == "" then None else Some((lock, best.value))
  }

  lemma {:induction false} BestEnds(v: Vocabulary, key: string, n: nat)
    requires n <= |v.known|
    ensures var best := Best(v, key, n);
            && (best.Some? ==> EndsIn(key, best.value) && best.value in v.known)
            && (best.Some? ==> forall i :: 0 <= i < n && EndsIn(key, v.known[i]) ==> |v.known[i]| <= |best.value|)
            && (best.None? ==> forall i :: 0 <= i < n ==> !EndsIn(key, v.known[i]))
  {
    if n > 0 {
      BestEnds(v, key, n - 1);
    }
  }

  method SplitFieldKey(v: Vocabulary, key: string) returns (r: Option<(string, string)>)
    ensures r == SplitKey(v, key)
    ensures r.Some? ==> EndsIn(key, r.value.1) && r.value.1 in v.known
                        && r.value.0 == key[..|key| - |r.value.1| - 1] != ""
    ensures r.Some? ==> forall i :: 0 <= i < |v.known| && EndsIn(key, v.known[i]) ==> |v.known[i]| <= |r.value.1|
    ensures r.None? ==> (forall i :: 0 <= i < |v.known| ==> !EndsIn(key, v.known[i]))
                        || exists i :: 0 <= i < |v.known| && key == "_" + v.known[i]
  {
    var best: Option<string> := None;
    for i := 0 to |v.known|
      invariant best == Best(v, key, i)
    {
      if EndsIn(key, v.known[i]) && (best.None? || |v.known[i]| > |best.value|) {
        best := Some(v.known[i]);
      }
    }
    BestEnds(v, key, |v.known|);
    if best.None? {
      return None;
    }
    var lock := key[..|key| - |best.value| - 1];
    assert lock == "" ==> key == "_" + best.value;
    r := if lock == "" then None else Some((lock, best.value));
  }

  /** Splitting inverts the old naming both ways, for every lock name that is not empty: because no
      known field contains an underscore, at most one of them can end a key. */
  lemma SplittingInvertsNaming(v: Vocabulary, key: string, lock: string, field: string)
    requires Unambiguous(v)
    ensures SplitKey(v, key) == Some((lock, field)) <==>
              lock != "" && field in v.known && key == OldKey(lock, field)
  {
    BestEnds(v, key, |v.known|);
    var best := Best(v, key, |v.known|);
    if best.Some? {
      assert key == OldKey(key[..|key| - |best.value| - 1], best.value);
    }
    if lock != "" && field in v.known && key == OldKey(lock, field) {
      assert EndsIn(key, field);
      var i :| 0 <= i < |v.known| && v.known[i] == field;
      assert best.Some?;
      OneFieldEndsAKey(key, best.value, field);
      assert OldKey(lock, field)[..|lock|] == lock;
    }
  }

  lemma OneFieldEndsAKey(key: string, a: string, b: string)
    requires EndsIn(key, a) && EndsIn(key, b) && '_' !in a && '_' !in b
    ensures a == b
  {
    assert key[|key| - |a|..] == a && key[|key| - |b|..] == b;
  }

  // ---------- the vocabulary of Nuki ----------

  const LOCK_FIELDS: seq<string> := [
    "batteryChargeState", "batteryCharging", "batteryCritical", "connected", "deviceType",
    "firmware", "keypadBatteryCritical", "mode", "name"]

  const DOOR_FIELDS: seq<string> := [
    "doorsensorBatteryCritical", "doorsensorState", "doorsensorStateName", "doorsensorStateValue"]

  const STATE_FIELDS: seq<string> := [
    "ringactionTimestamp", "serverConnected", "state", "stateName", "stateValue", "timestamp"]

  const NUKI := Vocabulary(
    LOCK_FIELDS + DOOR_FIELDS + STATE_FIELDS,
    {"firmware", "timestamp", "ringactionTimestamp", "stateName", "doorsensorStateName", "name"})

  predicate Letters(s: string) {
    forall i :: 0 <= i < |s| ==> 'a' <= s[i] <= 'z' || 'A' <= s[i] <= 'Z'
  }

  /** Every field name is made of letters only. */
  ghost predicate Spelled(v: Vocabulary) {
    forall i :: 0 <= i < |v.known| ==> Letters(v.known[i])
  }

  lemma SpelledIsUnambiguous(v: Vocabulary)
    requires Spelled(v)
    ensures Unambiguous(v)
  {
    forall i | 0 <= i < |v.known|
      ensures '_' !in v.known[i]
    {
      assert Letters(v.known[i]);
    }
  }

  lemma LockFieldsAreSpelled()
    ensures forall i :: 0 <= i < |LOCK_FIELDS| ==> Letters(LOCK_FIELDS[i])
  {
  }

  lemma DoorFieldsAreSpelled()
    ensures forall i :: 0 <= i < |DOOR_FIELDS| ==> Letters(DOOR_FIELDS[i])
  {
  }

  lemma StateFieldsAreSpelled()
    ensures forall i :: 0 <= i < |STATE_FIELDS| ==> Letters(STATE_FIELDS[i])
  {
  }

  lemma AllAreSpelled(a: seq<string>, b: seq<string>)
    requires forall i :: 0 <= i < |a| ==> Letters(a[i])
    requires forall i :: 0 <= i < |b| ==> Letters(b[i])
    ensures forall i :: 0 <= i < |a + b| ==> Letters((a + b)[i])
  {
  }

  lemma NukiIsSpelled()
    ensures Spelled(NUKI) && Unambiguous(NUKI)
  {
    LockFieldsAreSpelled();
    DoorFieldsAreSpelled();
    StateFieldsAreSpelled();
    AllAreSpelled(LOCK_FIELDS, DOOR_FIELDS);
    AllAreSpelled(LOCK_FIELDS + DOOR_FIELDS, STATE_FIELDS);
    SpelledIsUnambiguous(NUKI);
  }

  // ---------- reading the old points ----------

  type Values = map<string, FieldValue>

  /** The old points merged by timestamp. */
  type Points = map<int, Values>

  /** One row of the answer: one tag set's point at one timestamp. */
  datatype Row = Row(host: string, stamp: int, values: Values)

  /** `old_field_keys`: a key with no underscore is not an old one. */
  predicate OldStyle(key: string) {
    '_' in key
  }

  function Present(row: Row): Values {
    map k | k in row.values && OldStyle(k) :: row.values[k]
  }

  function Merge(points: Points, row: Row): Points {
    if Present(row) == map[] then points
    else points[row.stamp := (if row.stamp in points then points[row.stamp] else map[]) + Present(row)]
  }

  /** Row after row, each merged into what its timestamp already has. */
  function Merged(rows: seq<Row>): Points {
    if rows == [] then map[] else Merge(Merged(rows[..|rows| - 1]), rows[|rows| - 1])
  }

  method ReadOldPoints(rows: seq<Row>) returns (points: Points)
    ensures points == Merged(rows)
  {
    points := map[];
    for i := 0 to |rows|
      invariant points == Merged(rows[..i])
    {
      assert rows[..i + 1][..i] == rows[..i];
      var present := map k | k in rows[i].values && OldStyle(k) :: rows[i].values[k];
      if present != map[] {
        var stamp := rows[i].stamp;
        points := points[stamp := (if stamp in points then points[stamp] else map[]) + present];
      }
    }
    assert rows[..|rows|] == rows;
  }

  predicate Has(points: Points, stamp: int, key: string) {
    stamp in points && key in points[stamp]
  }

  predicate RowHas(row: Row, stamp: int, key: string) {
    row.stamp == stamp && key in row.values && '_' in key
  }

  /** A key is read at a timestamp exactly where some row had it there, and its value is then some
      row's; a point is never read empty. */
  lemma {:induction false} MergedIsWhatTheRowsHave(rows: seq<Row>, stamp: int, key: string)
    ensures Has(Merged(rows), stamp, key) <==> exists i :: 0 <= i < |rows| && RowHas(rows[i], stamp, key)
    ensures Has(Merged(rows), stamp, key) ==>
              exists i :: 0 <= i < |rows| && RowHas(rows[i], stamp, key)
                          && rows[i].values[key] == Merged(rows)[stamp][key]
  {
    if rows != [] {
      var n := |rows| - 1;
      MergedIsWhatTheRowsHave(rows[..n], stamp, key);
      var last := rows[n];
      if RowHas(last, stamp, key) {
        assert key in Present(last);
      } else if Has(Merged(rows[..n]), stamp, key) {
        var i :| 0 <= i < n && RowHas(rows[..n][i], stamp, key)
                 && rows[..n][i].values[key] == Merged(rows[..n])[stamp][key];
        assert rows[i] == rows[..n][i];
      } else {
        assert !Has(Merged(rows), stamp, key);
        forall i | 0 <= i < |rows|
          ensures !RowHas(rows[i], stamp, key)
        {
          assert i < n ==> rows[i] == rows[..n][i];
        }
      }
    }
  }

  /** The last row that has this key at this timestamp. */
  ghost predicate IsLast(rows: seq<Row>, j: nat, stamp: int, key: string) {
    j < |rows| && RowHas(rows[j], stamp, key) && forall k :: j < k < |rows| ==> !RowHas(rows[k], stamp, key)
  }

  /** Of the rows that have a key at one timestamp, the last one's value is the value read. */
  lemma {:induction false} TheLastRowWins(rows: seq<Row>, j: nat, stamp: int, key: string)
    requires IsLast(rows, j, stamp, key)
    ensures Has(Merged(rows), stamp, key) && Merged(rows)[stamp][key] == rows[j].values[key]
  {
    var n := |rows| - 1;
    if j == n {
      assert key in Present(rows[n]);
    } else {
      assert rows[..n][j] == rows[j];
      TheLastRowWins(rows[..n], j, stamp, key);
    }
  }

  lemma {:induction false} ThereIsALastRow(rows: seq<Row>, i: nat, stamp: int, key: string)
    requires i < |rows| && RowHas(rows[i], stamp, key)
    ensures exists j: nat :: IsLast(rows, j, stamp, key)
    decreases |rows| - i
  {
    if exists k :: i < k < |rows| && RowHas(rows[k], stamp, key) {
      var k :| i < k < |rows| && RowHas(rows[k], stamp, key);
      ThereIsALastRow(rows, k, stamp, key);
    } else {
      assert IsLast(rows, i, stamp, key);
    }
  }

  // ---------- rewriting ----------

  /** `line_protocol_value`: a number under a field that is text stays text. */
  function Rewritten(v: Vocabulary, field: string, value: FieldValue): FieldValue {
    if value.Bare? && field in v.text then Text(value.digits) else value
  }

  /** A new point: the lock is its device tag. */
  datatype Line = Line(lock: string, stamp: int, fields: Values)

  /** This is how the old format named this lock's field. */
  predicate Names(v: Vocabulary, key: string, lock: string, field: string) {
    SplitKey(v, key) == Some((lock, field))
  }

  function FieldsIn(v: Vocabulary, values: Values, lock: string): set<string> {
    set key | key in values && SplitKey(v, key).Some? && SplitKey(v, key).value.0 == lock :: SplitKey(v, key).value.1
  }

  lemma NamedIsOldKey(v: Vocabulary, key: string, lock: string, field: string)
    requires Unambiguous(v)
    requires Names(v, key, lock, field)
    ensures key == OldKey(lock, field)
  {
    SplittingInvertsNaming(v, key, lock, field);
  }

  /** What one lock's point holds, of one timestamp's values. */
  function LockFields(v: Vocabulary, values: Values, lock: string): Values {
    map f | f in FieldsIn(v, values, lock) && OldKey(lock, f) in values :: Rewritten(v, f, values[OldKey(lock, f)])
  }

  function LineFields(v: Vocabulary, points: Points, lock: string, stamp: int): Values {
    if stamp in points then LockFields(v, points[stamp], lock) else map[]
  }

  lemma LockFieldsAreTheNamedOnes(v: Vocabulary, values: Values, lock: string, field: string)
    requires Unambiguous(v)
    ensures field in LockFields(v, values, lock) <==>
              OldKey(lock, field) in values && Names(v, OldKey(lock, field), lock, field)
  {
    if field in FieldsIn(v, values, lock) {
      var key :| key in values && Names(v, key, lock, field);
      NamedIsOldKey(v, key, lock, field);
    }
  }

  /** The (lock, timestamp) pairs the keys name. */
  function Pairs(v: Vocabulary, points: Points): set<(string, int)> {
    set stamp, key | stamp in points && key in points[stamp] && SplitKey(v, key).Some? ::
      (SplitKey(v, key).value.0, stamp)
  }

  predicate AllSplit(v: Vocabulary, points: Points) {
    forall stamp :: stamp in points ==> SplitAt(v, points[stamp])
  }

  function LocksOf(lines: seq<Line>): seq<string> {
    if lines == [] then [] else LocksOf(lines[..|lines| - 1]) + [lines[|lines| - 1].lock]
  }

  ghost predicate OncePerPair(lines: seq<Line>) {
    forall i, j :: 0 <= i < j < |lines| ==> (lines[i].lock, lines[i].stamp) != (lines[j].lock, lines[j].stamp)
  }

  /** One line for each lock and timestamp of these timestamps, holding all of that pair's fields. */
  ghost predicate AreTheLines(v: Vocabulary, lines: seq<Line>, points: Points, pairs: set<(string, int)>) {
    && OncePerPair(lines)
    && (forall i :: 0 <= i < |lines| ==>
          && (lines[i].lock, lines[i].stamp) in pairs
          && lines[i].fields == LineFields(v, points, lines[i].lock, lines[i].stamp))
    && (forall p :: p in pairs ==> exists i :: 0 <= i < |lines| && (lines[i].lock, lines[i].stamp) == p)
  }

  /** The values under these keys, lock by lock. */
  ghost predicate Grouped(v: Vocabulary, byLock: map<string, Values>, values: Values, done: set<string>)
    requires done <= values.Keys
  {
    Covers(v, byLock, done) && Stems(v, byLock, values, done) && forall l :: l in byLock ==> byLock[l] != map[]
  }

  ghost predicate Covers(v: Vocabulary, byLock: map<string, Values>, done: set<string>) {
    forall key :: key in done ==>
      SplitKey(v, key).Some? && Holds(byLock, SplitKey(v, key).value.0, SplitKey(v, key).value.1)
  }

  ghost predicate Stems(v: Vocabulary, byLock: map<string, Values>, values: Values, done: set<string>)
    requires done <= values.Keys
  {
    forall l, f :: Holds(byLock, l, f) ==>
      Names(v, OldKey(l, f), l, f) && OldKey(l, f) in done && byLock[l][f] == values[OldKey(l, f)]
  }

  predicate Holds(byLock: map<string, Values>, l: string, f: string) {
    l in byLock && f in byLock[l]
  }

  function WithValue(byLock: map<string, Values>, l: string, f: string, value: FieldValue): map<string, Values> {
    byLock[l := (if l in byLock then byLock[l] else map[])[f := value]]
  }

  lemma OneMoreCovers(
    v: Vocabulary, byLock: map<string, Values>, done: set<string>, key: string, l: string, f: string, value: FieldValue)
    requires Covers(v, byLock, done) && Names(v, key, l, f)
    ensures Covers(v, WithValue(byLock, l, f, value), done + {key})
  {
    forall k | k in done + {key}
      ensures SplitKey(v, k).Some?
      ensures Holds(WithValue(byLock, l, f, value), SplitKey(v, k).value.0, SplitKey(v, k).value.1)
    {
      assert k != key ==> Holds(byLock, SplitKey(v, k).value.0, SplitKey(v, k).value.1);
    }
  }

  lemma OneMoreGrouped(
    v: Vocabulary, byLock: map<string, Values>, values: Values, done: set<string>, key: string, l: string, f: string)
    requires Unambiguous(v)
    requires done <= values.Keys && Grouped(v, byLock, values, done) && key in values && Names(v, key, l, f)
    ensures Grouped(v, WithValue(byLock, l, f, values[key]), values, done + {key})
  {
    OneMoreCovers(v, byLock, done, key, l, f, values[key]);
    NamedIsOldKey(v, key, l, f);
    OneMoreStems(v, byLock, values, done, l, f);
  }

  lemma OneMoreStems(
    v: Vocabulary, byLock: map<string, Values>, values: Values, done: set<string>, l: string, f: string)
    requires OldKey(l, f) in values && Names(v, OldKey(l, f), l, f)
    requires done <= values.Keys && Stems(v, byLock, values, done)
    ensures Stems(v, WithValue(byLock, l, f, values[OldKey(l, f)]), values, done + {OldKey(l, f)})
  {
    var after := WithValue(byLock, l, f, values[OldKey(l, f)]);
    forall m, g | Holds(after, m, g)
      ensures Names(v, OldKey(m, g), m, g) && OldKey(m, g) in done + {OldKey(l, f)}
      ensures after[m][g] == values[OldKey(m, g)]
    {
      if (m, g) != (l, f) {
        assert Holds(byLock, m, g);
      }
    }
  }

  method GroupByLock(v: Vocabulary, values: Values) returns (ok: bool, byLock: map<string, Values>)
    requires Unambiguous(v)
    ensures ok <==> forall key :: key in values ==> SplitKey(v, key).Some?
    ensures ok ==> Grouped(v, byLock, values, values.Keys)
  {
    byLock := map[];
    var todo := values.Keys;
    while todo != {}
      invariant todo <= values.Keys
      invariant Grouped(v, byLock, values, values.Keys - todo)
      decreases |todo|
    {
      var key :| key in todo;
      var split := SplitFieldKey(v, key);
      if split.None? {
        return false, byLock;
      }
      var (l, f) := split.value;
      OneMoreGrouped(v, byLock, values, values.Keys - todo, key, l, f);
      byLock := WithValue(byLock, l, f, values[key]);
      assert values.Keys - (todo - {key}) == (values.Keys - todo) + {key};
      todo := todo - {key};
    }
    assert values.Keys - todo == values.Keys;
    ok := true;
  }

  /** A group, rewritten. */
  function RewrittenGroup(v: Vocabulary, group: Values): Values {
    map f | f in group :: Rewritten(v, f, group[f])
  }

  lemma GroupHasLockField(v: Vocabulary, byLock: map<string, Values>, values: Values, l: string, f: string)
    requires Unambiguous(v)
    requires Grouped(v, byLock, values, values.Keys) && l in byLock
    ensures f in byLock[l] <==> f in LockFields(v, values, l)
    ensures f in byLock[l] ==> byLock[l][f] == values[OldKey(l, f)]
  {
    LockFieldsAreTheNamedOnes(v, values, l, f);
    assert f in byLock[l] <==> Holds(byLock, l, f);
    if f in LockFields(v, values, l) {
      assert SplitKey(v, OldKey(l, f)).Some?;
    }
  }

  /** A group, rewritten, is what its lock's point holds. */
  lemma GroupsAreLockFields(v: Vocabulary, byLock: map<string, Values>, values: Values, l: string)
    requires Unambiguous(v)
    requires Grouped(v, byLock, values, values.Keys) && l in byLock
    ensures RewrittenGroup(v, byLock[l]) == LockFields(v, values, l)
  {
    forall f: string
      ensures f in byLock[l] <==> f in LockFields(v, values, l)
      ensures f in byLock[l] ==> byLock[l][f] == values[OldKey(l, f)]
    {
      GroupHasLockField(v, byLock, values, l, f);
    }
    SameFields(v, byLock[l], values, l);
  }

  lemma SameFields(v: Vocabulary, group: Values, values: Values, l: string)
    requires forall f :: f in group <==> f in LockFields(v, values, l)
    requires forall f :: f in group ==> OldKey(l, f) in values && group[f] == values[OldKey(l, f)]
    ensures RewrittenGroup(v, group) == LockFields(v, values, l)
  {
  }

  lemma GroupsAreThePairs(v: Vocabulary, byLock: map<string, Values>, points: Points, stamp: int, l: string)
    requires Unambiguous(v)
    requires stamp in points && Grouped(v, byLock, points[stamp], points[stamp].Keys)
    ensures (l, stamp) in Pairs(v, points) <==> l in byLock.Keys
  {
    if l in byLock {
      var f :| f in byLock[l];
      assert Holds(byLock, l, f);
      InPairs(v, points, stamp, OldKey(l, f), l, f);
    }
  }

  lemma InPairs(v: Vocabulary, points: Points, stamp: int, key: string, l: string, f: string)
    requires Has(points, stamp, key) && Names(v, key, l, f)
    ensures (l, stamp) in Pairs(v, points)
  {
  }

  lemma SomeStamp(stamps: set<int>)
    requires stamps != {}
    ensures exists stamp: int :: stamp in stamps
  {
    if forall stamp: int :: stamp !in stamps {
      NoStamp(stamps);
    }
  }

  lemma NoStamp(stamps: set<int>)
    requires forall stamp: int :: stamp !in stamps
    ensures stamps == {}
  {
    assert forall stamp :: stamp in stamps ==> stamp in {};
  }

  lemma Moved<T>(todo: set<T>, done: set<T>, x: T)
    requires x in todo && todo !! done
    ensures (todo - {x}) + (done + {x}) == todo + done && (todo - {x}) !! (done + {x})
  {
  }

  /** These pairs, and this timestamp's for these locks. */
  ghost function Tagged(others: set<(string, int)>, locks: set<string>, stamp: int): set<(string, int)> {
    others + set l | l in locks :: (l, stamp)
  }

  lemma OneMoreTagged(others: set<(string, int)>, locks: set<string>, stamp: int, l: string)
    requires l !in locks && forall p :: p in others ==> p.1 != stamp
    ensures Tagged(others, locks + {l}, stamp) == Tagged(others, locks, stamp) + {(l, stamp)}
    ensures (l, stamp) !in Tagged(others, locks, stamp)
  {
  }

  /** The lines of one timestamp, after those of others. */
  method LinesAt(
    v: Vocabulary, points: Points, stamp: int, byLock: map<string, Values>, ghost others: set<(string, int)>,
    before: seq<Line>, counted: multiset<string>)
    returns (ok: bool, lines: seq<Line>, counts: multiset<string>)
    requires Unambiguous(v) && counted == multiset(LocksOf(before))
    requires stamp in points && Grouped(v, byLock, points[stamp], points[stamp].Keys)
    requires AreTheLines(v, before, points, others) && forall p :: p in others ==> p.1 != stamp
    ensures ok <==> forall l :: l in byLock ==> OneLine(l)
    ensures ok ==> AreTheLines(v, lines, points, Tagged(others, byLock.Keys, stamp))
    ensures ok ==> counts == multiset(LocksOf(lines))
  {
    lines, counts := before, counted;
    var todo, done := byLock.Keys, {};
    assert Tagged(others, done, stamp) == others;
    while todo != {}
      invariant todo !! done && todo + done == byLock.Keys
      invariant forall l :: l in done ==> OneLine(l)
      invariant AreTheLines(v, lines, points, Tagged(others, done, stamp))
      invariant counts == multiset(LocksOf(lines))
      decreases |todo|
    {
      var l :| l in todo;
      if !OneLine(l) {
        return false, lines, counts;
      }
      GroupsAreLockFields(v, byLock, points[stamp], l);
      var line := Line(l, stamp, RewrittenGroup(v, byLock[l]));
      assert line == Line(l, stamp, LineFields(v, points, l, stamp));
      OneMoreTagged(others, done, stamp, l);
      OneMoreLine(v, lines, points, Tagged(others, done, stamp), line);
      lines, counts := lines + [line], counts + multiset{l};
      Moved(todo, done, l);
      todo, done := todo - {l}, done + {l};
    }
    assert done == byLock.Keys;
    ok := true;
  }

  lemma OneMoreLine(v: Vocabulary, lines: seq<Line>, points: Points, pairs: set<(string, int)>, more: Line)
    requires AreTheLines(v, lines, points, pairs) && (more.lock, more.stamp) !in pairs
    requires more.fields == LineFields(v, points, more.lock, more.stamp)
    ensures AreTheLines(v, lines + [more], points, pairs + {(more.lock, more.stamp)})
    ensures multiset(LocksOf(lines + [more])) == multiset(LocksOf(lines)) + multiset{more.lock}
  {
    var all := lines + [more];
    assert forall i :: 0 <= i < |lines| ==> all[i] == lines[i];
    assert all[|lines|] == more && all[..|lines|] == lines;
  }

  /** The pairs whose timestamp is one of these. */
  ghost function PairsAt(v: Vocabulary, points: Points, stamps: set<int>): set<(string, int)> {
    set p | p in Pairs(v, points) && p.1 in stamps
  }

  /** One timestamp's part of the rewriting. */
  method RewriteAt(
    v: Vocabulary, points: Points, stamp: int, ghost others: set<(string, int)>, before: seq<Line>,
    counted: multiset<string>)
    returns (ok: bool, lines: seq<Line>, counts: multiset<string>)
    requires Unambiguous(v) && stamp in points && counted == multiset(LocksOf(before))
    requires AreTheLines(v, before, points, others) && forall p :: p in others ==> p.1 != stamp
    ensures ok <==> SplitAt(v, points[stamp])
    ensures ok ==> AreTheLines(v, lines, points, others + PairsAt(v, points, {stamp}))
    ensures ok ==> counts == multiset(LocksOf(lines))
  {
    var split, byLock := GroupByLock(v, points[stamp]);
    if !split {
      return false, before, counted;
    }
    ok, lines, counts := LinesAt(v, points, stamp, byLock, others, before, counted);
    GroupsAreSplit(v, byLock, points[stamp]);
    GroupsAreAllThePairs(v, byLock, points, stamp);
    LocksAreTagged(v, points, stamp, others, byLock.Keys);
  }

  predicate SplitAt(v: Vocabulary, values: Values) {
    forall key :: key in values ==> SplitKey(v, key).Some? && OneLine(SplitKey(v, key).value.0)
  }

  lemma GroupsAreAllThePairs(v: Vocabulary, byLock: map<string, Values>, points: Points, stamp: int)
    requires Unambiguous(v) && stamp in points && Grouped(v, byLock, points[stamp], points[stamp].Keys)
    ensures forall l :: (l, stamp) in Pairs(v, points) <==> l in byLock.Keys
  {
    forall l: string
      ensures (l, stamp) in Pairs(v, points) <==> l in byLock.Keys
    {
      GroupsAreThePairs(v, byLock, points, stamp, l);
    }
  }

  lemma LocksAreTagged(v: Vocabulary, points: Points, stamp: int, others: set<(string, int)>, locks: set<string>)
    requires forall l :: (l, stamp) in Pairs(v, points) <==> l in locks
    ensures Tagged(others, locks, stamp) == others + PairsAt(v, points, {stamp})
  {
    var here := set l | l in locks :: (l, stamp);
    forall p: (string, int)
      ensures p in here <==> p in PairsAt(v, points, {stamp})
    {
      assert p == (p.0, p.1);
    }
    assert here == PairsAt(v, points, {stamp});
  }

  lemma GroupsAreSplit(v: Vocabulary, byLock: map<string, Values>, values: Values)
    requires Grouped(v, byLock, values, values.Keys)
    ensures SplitAt(v, values) <==> forall l :: l in byLock ==> OneLine(l)
  {
    forall l | l in byLock && SplitAt(v, values)
      ensures OneLine(l)
    {
      var f :| f in byLock[l];
      assert Holds(byLock, l, f);
      var key := OldKey(l, f);
      assert Names(v, key, l, f) && key in values;
    }
    forall key | key in values
      ensures SplitKey(v, key).Some? && SplitKey(v, key).value.0 in byLock
    {
      assert SplitKey(v, key).Some?;
      assert Holds(byLock, SplitKey(v, key).value.0, SplitKey(v, key).value.1);
    }
  }

  lemma PairsAtOneMore(v: Vocabulary, points: Points, stamps: set<int>, stamp: int)
    ensures PairsAt(v, points, stamps) + PairsAt(v, points, {stamp}) == PairsAt(v, points, stamps + {stamp})
  {
  }

  lemma PairsAtAll(v: Vocabulary, points: Points)
    ensures PairsAt(v, points, points.Keys) == Pairs(v, points)
  {
  }

  /** `iter_rewritten_lines`: every old point rewritten, or a halt at a key that does not split or a
      lock that cannot be a tag. Each pair's fields go into exactly one line. */
  method RewrittenLines(v: Vocabulary, points: Points) returns (ok: bool, lines: seq<Line>, counts: multiset<string>)
    requires Unambiguous(v)
    ensures ok <==> AllSplit(v, points)
    ensures ok ==> AreTheLines(v, lines, points, Pairs(v, points)) && |lines| == |Pairs(v, points)|
    ensures ok ==> counts == multiset(LocksOf(lines)) && |counts| == |lines|
  {
    lines, counts := [], multiset{};
    var todo, done := points.Keys, {};
    while todo != {}
      invariant todo !! done && todo + done == points.Keys
      invariant forall stamp :: stamp in done ==> SplitAt(v, points[stamp])
      invariant AreTheLines(v, lines, points, PairsAt(v, points, done))
      invariant counts == multiset(LocksOf(lines))
      decreases |todo|
    {
      SomeStamp(todo);
      var stamp :| stamp in todo;
      ok, lines, counts := RewriteAt(v, points, stamp, PairsAt(v, points, done), lines, counts);
      if !ok {
        return;
      }
      PairsAtOneMore(v, points, done, stamp);
      Moved(todo, done, stamp);
      todo, done := todo - {stamp}, done + {stamp};
    }
    assert done == points.Keys;
    PairsAtAll(v, points);
    LinesCountPairs(lines, Pairs(v, points));
    OneLockPerLine(lines);
    ok := true;
  }

  lemma {:induction false} OneLockPerLine(lines: seq<Line>)
    ensures |LocksOf(lines)| == |lines|
  {
    if lines != [] {
      OneLockPerLine(lines[..|lines| - 1]);
    }
  }

  lemma {:induction false} LinesCountPairs(lines: seq<Line>, pairs: set<(string, int)>)
    requires OncePerPair(lines)
    requires forall i :: 0 <= i < |lines| ==> (lines[i].lock, lines[i].stamp) in pairs
    requires forall p :: p in pairs ==> exists i :: 0 <= i < |lines| && (lines[i].lock, lines[i].stamp) == p
    ensures |lines| == |pairs|
  {
    if lines == [] {
      assert pairs == {};
    } else {
      var n := |lines| - 1;
      var p := (lines[n].lock, lines[n].stamp);
      forall q | q in pairs - {p}
        ensures exists i :: 0 <= i < n && (lines[..n][i].lock, lines[..n][i].stamp) == q
      {
        var i :| 0 <= i < |lines| && (lines[i].lock, lines[i].stamp) == q;
        assert lines[..n][i] == lines[i];
      }
      LinesCountPairs(lines[..n], pairs - {p});
    }
  }

  // ---------- nothing is lost in the rewriting ----------

  /** Every value read is in exactly one line, under its lock, timestamp and field; and every field
      of every line is a value that was read. */
  lemma EachValueIsInOneLine(v: Vocabulary, points: Points, lines: seq<Line>, stamp: int, key: string)
    requires Unambiguous(v)
    requires AllSplit(v, points) && AreTheLines(v, lines, points, Pairs(v, points)) && Has(points, stamp, key)
    ensures exists i :: 0 <= i < |lines| && Carries(v, lines[i], points, stamp, key)
    ensures forall i, j :: 0 <= i < |lines| && 0 <= j < |lines| && i != j ==>
              !(Carries(v, lines[i], points, stamp, key) && Carries(v, lines[j], points, stamp, key))
  {
    var (l, f) := SplitKey(v, key).value;
    SplittingInvertsNaming(v, key, l, f);
    assert (l, stamp) in Pairs(v, points);
    var i :| 0 <= i < |lines| && (lines[i].lock, lines[i].stamp) == (l, stamp);
    assert Carries(v, lines[i], points, stamp, key);
  }

  /** Nothing in any line was made up: each of its values is that of an old point, under the key the
      line's lock and field had. */
  lemma EachFieldIsAnOldValue(v: Vocabulary, points: Points, lines: seq<Line>, i: nat, field: string)
    requires Unambiguous(v)
    requires AreTheLines(v, lines, points, Pairs(v, points)) && i < |lines| && field in lines[i].fields
    ensures var key := OldKey(lines[i].lock, field);
            && Has(points, lines[i].stamp, key) && Names(v, key, lines[i].lock, field)
            && lines[i].fields[field] == Rewritten(v, field, points[lines[i].stamp][key])
  {
    LockFieldsAreTheNamedOnes(v, points[lines[i].stamp], lines[i].lock, field);
  }

  predicate Carries(v: Vocabulary, line: Line, points: Points, stamp: int, key: string)
    requires Has(points, stamp, key)
  {
    var split := SplitKey(v, key);
    && split.Some? && line.lock == split.value.0 && line.stamp == stamp
    && split.value.1 in line.fields
    && line.fields[split.value.1] == Rewritten(v, split.value.1, points[stamp][key])
  }
  // ---------- rebuilding the old points ----------

  /** What a line says the old point held. */
  predicate Says(line: Line, stamp: int, key: string, value: FieldValue) {
    line.stamp == stamp
    && exists field :: field in line.fields && key == OldKey(line.lock, field) && value == line.fields[field]
  }

  lemma WhatWasReadIsSaid(v: Vocabulary, points: Points, lines: seq<Line>, stamp: int, key: string)
    requires Unambiguous(v) && AllSplit(v, points) && AreTheLines(v, lines, points, Pairs(v, points))
    requires Has(points, stamp, key)
    ensures exists i :: 0 <= i < |lines|
              && Says(lines[i], stamp, key, Rewritten(v, SplitKey(v, key).value.1, points[stamp][key]))
  {
    var (l, f) := SplitKey(v, key).value;
    EachValueIsInOneLine(v, points, lines, stamp, key);
    NamedIsOldKey(v, key, l, f);
    var i :| 0 <= i < |lines| && Carries(v, lines[i], points, stamp, key);
    assert Says(lines[i], stamp, key, lines[i].fields[f]);
  }

  lemma WhatIsSaidWasRead(
    v: Vocabulary, points: Points, lines: seq<Line>, i: nat, stamp: int, key: string, value: FieldValue)
    requires Unambiguous(v) && AreTheLines(v, lines, points, Pairs(v, points))
    requires i < |lines| && Says(lines[i], stamp, key, value)
    ensures Has(points, stamp, key) && SplitKey(v, key).Some?
    ensures value == Rewritten(v, SplitKey(v, key).value.1, points[stamp][key])
  {
    var field :| field in lines[i].fields && key == OldKey(lines[i].lock, field) && value == lines[i].fields[field];
    EachFieldIsAnOldValue(v, points, lines, i, field);
  }

  /** The lines say exactly one value of each old key: the one that was read, unless it was a number
      under a field that is text, which comes back as the text of it. */
  lemma OldPointsCanBeRebuilt(
    v: Vocabulary, points: Points, lines: seq<Line>, stamp: int, key: string, value: FieldValue)
    requires Unambiguous(v) && AllSplit(v, points) && AreTheLines(v, lines, points, Pairs(v, points))
    ensures (exists i :: 0 <= i < |lines| && Says(lines[i], stamp, key, value)) <==>
              && Has(points, stamp, key)
              && value == (if points[stamp][key].Bare? && SplitKey(v, key).value.1 in v.text
                           then Text(points[stamp][key].digits) else points[stamp][key])
  {
    if Has(points, stamp, key) {
      WhatWasReadIsSaid(v, points, lines, stamp, key);
    }
    forall i | 0 <= i < |lines| && Says(lines[i], stamp, key, value)
      ensures Has(points, stamp, key) && SplitKey(v, key).Some?
      ensures value == Rewritten(v, SplitKey(v, key).value.1, points[stamp][key])
    {
      WhatIsSaidWasRead(v, points, lines, i, stamp, key, value);
    }
  }

  /** A point read with this one value. */
  function OneReading(stamp: int, key: string, value: FieldValue): Points {
    map[stamp := map[key := value]]
  }

  lemma ANumberUnderATextField(
    v: Vocabulary, lock: string, field: string, stamp: int, digits: string, lines: seq<Line>)
    requires Unambiguous(v) && field in v.known && field in v.text && lock != "" && OneLine(lock)
    requires var points := OneReading(stamp, OldKey(lock, field), Bare(digits));
             AreTheLines(v, lines, points, Pairs(v, points))
    ensures exists i :: 0 <= i < |lines| && Says(lines[i], stamp, OldKey(lock, field), Text(digits))
    ensures forall i :: 0 <= i < |lines| ==> !Says(lines[i], stamp, OldKey(lock, field), Bare(digits))
  {
    var key := OldKey(lock, field);
    var points := OneReading(stamp, key, Bare(digits));
    SplittingInvertsNaming(v, key, lock, field);
    assert Has(points, stamp, key);
    OldPointsCanBeRebuilt(v, points, lines, stamp, key, Text(digits));
    OldPointsCanBeRebuilt(v, points, lines, stamp, key, Bare(digits));
  }

  lemma FirmwareIsKnown()
    ensures "firmware" in NUKI.known && "firmware" in NUKI.text
  {
    assert LOCK_FIELDS[5] == "firmware";
    assert NUKI.known[5] == "firmware";
  }

  /** An old point that does not come back as it was: a lock's firmware, stored as a number. The lines
      written for it say the text of the number and nowhere the number. */
  lemma AFirmwareStoredAsANumber(lock: string, stamp: int, digits: string, lines: seq<Line>)
    requires lock != "" && OneLine(lock)
    requires var points := OneReading(stamp, OldKey(lock, "firmware"), Bare(digits));
             AreTheLines(NUKI, lines, points, Pairs(NUKI, points))
    ensures exists i :: 0 <= i < |lines| && Says(lines[i], stamp, OldKey(lock, "firmware"), Text(digits))
    ensures forall i :: 0 <= i < |lines| ==> !Says(lines[i], stamp, OldKey(lock, "firmware"), Bare(digits))
  {
    NukiIsSpelled();
    FirmwareIsKnown();
    ANumberUnderATextField(NUKI, lock, "firmware", stamp, digits, lines);
  }
}
