/** The migration as it is run: a rewrite that writes in chunks and then leaves a manifest, a delete
    that only a manifest can start, either of them ended anywhere and run again
    (phase_rewrite, _write_all, phase_delete and _drop_old_series in
    scripts/migrate-nuki-device-tag.py). */
module MigrationRuns {
  import opened LineProtocol
  import opened Migration
  import InfluxQL

  const CHUNK := 500

  // ---------- one installation and its runs ----------

  /** `history` is every host-tagged row there was, in the order InfluxDB returns them; nothing adds to
      it while the migration lasts. */
  datatype Job = Job(v: Vocabulary, history: seq<Row>, database: string)

  datatype Manifest = Broken | Complete(database: string, hosts: set<string>)

  /** What a run of the script is doing. A rewrite that meets a key it cannot split is not `whole`: it
      writes some of its lines and halts. */
  datatype Doing =
    | Resting
    | Writing(path: string, points: Points, left: set<(string, int)>, whole: bool)
    | Manifesting(path: string, hosts: set<string>)
    | Dropping(hosts: set<string>)

  /** The device-tagged points, by lock and timestamp: the rewrite's, and those the new collector has
      been writing since the upgrade. */
  type New = map<(string, int), Values>

  /** `gone` are the hosts whose series have been dropped; the old points left are the others'. A
      path that is not in `manifests` is a file that does not exist. */
  datatype System = System(gone: set<string>, new_: New, manifests: map<string, Manifest>, doing: Doing)

  /** A chunk may be applied in part, so any of the lines left may be written, up to CHUNK at once.
      `Collect` is the new collector, at work throughout, writing what it likes where it likes. */
  datatype Step =
    | StartRewrite(path: string, left: set<(string, int)>)
    | WriteChunk(lines: set<(string, int)>)
    | OpenManifest
    | CloseManifest
    | StartDelete(path: string)
    | Drop(host: string)
    | Stop
    | Collect(pair: (string, int), fields: Values)

  function Without(rows: seq<Row>, gone: set<string>): seq<Row> {
    if rows == [] then []
    else
      var n := |rows| - 1;
      Without(rows[..n], gone) + if rows[n].host in gone then [] else [rows[n]]
  }

  function OldPoints(job: Job, s: System): Points {
    Merged(Without(job.history, s.gone))
  }

  function Hosts(rows: seq<Row>): set<string> {
    set i | 0 <= i < |rows| :: rows[i].host
  }

  ghost predicate Enabled(job: Job, s: System, step: Step) {
    match step
    case StartRewrite(_, left) =>
      var points := OldPoints(job, s);
      && s.doing.Resting? && points != map[] && left <= Pairs(job.v, points)
      && (AllSplit(job.v, points) ==> left == Pairs(job.v, points))
    case WriteChunk(lines) => s.doing.Writing? && lines <= s.doing.left && |lines| <= CHUNK
    case OpenManifest => s.doing.Writing? && s.doing.left == {} && s.doing.whole
    case CloseManifest => s.doing.Manifesting?
    case StartDelete(path) =>
      && s.doing.Resting? && path in s.manifests && s.manifests[path].Complete?
      && s.manifests[path].database == job.database && s.manifests[path].hosts != {}
    case Drop(host) => s.doing.Dropping? && host in s.doing.hosts
    case Stop => true
    case Collect(_, _) => true
  }

  /** Writing over a point replaces the fields that are written and keeps the others. */
  function Written(v: Vocabulary, new_: New, points: Points, lines: set<(string, int)>): New {
    map p | p in new_.Keys + lines ::
      (if p in new_ then new_[p] else map[]) + (if p in lines then LineFields(v, points, p.0, p.1) else map[])
  }

  /** The rewrite opens its manifest for appending before it writes anything, which leaves an empty
      file where there was none, and for writing when it is done, which empties it. */
  ghost function Next(job: Job, s: System, step: Step): System
    requires Enabled(job, s, step)
  {
    match step
    case StartRewrite(path, left) =>
      var points := OldPoints(job, s);
      s.(manifests := if path in s.manifests then s.manifests else s.manifests[path := Broken],
         doing := Writing(path, points, left, AllSplit(job.v, points)))
    case WriteChunk(lines) =>
      s.(new_ := Written(job.v, s.new_, s.doing.points, lines), doing := s.doing.(left := s.doing.left - lines))
    case OpenManifest =>
      s.(manifests := s.manifests[s.doing.path := Broken],
         doing := Manifesting(s.doing.path, Hosts(Without(job.history, s.gone))))
    case CloseManifest =>
      s.(manifests := s.manifests[s.doing.path := Complete(job.database, s.doing.hosts)], doing := Resting)
    case StartDelete(path) => s.(doing := Dropping(s.manifests[path].hosts))
    case Drop(host) => s.(gone := s.gone + InfluxQL.Dropped(host), doing := Dropping(s.doing.hosts - {host}))
    case Stop => s.(doing := Resting)
    case Collect(pair, fields) =>
      s.(new_ := s.new_[pair := (if pair in s.new_ then s.new_[pair] else map[]) + fields])
  }

  ghost predicate Run(job: Job, steps: seq<Step>, states: seq<System>) {
    && |states| == |steps| + 1
    && forall i :: 0 <= i < |steps| ==>
         Enabled(job, states[i], steps[i]) && states[i + 1] == Next(job, states[i], steps[i])
  }

  /** Any device-tagged points may be there already, and manifests may lie about from other databases,
      but none from this one. */
  ghost predicate Initial(job: Job, s: System) {
    && s.gone == {} && s.doing.Resting?
    && forall path :: path in s.manifests ==> !Vouches(job, s.manifests[path])
  }

  predicate Vouches(job: Job, m: Manifest) {
    m.Complete? && m.database == job.database
  }

  /** The history holds old keys only, and no two rows disagree on a key at one timestamp. */
  ghost predicate Migratable(job: Job) {
    && Unambiguous(job.v)
    && (forall i, key :: 0 <= i < |job.history| && key in job.history[i].values ==> OldStyle(key))
    && (forall i, j, key :: 0 <= i < |job.history| && 0 <= j < |job.history|
          && job.history[i].stamp == job.history[j].stamp
          && key in job.history[i].values && key in job.history[j].values
          ==> job.history[i].values[key] == job.history[j].values[key])
  }

  /** No field the new collector writes disagrees with the history's line for the same lock and
      timestamp, where there is one. */
  ghost predicate CollectsInAgreement(job: Job, step: Step) {
    step.Collect? ==>
      var line := LineFields(job.v, Merged(job.history), step.pair.0, step.pair.1);
      forall f :: f in step.fields && f in line ==> step.fields[f] == line[f]
  }

  ghost predicate Agreeing(job: Job, steps: seq<Step>) {
    forall i :: 0 <= i < |steps| ==> CollectsInAgreement(job, steps[i])
  }

  // ---------- fewer rows, fewer points ----------

  lemma {:induction false} WithoutKeeps(rows: seq<Row>, gone: set<string>)
    ensures forall i :: 0 <= i < |Without(rows, gone)| ==> Without(rows, gone)[i] in rows
    ensures gone == {} ==> Without(rows, gone) == rows
  {
    if rows != [] {
      WithoutKeeps(rows[..|rows| - 1], gone);
      assert rows == rows[..|rows| - 1] + [rows[|rows| - 1]];
    }
  }

  ghost predicate Within(part: Points, whole: Points) {
    forall stamp, key :: Has(part, stamp, key) ==> Has(whole, stamp, key) && part[stamp][key] == whole[stamp][key]
  }

  lemma RowsLeftAreWithin(job: Job, gone: set<string>)
    requires Migratable(job)
    ensures Within(Merged(Without(job.history, gone)), Merged(job.history))
  {
    var rows := Without(job.history, gone);
    WithoutKeeps(job.history, gone);
    forall stamp, key | Has(Merged(rows), stamp, key)
      ensures Has(Merged(job.history), stamp, key) && Merged(rows)[stamp][key] == Merged(job.history)[stamp][key]
    {
      MergedIsWhatTheRowsHave(rows, stamp, key);
      var i :| 0 <= i < |rows| && RowHas(rows[i], stamp, key) && rows[i].values[key] == Merged(rows)[stamp][key];
      assert rows[i] in job.history;
      ReadingIsMerged(job, rows[i], key);
    }
  }

  /** Where the rows agree, what is read at a timestamp is what each row has there. */
  lemma ReadingIsMerged(job: Job, row: Row, key: string)
    requires Migratable(job) && row in job.history && key in row.values
    ensures Has(Merged(job.history), row.stamp, key) && Merged(job.history)[row.stamp][key] == row.values[key]
  {
    var i :| 0 <= i < |job.history| && job.history[i] == row;
    assert OldStyle(key);
    assert RowHas(job.history[i], row.stamp, key);
    MergedIsWhatTheRowsHave(job.history, row.stamp, key);
  }

  lemma LineFieldsWithin(v: Vocabulary, part: Points, whole: Points, lock: string, stamp: int)
    requires Unambiguous(v) && Within(part, whole)
    ensures forall f :: f in LineFields(v, part, lock, stamp) ==>
              f in LineFields(v, whole, lock, stamp)
              && LineFields(v, part, lock, stamp)[f] == LineFields(v, whole, lock, stamp)[f]
  {
    if stamp in part {
      forall f | f in LineFields(v, part, lock, stamp)
        ensures f in LineFields(v, whole, lock, stamp)
        ensures LineFields(v, part, lock, stamp)[f] == LineFields(v, whole, lock, stamp)[f]
      {
        LockFieldsAreTheNamedOnes(v, part[stamp], lock, f);
        assert Has(part, stamp, OldKey(lock, f));
        LockFieldsAreTheNamedOnes(v, whole[stamp], lock, f);
      }
    }
  }

  // ---------- what every step keeps ----------

  /** Every field of these is one of those, with the same value. */
  ghost predicate Part(some: Values, all: Values) {
    forall f :: f in some ==> f in all && some[f] == all[f]
  }

  /** Every pair of these has been written. */
  ghost predicate Done(v: Vocabulary, new_: New, points: Points, pairs: set<(string, int)>) {
    forall p :: p in pairs ==> p in new_ && Part(LineFields(v, points, p.0, p.1), new_[p])
  }

  ghost predicate Carried(job: Job, new_: New) {
    AllSplit(job.v, Merged(job.history)) && Done(job.v, new_, Merged(job.history), Pairs(job.v, Merged(job.history)))
  }

  /** Something stands that a delete could come of, or has come of. */
  ghost predicate Committed(job: Job, s: System) {
    || s.gone != {} || s.doing.Manifesting? || s.doing.Dropping?
    || exists path :: path in s.manifests && Vouches(job, s.manifests[path])
  }

  ghost predicate Safe(job: Job, s: System) {
    && (Committed(job, s) ==> Carried(job, s.new_))
    && (s.doing.Writing? ==>
          && s.doing.points == OldPoints(job, s) && Within(s.doing.points, Merged(job.history))
          && s.doing.left <= Pairs(job.v, s.doing.points)
          && s.doing.whole == AllSplit(job.v, s.doing.points)
          && (s.doing.whole ==> Done(job.v, s.new_, s.doing.points, Pairs(job.v, s.doing.points) - s.doing.left)))
  }

  /** A rewrite that starts here reads nothing the whole history does not say, and the new collector
      writes nothing it contradicts. */
  ghost predicate ReadsTrue(job: Job, s: System, step: Step) {
    && (step.StartRewrite? ==> Within(OldPoints(job, s), Merged(job.history)))
    && CollectsInAgreement(job, step)
  }

  /** Writing lines of points within the history leaves done what was done: what it writes over a line
      of the history is that line, or part of it. */
  lemma WritingKeepsDone(
    v: Vocabulary, new_: New, points: Points, history: Points, pairs: set<(string, int)>, lines: set<(string, int)>)
    requires Unambiguous(v) && Within(points, history) && Done(v, new_, history, pairs)
    ensures Done(v, Written(v, new_, points, lines), history, pairs)
  {
    forall p | p in pairs
      ensures Part(LineFields(v, history, p.0, p.1), Written(v, new_, points, lines)[p])
    {
      LineFieldsWithin(v, points, history, p.0, p.1);
      assert Part(LineFields(v, history, p.0, p.1), new_[p]);
    }
  }

  lemma ChunkIsDone(
    v: Vocabulary, new_: New, points: Points, pairs: set<(string, int)>, left: set<(string, int)>,
    lines: set<(string, int)>)
    requires Unambiguous(v) && Done(v, new_, points, pairs - left) && lines <= left <= pairs
    ensures Done(v, Written(v, new_, points, lines), points, pairs - (left - lines))
  {
    WritingKeepsDone(v, new_, points, points, pairs - left, lines);
  }

  lemma ChunkKeepsSafe(job: Job, s: System, lines: set<(string, int)>)
    requires Unambiguous(job.v) && Safe(job, s) && Enabled(job, s, WriteChunk(lines))
    ensures Safe(job, Next(job, s, WriteChunk(lines)))
  {
    var v, points, history := job.v, s.doing.points, Merged(job.history);
    AChunkCommitsNothing(job, s, lines);
    if Committed(job, s) {
      WritingKeepsDone(v, s.new_, points, history, Pairs(v, history), lines);
    }
    if s.doing.whole {
      ChunkIsDone(v, s.new_, points, Pairs(v, points), s.doing.left, lines);
    }
    WhatAChunkLeaves(job, s, lines);
  }

  lemma AChunkCommitsNothing(job: Job, s: System, lines: set<(string, int)>)
    requires Enabled(job, s, WriteChunk(lines))
    ensures Committed(job, Next(job, s, WriteChunk(lines))) <==> Committed(job, s)
  {
  }

  lemma WhatAChunkLeaves(job: Job, s: System, lines: set<(string, int)>)
    requires Enabled(job, s, WriteChunk(lines))
    ensures var after := Next(job, s, WriteChunk(lines));
            && after.gone == s.gone && after.new_ == Written(job.v, s.new_, s.doing.points, lines)
            && after.doing == Writing(s.doing.path, s.doing.points, s.doing.left - lines, s.doing.whole)
  {
  }

  /** Collecting leaves done what was done, of the history or of any points within it. */
  lemma CollectingKeepsDone(job: Job, s: System, step: Step, points: Points, pairs: set<(string, int)>)
    requires Unambiguous(job.v) && Within(points, Merged(job.history)) && Done(job.v, s.new_, points, pairs)
    requires step.Collect? && Enabled(job, s, step) && CollectsInAgreement(job, step)
    ensures Done(job.v, Next(job, s, step).new_, points, pairs)
  {
    var v, after := job.v, Next(job, s, step).new_;
    forall p | p in pairs
      ensures p in after && Part(LineFields(v, points, p.0, p.1), after[p])
    {
      assert Part(LineFields(v, points, p.0, p.1), s.new_[p]);
      LineFieldsWithin(v, points, Merged(job.history), p.0, p.1);
    }
  }

  lemma CollectKeepsSafe(job: Job, s: System, step: Step)
    requires Unambiguous(job.v) && Safe(job, s)
    requires step.Collect? && Enabled(job, s, step) && CollectsInAgreement(job, step)
    ensures Safe(job, Next(job, s, step))
  {
    var v, history := job.v, Merged(job.history);
    if Committed(job, s) {
      CollectingKeepsDone(job, s, step, history, Pairs(v, history));
    }
    if s.doing.Writing? && s.doing.whole {
      CollectingKeepsDone(job, s, step, s.doing.points, Pairs(v, s.doing.points) - s.doing.left);
    }
  }

  lemma StepKeepsSafe(job: Job, s: System, step: Step)
    requires Unambiguous(job.v) && Safe(job, s) && Enabled(job, s, step) && ReadsTrue(job, s, step)
    ensures Safe(job, Next(job, s, step))
  {
    match step {
      case WriteChunk(lines) => ChunkKeepsSafe(job, s, lines);
      case OpenManifest => WholeRewriteCarries(job, s);
      case Collect(_, _) => CollectKeepsSafe(job, s, step);
      case _ =>
    }
  }

  lemma WholeRewriteCarries(job: Job, s: System)
    requires Safe(job, s) && Enabled(job, s, OpenManifest)
    ensures Carried(job, s.new_)
  {
    if s.gone == {} {
      WithoutKeeps(job.history, s.gone);
    }
  }

  lemma {:induction false} RunIsSafe(job: Job, steps: seq<Step>, states: seq<System>, n: nat)
    requires Unambiguous(job.v) && Run(job, steps, states) && Initial(job, states[0]) && n < |states|
    requires forall i :: 0 <= i < n ==> ReadsTrue(job, states[i], steps[i])
    ensures Safe(job, states[n])
  {
    if n > 0 {
      RunIsSafe(job, steps, states, n - 1);
      StepKeepsSafe(job, states[n - 1], steps[n - 1]);
    }
  }

  /** Where the rows agree, every rewrite reads true, whatever has been dropped before it. */
  lemma AgreeingRunIsSafe(job: Job, steps: seq<Step>, states: seq<System>, n: nat)
    requires Migratable(job) && Run(job, steps, states) && Initial(job, states[0]) && n < |states|
    requires Agreeing(job, steps)
    ensures Safe(job, states[n])
  {
    forall i | 0 <= i < n
      ensures ReadsTrue(job, states[i], steps[i])
    {
      RowsLeftAreWithin(job, states[i].gone);
    }
    RunIsSafe(job, steps, states, n);
  }

  /** Whatever is collected, a rewrite has read the rows that are left, and nothing is dropped while it
      writes. */
  ghost predicate Reading(job: Job, s: System) {
    s.doing.Writing? ==>
      && s.doing.points == OldPoints(job, s) && s.doing.left <= Pairs(job.v, s.doing.points)
      && s.doing.whole == AllSplit(job.v, s.doing.points)
  }

  lemma StepKeepsReading(job: Job, s: System, step: Step)
    requires Reading(job, s) && Enabled(job, s, step)
    ensures Reading(job, Next(job, s, step))
  {
  }

  lemma {:induction false} RunReads(job: Job, steps: seq<Step>, states: seq<System>, n: nat)
    requires Run(job, steps, states) && Initial(job, states[0]) && n < |states|
    ensures Reading(job, states[n])
  {
    if n > 0 {
      RunReads(job, steps, states, n - 1);
      StepKeepsReading(job, states[n - 1], steps[n - 1]);
    }
  }

  // ---------- no reading is ever lost ----------

  predicate HeldByOld(s: System, row: Row) {
    row.host !in s.gone
  }

  predicate HeldByNew(v: Vocabulary, new_: New, row: Row, key: string)
    requires key in row.values
  {
    var split := SplitKey(v, key);
    && split.Some? && (split.value.0, row.stamp) in new_
    && split.value.1 in new_[(split.value.0, row.stamp)]
    && new_[(split.value.0, row.stamp)][split.value.1] == Rewritten(v, split.value.1, row.values[key])
  }

  /** At every point of every run, however often and wherever either phase was ended and run again, and
      whatever device-tagged points were there before or are written meanwhile in agreement with the
      history, each old reading is held by its old point or by its new one. */
  lemma EveryReadingIsHeld(job: Job, steps: seq<Step>, states: seq<System>, n: nat, row: Row, key: string)
    requires Migratable(job) && Run(job, steps, states) && Initial(job, states[0]) && n < |states|
    requires Agreeing(job, steps) && row in job.history && key in row.values
    ensures HeldByOld(states[n], row) || HeldByNew(job.v, states[n].new_, row, key)
  {
    AgreeingRunIsSafe(job, steps, states, n);
    if !HeldByOld(states[n], row) {
      ReadingIsMerged(job, row, key);
      CarriedIsHeld(job, states[n].new_, row, key);
    }
  }

  /** Of a carried history, a reading is held exactly where what was read for its timestamp is, once
      rewritten, what the reading is. */
  lemma CarriedIsHeld(job: Job, new_: New, row: Row, key: string)
    requires Unambiguous(job.v) && Carried(job, new_) && key in row.values
    requires Has(Merged(job.history), row.stamp, key)
    ensures SplitKey(job.v, key).Some?
    ensures HeldByNew(job.v, new_, row, key) <==>
              SameOnceWritten(job.v, key, Merged(job.history)[row.stamp][key], row.values[key])
  {
    var points := Merged(job.history);
    assert SplitAt(job.v, points[row.stamp]);
    var (l, f) := SplitKey(job.v, key).value;
    NamedIsOldKey(job.v, key, l, f);
    InPairs(job.v, points, row.stamp, key, l, f);
    LockFieldsAreTheNamedOnes(job.v, points[row.stamp], l, f);
    assert Part(LineFields(job.v, points, l, row.stamp), new_[(l, row.stamp)]);
  }

  /** Two values of a key that the rewriting writes alike. */
  predicate SameOnceWritten(v: Vocabulary, key: string, a: FieldValue, b: FieldValue) {
    var split := SplitKey(v, key);
    split.Some? && Rewritten(v, split.value.1, a) == Rewritten(v, split.value.1, b)
  }

  /** Nothing is dropped unless some rewrite of this database has finished and left its manifest, and
      by then every reading is in its new point; and what is dropped is the series of one host the
      manifest names, with every device-tagged point left as it was. */
  lemma NothingIsDroppedUncarried(job: Job, steps: seq<Step>, states: seq<System>, n: nat)
    requires Migratable(job) && Run(job, steps, states) && Initial(job, states[0]) && n < |steps|
    requires Agreeing(job, steps) && states[n + 1].gone != states[n].gone
    ensures Carried(job, states[n].new_)
    ensures steps[n].Drop? && steps[n].host in states[n].doing.hosts
    ensures states[n + 1].gone == states[n].gone + {steps[n].host}
    ensures states[n + 1].new_ == states[n].new_ && states[n + 1].manifests == states[n].manifests
  {
    AgreeingRunIsSafe(job, steps, states, n);
  }

  // ---------- what a delete is driven by ----------

  /** This step finished a manifest of these hosts at this path. */
  ghost predicate Finishes(job: Job, s: System, step: Step, path: string, hosts: set<string>) {
    step.CloseManifest? && s.doing == Manifesting(path, hosts) && hosts == Hosts(Without(job.history, s.gone))
  }

  ghost predicate Reopens(s: System, step: Step, path: string) {
    step.OpenManifest? && s.doing.Writing? && s.doing.path == path
  }

  /** This manifest was finished by some step, and has not been opened to be written again. */
  ghost predicate StandsFrom(
    job: Job, steps: seq<Step>, states: seq<System>, n: nat, k: nat, path: string, hosts: set<string>)
    requires n <= |steps| < |states|
  {
    && k < n && Finishes(job, states[k], steps[k], path, hosts)
    && forall m :: k < m < n ==> !Reopens(states[m], steps[m], path)
  }

  ghost predicate EachStands(job: Job, steps: seq<Step>, states: seq<System>, n: nat)
    requires n <= |steps| < |states|
  {
    && (forall path :: path in states[n].manifests && Vouches(job, states[n].manifests[path]) ==>
          exists k: nat :: StandsFrom(job, steps, states, n, k, path, states[n].manifests[path].hosts))
    && (states[n].doing.Manifesting? ==> states[n].doing.hosts == Hosts(Without(job.history, states[n].gone)))
  }

  lemma OneManifestStands(job: Job, steps: seq<Step>, states: seq<System>, n: nat, path: string) returns (k: nat)
    requires Run(job, steps, states) && n < |steps| && EachStands(job, steps, states, n)
    requires path in states[n + 1].manifests && Vouches(job, states[n + 1].manifests[path])
    ensures StandsFrom(job, steps, states, n + 1, k, path, states[n + 1].manifests[path].hosts)
  {
    var s, step := states[n], steps[n];
    if step.CloseManifest? && s.doing.path == path {
      k := n;
    } else {
      assert path in s.manifests && s.manifests[path] == states[n + 1].manifests[path] && !Reopens(s, step, path);
      k :| StandsFrom(job, steps, states, n, k, path, s.manifests[path].hosts);
    }
  }

  lemma {:induction false} EachManifestStands(job: Job, steps: seq<Step>, states: seq<System>, n: nat)
    requires Run(job, steps, states) && Initial(job, states[0]) && n < |states|
    ensures EachStands(job, steps, states, n)
  {
    if n > 0 {
      EachManifestStands(job, steps, states, n - 1);
      forall path | path in states[n].manifests && Vouches(job, states[n].manifests[path])
        ensures exists k: nat :: StandsFrom(job, steps, states, n, k, path, states[n].manifests[path].hosts)
      {
        var k := OneManifestStands(job, steps, states, n - 1, path);
      }
    }
  }

  /** A delete starts only from a manifest that some rewrite of this database finished at that path and
      none has opened to write again since, and what it is to drop is every host whose rows were left when
      that rewrite finished: a rewrite ended while its manifest is being written leaves nothing a delete
      could start from. */
  lemma ADeleteFollowsItsManifest(job: Job, steps: seq<Step>, states: seq<System>, n: nat) returns (k: nat)
    requires Run(job, steps, states) && Initial(job, states[0]) && n < |steps| && steps[n].StartDelete?
    ensures StandsFrom(job, steps, states, n, k, steps[n].path, states[n + 1].doing.hosts)
  {
    EachManifestStands(job, steps, states, n);
    var hosts := states[n].manifests[steps[n].path].hosts;
    k :| StandsFrom(job, steps, states, n, k, steps[n].path, hosts);
  }

  // ---------- what becomes of the points that were there ----------

  /** A field already stored for this lock and timestamp, and a different one about to be written. */
  ghost predicate Disagrees(v: Vocabulary, new_: New, points: Points, p: (string, int)) {
    p in new_ && exists f :: f in new_[p] && f in LineFields(v, points, p.0, p.1)
                             && new_[p][f] != LineFields(v, points, p.0, p.1)[f]
  }

  /** The script itself touches no device-tagged point but those it writes lines for; and of those, a
      chunk keeps everything a point had if and only if no field already stored there disagrees with
      the one being written. */
  lemma AChunkKeepsWhatAgrees(job: Job, s: System, step: Step, p: (string, int))
    requires Enabled(job, s, step) && !step.Collect? && p in s.new_
    ensures p in Next(job, s, step).new_
    ensures !(step.WriteChunk? && p in step.lines) ==> Next(job, s, step).new_[p] == s.new_[p]
    ensures step.WriteChunk? && p in step.lines ==>
              (Part(s.new_[p], Next(job, s, step).new_[p]) <==> !Disagrees(job.v, s.new_, s.doing.points, p))
  {
    var after := Next(job, s, step);
    if step.WriteChunk? {
      assert after.new_ == Written(job.v, s.new_, s.doing.points, step.lines);
      if p !in step.lines {
        assert after.new_[p] == s.new_[p] + map[];
      } else if Disagrees(job.v, s.new_, s.doing.points, p) {
        var f :| f in s.new_[p] && f in LineFields(job.v, s.doing.points, p.0, p.1)
                 && s.new_[p][f] != LineFields(job.v, s.doing.points, p.0, p.1)[f];
        assert after.new_[p][f] != s.new_[p][f];
      }
    } else {
      assert after.new_ == s.new_;
    }
  }

  /** So a point for which the history has nothing is never touched by the script. */
  lemma PointsOutsideTheHistoryAreKept(job: Job, steps: seq<Step>, states: seq<System>, n: nat, p: (string, int))
    requires Migratable(job) && Run(job, steps, states) && Initial(job, states[0]) && n < |steps|
    requires !steps[n].Collect? && p in states[n].new_ && p !in Pairs(job.v, Merged(job.history))
    ensures p in states[n + 1].new_ && states[n + 1].new_[p] == states[n].new_[p]
  {
    RunReads(job, steps, states, n);
    AChunkKeepsWhatAgrees(job, states[n], steps[n], p);
    if steps[n].WriteChunk? && p in steps[n].lines {
      RowsLeftAreWithin(job, states[n].gone);
      PairsWithin(job.v, states[n].doing.points, Merged(job.history), p);
    }
  }

  lemma AChunkOfWhatIsThere(job: Job, s: System, lines: set<(string, int)>)
    requires Unambiguous(job.v) && Safe(job, s) && Carried(job, s.new_) && Enabled(job, s, WriteChunk(lines))
    ensures Next(job, s, WriteChunk(lines)).new_ == s.new_
  {
    var v, points, history := job.v, s.doing.points, Merged(job.history);
    forall p | p in lines
      ensures p in s.new_ && Part(LineFields(v, points, p.0, p.1), s.new_[p])
    {
      LineFieldsWithin(v, points, history, p.0, p.1);
      PairsWithin(v, points, history, p);
      assert Part(LineFields(v, history, p.0, p.1), s.new_[p]);
    }
    WritingAgain(v, s.new_, points, lines);
  }

  /** Once a rewrite has finished and left its manifest, no chunk of any later rewrite changes any point
      at all, whatever has been dropped, or collected in agreement, in between. */
  lemma RewritingAgainChangesNothing(job: Job, steps: seq<Step>, states: seq<System>, n: nat)
    requires Migratable(job) && Run(job, steps, states) && Initial(job, states[0]) && n < |steps|
    requires Agreeing(job, steps) && steps[n].WriteChunk? && Committed(job, states[n])
    ensures states[n + 1].new_ == states[n].new_
  {
    AgreeingRunIsSafe(job, steps, states, n);
    AChunkOfWhatIsThere(job, states[n], steps[n].lines);
  }

  lemma PairsWithin(v: Vocabulary, part: Points, whole: Points, p: (string, int))
    requires Within(part, whole) && p in Pairs(v, part)
    ensures p in Pairs(v, whole)
  {
    var key :| key in part[p.1] && SplitKey(v, key).Some? && SplitKey(v, key).value.0 == p.0;
    assert Has(part, p.1, key);
    InPairs(v, whole, p.1, key, p.0, SplitKey(v, key).value.1);
  }

  lemma WritingAgain(v: Vocabulary, new_: New, points: Points, lines: set<(string, int)>)
    requires forall p :: p in lines ==> p in new_ && Part(LineFields(v, points, p.0, p.1), new_[p])
    ensures Written(v, new_, points, lines) == new_
  {
    var after := Written(v, new_, points, lines);
    assert after.Keys == new_.Keys;
    forall p | p in new_
      ensures after[p] == new_[p]
    {
      if p in lines {
        assert new_[p] + LineFields(v, points, p.0, p.1) == new_[p];
      }
    }
  }

  // ---------- every line is written before anything is dropped ----------

  /** A chunk that writes this line as the whole history has it. */
  ghost predicate WritesWhole(job: Job, s: System, step: Step, p: (string, int)) {
    step.WriteChunk? && p in step.lines && s.doing.Writing? && s.doing.points == Merged(job.history)
  }

  ghost predicate WroteWhole(job: Job, steps: seq<Step>, states: seq<System>, n: nat, p: (string, int))
    requires n <= |steps| < |states|
  {
    exists k: nat :: k < n && WritesWhole(job, states[k], steps[k], p)
  }

  ghost predicate AllWroteWhole(job: Job, steps: seq<Step>, states: seq<System>, n: nat, pairs: set<(string, int)>)
    requires n <= |steps| < |states|
  {
    forall p :: p in pairs ==> WroteWhole(job, steps, states, n, p)
  }

  /** What a rewrite of the whole history has still to do, or has done. */
  ghost predicate WrittenSoFar(job: Job, steps: seq<Step>, states: seq<System>, n: nat)
    requires n <= |steps| < |states|
  {
    var s, history := states[n], Merged(job.history);
    && (Committed(job, s) ==> AllSplit(job.v, history) && AllWroteWhole(job, steps, states, n, Pairs(job.v, history)))
    && (s.doing.Writing? && s.doing.whole && s.gone == {} ==>
          s.doing.points == history
          && AllWroteWhole(job, steps, states, n, Pairs(job.v, history) - s.doing.left))
  }

  lemma MoreIsWritten(job: Job, steps: seq<Step>, states: seq<System>, n: nat, pairs: set<(string, int)>)
    requires n < |steps| < |states| && AllWroteWhole(job, steps, states, n, pairs)
    ensures AllWroteWhole(job, steps, states, n + 1, pairs)
  {
    forall p | p in pairs
      ensures WroteWhole(job, steps, states, n + 1, p)
    {
      assert WroteWhole(job, steps, states, n, p);
    }
  }

  lemma AChunkWritesItsLines(job: Job, steps: seq<Step>, states: seq<System>, n: nat, pairs: set<(string, int)>)
    requires n < |steps| < |states| && steps[n].WriteChunk? && pairs <= steps[n].lines
    requires states[n].doing.Writing? && states[n].doing.points == Merged(job.history)
    ensures AllWroteWhole(job, steps, states, n + 1, pairs)
  {
    forall p | p in pairs
      ensures WroteWhole(job, steps, states, n + 1, p)
    {
      assert WritesWhole(job, states[n], steps[n], p);
    }
  }

  /** Nothing comes to stand that was not a whole rewrite's, or there already. */
  lemma HowItIsCommitted(job: Job, s: System, step: Step)
    requires Enabled(job, s, step) && Committed(job, Next(job, s, step))
    ensures Committed(job, s) || step.OpenManifest?
  {
  }

  lemma OneMoreStepIsWritten(job: Job, steps: seq<Step>, states: seq<System>, n: nat)
    requires Run(job, steps, states) && n < |steps| && Reading(job, states[n])
    requires WrittenSoFar(job, steps, states, n)
    ensures WrittenSoFar(job, steps, states, n + 1)
  {
    var s, step, after, history := states[n], steps[n], states[n + 1], Merged(job.history);
    WithoutKeeps(job.history, {});
    if Committed(job, s) {
      MoreIsWritten(job, steps, states, n, Pairs(job.v, history));
    }
    if Committed(job, after) {
      HowItIsCommitted(job, s, step);
      if !Committed(job, s) {
        MoreIsWritten(job, steps, states, n, Pairs(job.v, history) - s.doing.left);
        assert Pairs(job.v, history) - s.doing.left == Pairs(job.v, history);
      }
    }
    if after.doing.Writing? && after.doing.whole && after.gone == {} {
      AWritingStepIsWritten(job, steps, states, n);
    }
  }

  lemma AWritingStepIsWritten(job: Job, steps: seq<Step>, states: seq<System>, n: nat)
    requires Run(job, steps, states) && n < |steps| && Reading(job, states[n])
    requires WrittenSoFar(job, steps, states, n)
    requires states[n + 1].doing.Writing? && states[n + 1].doing.whole && states[n + 1].gone == {}
    requires Without(job.history, {}) == job.history
    ensures var doing, pairs := states[n + 1].doing, Pairs(job.v, Merged(job.history));
            doing.points == Merged(job.history) && AllWroteWhole(job, steps, states, n + 1, pairs - doing.left)
  {
    var s, step, after, pairs := states[n], steps[n], states[n + 1], Pairs(job.v, Merged(job.history));
    if step.StartRewrite? {
      assert pairs - after.doing.left == {};
    } else {
      MoreIsWritten(job, steps, states, n, pairs - s.doing.left);
      if step.WriteChunk? {
        AChunkWritesItsLines(job, steps, states, n, step.lines);
        assert pairs - after.doing.left <= (pairs - s.doing.left) + step.lines;
      }
    }
  }

  lemma {:induction false} RunIsWritten(job: Job, steps: seq<Step>, states: seq<System>, n: nat)
    requires Run(job, steps, states) && Initial(job, states[0]) && n < |states|
    ensures WrittenSoFar(job, steps, states, n)
  {
    if n > 0 {
      RunIsWritten(job, steps, states, n - 1);
      RunReads(job, steps, states, n - 1);
      OneMoreStepIsWritten(job, steps, states, n - 1);
    }
  }

  // ---------- the last write of a field ----------

  /** This step writes this field of this lock and timestamp. */
  ghost predicate Writes(job: Job, s: System, step: Step, p: (string, int), f: string) {
    match step
    case WriteChunk(lines) => s.doing.Writing? && p in lines && f in LineFields(job.v, s.doing.points, p.0, p.1)
    case Collect(pair, fields) => pair == p && f in fields
    case _ => false
  }

  ghost function WrittenValue(job: Job, s: System, step: Step, p: (string, int), f: string): FieldValue
    requires Writes(job, s, step, p, f)
  {
    if step.WriteChunk? then LineFields(job.v, s.doing.points, p.0, p.1)[f] else step.fields[f]
  }

  lemma AStepWrites(job: Job, s: System, step: Step, p: (string, int), f: string)
    requires Enabled(job, s, step)
    ensures var after := Next(job, s, step).new_;
            if Writes(job, s, step, p, f)
            then p in after && f in after[p] && after[p][f] == WrittenValue(job, s, step, p, f)
            else p in s.new_ && f in s.new_[p] ==> p in after && f in after[p] && after[p][f] == s.new_[p][f]
  {
  }

  ghost predicate IsLastWrite(
    job: Job, steps: seq<Step>, states: seq<System>, n: nat, k: nat, p: (string, int), f: string)
    requires n <= |steps| < |states|
  {
    && k < n && Writes(job, states[k], steps[k], p, f)
    && forall m :: k < m < n ==> !Writes(job, states[m], steps[m], p, f)
  }

  lemma {:induction false} ThereIsALastWrite(
    job: Job, steps: seq<Step>, states: seq<System>, n: nat, k: nat, p: (string, int), f: string)
    returns (last: nat)
    requires k < n <= |steps| < |states| && Writes(job, states[k], steps[k], p, f)
    ensures IsLastWrite(job, steps, states, n, last, p, f)
  {
    if Writes(job, states[n - 1], steps[n - 1], p, f) {
      last := n - 1;
    } else {
      last := ThereIsALastWrite(job, steps, states, n - 1, k, p, f);
    }
  }

  lemma {:induction false} TheLastWriteStays(
    job: Job, steps: seq<Step>, states: seq<System>, n: nat, k: nat, p: (string, int), f: string)
    requires Run(job, steps, states) && n < |states| && IsLastWrite(job, steps, states, n, k, p, f)
    ensures p in states[n].new_ && f in states[n].new_[p]
    ensures states[n].new_[p][f] == WrittenValue(job, states[k], steps[k], p, f)
    decreases n
  {
    if k < n - 1 {
      TheLastWriteStays(job, steps, states, n - 1, k, p, f);
    }
    AStepWrites(job, states[n - 1], steps[n - 1], p, f);
  }

  // ---------- exactly what is lost where the rows do not agree ----------

  /** No rewrite starts once something has been dropped. */
  ghost predicate RewrittenBeforeDropped(steps: seq<Step>, states: seq<System>)
    requires |states| == |steps| + 1
  {
    forall i :: 0 <= i < |steps| && steps[i].StartRewrite? ==> states[i].gone == {}
  }

  /** The row that was merged last for this key and timestamp says this. */
  ghost predicate LastRowSays(v: Vocabulary, rows: seq<Row>, stamp: int, key: string, value: FieldValue) {
    exists j: nat :: IsLast(rows, j, stamp, key) && SameOnceWritten(v, key, rows[j].values[key], value)
  }

  ghost predicate TheLastRowAgrees(v: Vocabulary, rows: seq<Row>, i: nat, key: string)
    requires i < |rows| && key in rows[i].values
  {
    LastRowSays(v, rows, rows[i].stamp, key, rows[i].values[key])
  }

  lemma OnlyOldStyleSplits(v: Vocabulary, key: string)
    requires Unambiguous(v) && SplitKey(v, key).Some?
    ensures OldStyle(key)
  {
    var (l, f) := SplitKey(v, key).value;
    NamedIsOldKey(v, key, l, f);
    assert OldKey(l, f)[|l|] == '_';
  }

  /** Where no rewrite starts after a drop, it is the last row of the whole history that must say the
      same. Both conditions fail silently: `old_field_keys` passes over a key with no underscore, and a
      later row's value replaces an earlier one's. */
  lemma WhatADropLoses(job: Job, steps: seq<Step>, states: seq<System>, n: nat, i: nat, key: string)
    requires Unambiguous(job.v) && Run(job, steps, states) && Initial(job, states[0]) && n < |states|
    requires RewrittenBeforeDropped(steps, states) && Agreeing(job, steps)
    requires i < |job.history| && key in job.history[i].values && job.history[i].host in states[n].gone
    ensures HeldByNew(job.v, states[n].new_, job.history[i], key) <==>
              OldStyle(key) && TheLastRowAgrees(job.v, job.history, i, key)
  {
    forall k | 0 <= k < n
      ensures ReadsTrue(job, states[k], steps[k])
    {
      WithoutKeeps(job.history, states[k].gone);
    }
    RunIsSafe(job, steps, states, n);
    var row := job.history[i];
    if OldStyle(key) {
      assert RowHas(row, row.stamp, key);
      ThereIsALastRow(job.history, i, row.stamp, key);
      var j: nat :| IsLast(job.history, j, row.stamp, key);
      TheLastRowWins(job.history, j, row.stamp, key);
      CarriedIsHeld(job, states[n].new_, row, key);
      OneLastRow(job.history, row.stamp, key);
    } else if SplitKey(job.v, key).Some? {
      OnlyOldStyleSplits(job.v, key);
    }
  }

  /** What this step writes for this key is what a row says: of a rewrite, what the last of the rows it
      has left says; of the new collector, what it collects. */
  ghost predicate WritesWhatItSays(job: Job, s: System, step: Step, row: Row, key: string)
    requires key in row.values
  {
    if step.Collect? then
      var f := SplitKey(job.v, key);
      f.Some? && f.value.1 in step.fields && step.fields[f.value.1] == Rewritten(job.v, f.value.1, row.values[key])
    else LastRowSays(job.v, Without(job.history, s.gone), row.stamp, key, row.values[key])
  }

  /** The last step before this one to write this key's field at this timestamp. */
  ghost predicate LastToWrite(
    job: Job, steps: seq<Step>, states: seq<System>, n: nat, k: nat, stamp: int, key: string)
    requires n <= |steps| < |states|
  {
    var split := SplitKey(job.v, key);
    split.Some? && IsLastWrite(job, steps, states, n, k, (split.value.0, stamp), split.value.1)
  }

  lemma WhatAChunkWrites(job: Job, s: System, step: Step, row: Row, key: string)
    requires Unambiguous(job.v) && Reading(job, s) && step.WriteChunk? && key in row.values
    requires SplitKey(job.v, key).Some?
    requires var (l, f) := SplitKey(job.v, key).value; Writes(job, s, step, (l, row.stamp), f)
    ensures var (l, f) := SplitKey(job.v, key).value;
            WrittenValue(job, s, step, (l, row.stamp), f) == Rewritten(job.v, f, row.values[key]) <==>
              WritesWhatItSays(job, s, step, row, key)
  {
    var (l, f) := SplitKey(job.v, key).value;
    var rows := Without(job.history, s.gone);
    NamedIsOldKey(job.v, key, l, f);
    LockFieldsAreTheNamedOnes(job.v, s.doing.points[row.stamp], l, f);
    assert Has(Merged(rows), row.stamp, key);
    MergedIsWhatTheRowsHave(rows, row.stamp, key);
    var i: nat :| i < |rows| && RowHas(rows[i], row.stamp, key);
    ThereIsALastRow(rows, i, row.stamp, key);
    var j: nat :| IsLast(rows, j, row.stamp, key);
    TheLastRowWins(rows, j, row.stamp, key);
    OneLastRow(rows, row.stamp, key);
  }

  /** Whatever has been dropped, some step has written each old key's field. */
  lemma SomethingWroteIt(job: Job, steps: seq<Step>, states: seq<System>, n: nat, i: nat, key: string) returns (k: nat)
    requires Unambiguous(job.v) && Run(job, steps, states) && Initial(job, states[0]) && n < |states|
    requires states[n].gone != {} && i < |job.history| && key in job.history[i].values && OldStyle(key)
    ensures LastToWrite(job, steps, states, n, k, job.history[i].stamp, key)
  {
    var stamp, points := job.history[i].stamp, Merged(job.history);
    assert RowHas(job.history[i], stamp, key);
    MergedIsWhatTheRowsHave(job.history, stamp, key);
    RunIsWritten(job, steps, states, n);
    assert SplitAt(job.v, points[stamp]);
    var (l, f) := SplitKey(job.v, key).value;
    NamedIsOldKey(job.v, key, l, f);
    InPairs(job.v, points, stamp, key, l, f);
    LockFieldsAreTheNamedOnes(job.v, points[stamp], l, f);
    assert WroteWhole(job, steps, states, n, (l, stamp));
    var first: nat :| first < n && WritesWhole(job, states[first], steps[first], (l, stamp));
    k := ThereIsALastWrite(job, steps, states, n, first, (l, stamp), f);
  }

  /** In every run, for any history at all, agreeing or not, with old keys or others, however often and
      wherever either phase was ended and run again, and whatever is collected meanwhile: once a row's
      series has been dropped, a reading of it is still held if and only if its key has an underscore
      and the last step to write that key's field says the same. Of a rewrite, it is the last of the
      rows that were left when it started that must agree. */
  lemma TheLastWriteDecides(job: Job, steps: seq<Step>, states: seq<System>, n: nat, i: nat, key: string)
    requires Unambiguous(job.v) && Run(job, steps, states) && Initial(job, states[0]) && n < |states|
    requires i < |job.history| && key in job.history[i].values && job.history[i].host in states[n].gone
    ensures HeldByNew(job.v, states[n].new_, job.history[i], key) <==>
              OldStyle(key) && exists k: nat :: LastToWrite(job, steps, states, n, k, job.history[i].stamp, key)
                                                && WritesWhatItSays(job, states[k], steps[k], job.history[i], key)
  {
    var row := job.history[i];
    if OldStyle(key) {
      var k := SomethingWroteIt(job, steps, states, n, i, key);
      var (l, f) := SplitKey(job.v, key).value;
      TheLastWriteStays(job, steps, states, n, k, (l, row.stamp), f);
      if steps[k].WriteChunk? {
        RunReads(job, steps, states, k);
        WhatAChunkWrites(job, states[k], steps[k], row, key);
      }
      OneLastToWrite(job, steps, states, n, row.stamp, key);
    } else if SplitKey(job.v, key).Some? {
      OnlyOldStyleSplits(job.v, key);
    }
  }

  lemma OneLastToWrite(job: Job, steps: seq<Step>, states: seq<System>, n: nat, stamp: int, key: string)
    requires n <= |steps| < |states|
    ensures forall j: nat, k: nat ::
              (LastToWrite(job, steps, states, n, j, stamp, key) && LastToWrite(job, steps, states, n, k, stamp, key))
              ==> j == k
  {
  }

  lemma OneLastRow(rows: seq<Row>, stamp: int, key: string)
    ensures forall j: nat, k: nat :: IsLast(rows, j, stamp, key) && IsLast(rows, k, stamp, key) ==> j == k
  {
  }

  /** In particular nothing old is lost where no later row disagrees. */
  lemma NoLaterRowDisagrees(v: Vocabulary, rows: seq<Row>, i: nat, key: string)
    requires i < |rows| && key in rows[i].values && OldStyle(key) && SplitKey(v, key).Some?
    requires forall j :: i < j < |rows| && RowHas(rows[j], rows[i].stamp, key) ==>
               SameOnceWritten(v, key, rows[j].values[key], rows[i].values[key])
    ensures TheLastRowAgrees(v, rows, i, key)
  {
    var stamp := rows[i].stamp;
    assert RowHas(rows[i], stamp, key);
    ThereIsALastRow(rows, i, stamp, key);
    var j: nat :| IsLast(rows, j, stamp, key);
    assert j >= i;
  }
}
