/** Two runs of the migration that lose readings, one with no fault anywhere and one whose delete is ended
    part-way and whose rewrite is run again: what the conditions in `MigrationRuns` come to. */
module MigrationLosses {
  import opened LineProtocol
  import opened Migration
  import opened MigrationRuns

  const PAIR := ("L", 7)

  /** Two collectors wrote one lock's state at one timestamp, differently, and the first of them wrote
      a key with no underscore too. */
  function History(): seq<Row> {
    [Row("one", 7, map["L_state" := Bare("1"), "odd" := Bare("9")]), Row("two", 7, map["L_state" := Bare("2")])]
  }

  function TwoCollectors(v: Vocabulary): Job {
    Job(v, History(), "db")
  }

  /** The new collector has a value of its own there. */
  function Upgraded(): System {
    System({}, map[PAIR := map["state" := Bare("3")]], map[], Resting)
  }

  ghost predicate KnowsState(v: Vocabulary) {
    Unambiguous(v) && "state" in v.known && "state" !in v.text
  }

  lemma WhatIsRead()
    ensures Merged(History()) == map[7 := map["L_state" := Bare("2")]]
    ensures IsLast(History(), 1, 7, "L_state") && OldStyle("L_state") && !OldStyle("odd")
  {
    assert "L_state"[1] == '_';
    var rows := History();
    WhatTheFirstRowSays();
    assert Present(rows[1]) == map["L_state" := Bare("2")];
    assert rows[..1] == [rows[0]];
    assert "L_state" in Present(rows[1]);
    assert map["L_state" := Bare("1")] + map["L_state" := Bare("2")] == map["L_state" := Bare("2")];
  }

  lemma WhatTheFirstRowSays()
    ensures Present(History()[0]) == map["L_state" := Bare("1")]
    ensures Merged([History()[0]]) == map[7 := map["L_state" := Bare("1")]]
  {
    assert "L_state"[1] == '_';
    var row := History()[0];
    assert Present(row) == map["L_state" := Bare("1")];
    assert "L_state" in Present(row);
    MergedOnce(row);
  }

  lemma MergedOnce(row: Row)
    requires Present(row) != map[]
    ensures Merged([row]) == map[row.stamp := Present(row)]
  {
    assert [row][..0] == [] && map[] + Present(row) == Present(row);
  }

  lemma WhatIsWritten(v: Vocabulary, points: Points, value: FieldValue)
    requires KnowsState(v) && points == map[7 := map["L_state" := value]]
    ensures Names(v, "L_state", "L", "state")
    ensures Pairs(v, points) == {PAIR} && AllSplit(v, points) && LineFields(v, points, "L", 7) == map["state" := value]
  {
    assert OldKey("L", "state") == "L_state";
    SplittingInvertsNaming(v, "L_state", "L", "state");
    InPairs(v, points, 7, "L_state", "L", "state");
    forall f: string
      ensures f in LineFields(v, points, "L", 7) <==> f == "state"
    {
      LockFieldsAreTheNamedOnes(v, points[7], "L", f);
      if OldKey("L", f) == "L_state" {
        assert OldKey("L", f)[2..] == f && "L_state"[2..] == "state";
      }
    }
  }

  // ---------- a run with no fault ----------

  ghost predicate Leads(job: Job, s: System, step: Step, after: System) {
    Enabled(job, s, step) && after == Next(job, s, step)
  }

  /** One more step of a run. */
  lemma Then(job: Job, steps: seq<Step>, states: seq<System>, step: Step) returns (more: seq<Step>, after: seq<System>)
    requires Run(job, steps, states) && Enabled(job, states[|steps|], step)
    ensures Run(job, more, after) && more == steps + [step] && after == states + [Next(job, states[|steps|], step)]
  {
    more, after := Longer(job, steps, states, step, Next(job, states[|steps|], step));
  }

  lemma Longer(job: Job, steps: seq<Step>, states: seq<System>, step: Step, next: System)
    returns (more: seq<Step>, after: seq<System>)
    requires Run(job, steps, states) && Leads(job, states[|steps|], step, next)
    ensures Run(job, more, after) && more == steps + [step] && after == states + [next]
  {
    more, after := steps + [step], states + [next];
    forall i | 0 <= i < |more|
      ensures Leads(job, after[i], more[i], after[i + 1])
    {
      if i < |steps| {
        assert after[i] == states[i] && more[i] == steps[i] && after[i + 1] == states[i + 1];
        assert Leads(job, states[i], steps[i], states[i + 1]);
      }
    }
  }

  /** One run and another that starts where it ends. */
  lemma Joined(job: Job, before: seq<Step>, was: seq<System>, then_: seq<Step>, states: seq<System>)
    requires Run(job, before, was) && Run(job, then_, states) && was[|before|] == states[0]
    ensures Run(job, before + then_, was + states[1..])
  {
    var all, through := before + then_, was + states[1..];
    forall i | 0 <= i < |all|
      ensures Leads(job, through[i], all[i], through[i + 1])
    {
      if i < |before| {
        assert Leads(job, was[i], before[i], was[i + 1]);
      } else {
        var k := i - |before|;
        assert through[i] == states[k] && through[i + 1] == states[k + 1];
        assert Leads(job, states[k], then_[k], states[k + 1]);
      }
    }
  }

  /** What a whole rewrite in one chunk makes of a system at rest. */
  function WholeRewrite(job: Job, s: System, path: string): System {
    var points := OldPoints(job, s);
    System(s.gone, Written(job.v, s.new_, points, Pairs(job.v, points)),
           s.manifests[path := Complete(job.database, Hosts(Without(job.history, s.gone)))], Resting)
  }

  /** The lines written and none left. */
  function AllWritten(job: Job, s: System, path: string): System {
    var points := OldPoints(job, s);
    System(s.gone, Written(job.v, s.new_, points, Pairs(job.v, points)),
           if path in s.manifests then s.manifests else s.manifests[path := Broken], Writing(path, points, {}, true))
  }

  lemma TheLinesAreWritten(job: Job, s: System, path: string) returns (steps: seq<Step>, states: seq<System>)
    requires s.doing.Resting? && OldPoints(job, s) != map[] && AllSplit(job.v, OldPoints(job, s))
    requires |Pairs(job.v, OldPoints(job, s))| <= CHUNK
    ensures Run(job, steps, states) && states[0] == s && |steps| == 2 && states[2] == AllWritten(job, s, path)
  {
    var pairs := Pairs(job.v, OldPoints(job, s));
    assert pairs - pairs == {};
    steps, states := [], [s];
    steps, states := Then(job, steps, states, StartRewrite(path, pairs));
    steps, states := Then(job, steps, states, WriteChunk(pairs));
  }

  lemma ARewriteRuns(job: Job, s: System, path: string) returns (steps: seq<Step>, states: seq<System>)
    requires s.doing.Resting? && OldPoints(job, s) != map[] && AllSplit(job.v, OldPoints(job, s))
    requires |Pairs(job.v, OldPoints(job, s))| <= CHUNK
    ensures Run(job, steps, states) && states[0] == s && |steps| == 4 && states[4] == WholeRewrite(job, s, path)
  {
    steps, states := TheLinesAreWritten(job, s, path);
    TheManifestFollows(job, s, path);
    steps, states := Then(job, steps, states, OpenManifest);
    steps, states := Then(job, steps, states, CloseManifest);
  }

  lemma TheManifestFollows(job: Job, s: System, path: string)
    ensures var written := AllWritten(job, s, path);
            && Enabled(job, written, OpenManifest)
            && var emptied := Next(job, written, OpenManifest);
               && emptied.gone == s.gone && Enabled(job, emptied, CloseManifest)
               && Next(job, emptied, CloseManifest) == WholeRewrite(job, s, path)
  {
    var m := if path in s.manifests then s.manifests else s.manifests[path := Broken];
    var done := Complete(job.database, Hosts(Without(job.history, s.gone)));
    assert m[path := Broken][path := done] == s.manifests[path := done];
  }

  lemma ADeleteFollows(
    job: Job, before: seq<Step>, was: seq<System>, path: string, one: string, two: string)
    returns (steps: seq<Step>, states: seq<System>)
    requires Run(job, before, was)
    requires var s := was[|before|];
             s.doing.Resting? && path in s.manifests && s.manifests[path] == Complete(job.database, {one, two})
    requires one != two && '\n' !in one && '\n' !in two
    ensures Run(job, steps, states) && states[0] == was[0]
    ensures states[|steps|].gone == was[|before|].gone + {one, two} && states[|steps|].new_ == was[|before|].new_
  {
    steps, states := Then(job, before, was, StartDelete(path));
    steps, states := Then(job, steps, states, Drop(one));
    steps, states := Then(job, steps, states, Drop(two));
    assert was[|before|].gone + {one} + {two} == was[|before|].gone + {one, two};
  }

  lemma FromNothingDropped(job: Job, s: System, path: string)
    requires s.gone == {}
    ensures OldPoints(job, s) == Merged(job.history)
    ensures WholeRewrite(job, s, path)
         == System({}, Written(job.v, s.new_, Merged(job.history), Pairs(job.v, Merged(job.history))),
                   s.manifests[path := Complete(job.database, Hosts(job.history))], Resting)
  {
    WithoutKeeps(job.history, {});
  }

  lemma AWholeRun(job: Job, s: System, path: string, one: string, two: string)
    returns (steps: seq<Step>, states: seq<System>)
    requires s.gone == {} && s.doing.Resting? && Merged(job.history) != map[] && AllSplit(job.v, Merged(job.history))
    requires |Pairs(job.v, Merged(job.history))| <= CHUNK
    requires Hosts(job.history) == {one, two} && one != two && '\n' !in one && '\n' !in two
    ensures Run(job, steps, states) && states[0] == s
    ensures states[|steps|].gone == {one, two}
    ensures states[|steps|].new_ == Written(job.v, s.new_, Merged(job.history), Pairs(job.v, Merged(job.history)))
  {
    FromNothingDropped(job, s, path);
    steps, states := ARewriteRuns(job, s, path);
    steps, states := ADeleteFollows(job, steps, states, path, one, two);
  }

  lemma OneLineOver(v: Vocabulary, points: Points, p: (string, int), old_: Values, fields: Values)
    requires LineFields(v, points, p.0, p.1) == fields && old_.Keys <= fields.Keys
    ensures Written(v, map[p := old_], points, {p}) == map[p := fields]
  {
    assert old_ + fields == fields;
  }

  lemma TheRun(v: Vocabulary) returns (steps: seq<Step>, states: seq<System>)
    requires KnowsState(v)
    ensures Run(TwoCollectors(v), steps, states) && states[0] == Upgraded()
    ensures states[|steps|].gone == {"one", "two"} && states[|steps|].new_ == map[PAIR := map["state" := Bare("2")]]
  {
    WhatIsRead();
    WhatIsWritten(v, Merged(History()), Bare("2"));
    TheHosts();
    steps, states := AWholeRun(TwoCollectors(v), Upgraded(), "m", "one", "two");
    OneLineOver(v, Merged(History()), PAIR, map["state" := Bare("3")], map["state" := Bare("2")]);
  }

  lemma TheHosts()
    ensures Hosts(History()) == {"one", "two"}
  {
    assert History()[0].host == "one" && History()[1].host == "two";
  }

  // ---------- what is held ----------

  /** Of a new point that holds one state, the readings held are those that say it. */
  lemma WhatIsHeld(v: Vocabulary, new_: New, row: Row, value: FieldValue)
    requires KnowsState(v) && new_ == map[PAIR := map["state" := value]] && row.stamp == 7 && "L_state" in row.values
    ensures HeldByNew(v, new_, row, "L_state") <==> row.values["L_state"] == value
  {
    assert OldKey("L", "state") == "L_state";
    SplittingInvertsNaming(v, "L_state", "L", "state");
  }

  lemma OddIsNotHeld(v: Vocabulary, new_: New, row: Row)
    requires Unambiguous(v) && "odd" in row.values
    ensures !HeldByNew(v, new_, row, "odd")
  {
    if SplitKey(v, "odd").Some? {
      OnlyOldStyleSplits(v, "odd");
    }
  }

  lemma WhatTheRowsSay()
    ensures var rows := History();
            && rows[0].values["L_state"] == Bare("1") && rows[1].values["L_state"] == Bare("2")
            && Bare("1") != Bare("2") && "odd" in rows[0].values
  {
    assert "1"[0] != "2"[0];
  }

  /** The first collector's reading is gone because a later row disagreed with it, its other one
      because of its name, and the new collector's because the rewrite wrote over it. The second
      collector's is held. */
  lemma ThreeReadingsAreLost(v: Vocabulary) returns (steps: seq<Step>, states: seq<System>)
    requires KnowsState(v)
    ensures Run(TwoCollectors(v), steps, states) && Initial(TwoCollectors(v), states[0])
    ensures var last, first, second := states[|steps|], History()[0], History()[1];
            && !HeldByOld(last, first) && !HeldByOld(last, second)
            && !HeldByNew(v, last.new_, first, "L_state") && !HeldByNew(v, last.new_, first, "odd")
            && HeldByNew(v, last.new_, second, "L_state")
            && states[0].new_ == map[PAIR := map["state" := Bare("3")]]
            && last.new_ == map[PAIR := map["state" := Bare("2")]]
  {
    steps, states := TheRun(v);
    WhatTheRowsSay();
    WhatIsHeld(v, states[|steps|].new_, History()[0], Bare("2"));
    WhatIsHeld(v, states[|steps|].new_, History()[1], Bare("2"));
    OddIsNotHeld(v, states[|steps|].new_, History()[0]);
  }

  // ---------- a delete ended part-way, and a rewrite after it ----------

  /** A rewrite, and a delete that is ended once it has dropped one of the hosts. */
  lemma ADeleteIsEnded(job: Job, s: System, path: string, host: string) returns (steps: seq<Step>, states: seq<System>)
    requires s.gone == {} && s.doing.Resting? && Merged(job.history) != map[] && AllSplit(job.v, Merged(job.history))
    requires |Pairs(job.v, Merged(job.history))| <= CHUNK && host in Hosts(job.history) && '\n' !in host
    ensures Run(job, steps, states) && states[0] == s
    ensures states[|steps|] == WholeRewrite(job, s, path).(gone := {host})
  {
    FromNothingDropped(job, s, path);
    steps, states := ARewriteRuns(job, s, path);
    steps, states := ADropIsEnded(job, steps, states, path, host, Hosts(job.history));
  }

  lemma ADropIsEnded(job: Job, before: seq<Step>, was: seq<System>, path: string, host: string, hosts: set<string>)
    returns (steps: seq<Step>, states: seq<System>)
    requires Run(job, before, was) && host in hosts && '\n' !in host
    requires var s := was[|before|];
             && s.gone == {} && s.doing.Resting?
             && path in s.manifests && s.manifests[path] == Complete(job.database, hosts)
    ensures Run(job, steps, states) && states[0] == was[0] && states[|steps|] == was[|before|].(gone := {host})
  {
    steps, states := Then(job, before, was, StartDelete(path));
    steps, states := Then(job, steps, states, Drop(host));
    steps, states := Then(job, steps, states, Stop);
  }

  /** What two rewrites leave, with a drop between them. */
  function RewrittenTwice(job: Job, s: System, path: string, host: string): System {
    WholeRewrite(job, WholeRewrite(job, s, path).(gone := {host}), path)
  }

  lemma AndRewrittenAgain(job: Job, s: System, path: string, host: string)
    returns (steps: seq<Step>, states: seq<System>)
    requires s.gone == {} && s.doing.Resting? && Merged(job.history) != map[] && AllSplit(job.v, Merged(job.history))
    requires |Pairs(job.v, Merged(job.history))| <= CHUNK && host in Hosts(job.history) && '\n' !in host
    requires var left := Merged(Without(job.history, {host}));
             left != map[] && AllSplit(job.v, left) && |Pairs(job.v, left)| <= CHUNK
    ensures Run(job, steps, states) && states[0] == s && states[|steps|] == RewrittenTwice(job, s, path, host)
  {
    var before, was := ADeleteIsEnded(job, s, path, host);
    var again, states' := ARewriteRuns(job, was[|before|], path);
    Joined(job, before, was, again, states');
    steps, states := before + again, was + states'[1..];
  }

  lemma TheFirstRowIsLeft()
    ensures Without(History(), {"two"}) == [History()[0]]
  {
    var rows := History();
    assert rows[..1] == [rows[0]] && [rows[0]][..0] == [];
    assert rows[1].host == "two" && rows[0].host == "one" && "one" != "two";
    assert Without([rows[0]], {"two"}) == Without([], {"two"}) + [rows[0]];
  }

  lemma WhatTwoRewritesLeave(v: Vocabulary, all: Points, left: Points)
    requires LineFields(v, all, "L", 7) == map["state" := Bare("2")]
    requires LineFields(v, left, "L", 7) == map["state" := Bare("1")]
    ensures Written(v, Written(v, Upgraded().new_, all, {PAIR}), left, {PAIR}) == map[PAIR := map["state" := Bare("1")]]
  {
    OneLineOver(v, all, PAIR, map["state" := Bare("3")], map["state" := Bare("2")]);
    OneLineOver(v, left, PAIR, map["state" := Bare("2")], map["state" := Bare("1")]);
  }

  /** What is left once the second host's series is dropped. */
  lemma WhatIsLeft(v: Vocabulary)
    requires KnowsState(v)
    ensures var left := Merged(Without(History(), {"two"}));
            && left != map[] && AllSplit(v, left) && Pairs(v, left) == {PAIR}
            && LineFields(v, left, "L", 7) == map["state" := Bare("1")]
  {
    TheFirstRowIsLeft();
    WhatTheFirstRowSays();
    WhatIsWritten(v, Merged([History()[0]]), Bare("1"));
  }

  lemma RewrittenTwiceIs(v: Vocabulary)
    requires KnowsState(v)
    ensures var last := RewrittenTwice(TwoCollectors(v), Upgraded(), "m", "two");
            last.gone == {"two"} && last.new_ == map[PAIR := map["state" := Bare("1")]]
  {
    FromNothingDropped(TwoCollectors(v), Upgraded(), "m");
    WhatIsRead();
    WhatIsWritten(v, Merged(History()), Bare("2"));
    WhatIsLeft(v);
    WhatTwoRewritesLeave(v, Merged(History()), Merged(Without(History(), {"two"})));
  }

  lemma TheSecondRun(v: Vocabulary) returns (steps: seq<Step>, states: seq<System>)
    requires KnowsState(v)
    ensures Run(TwoCollectors(v), steps, states) && states[0] == Upgraded()
    ensures states[|steps|] == RewrittenTwice(TwoCollectors(v), Upgraded(), "m", "two")
  {
    TheHosts();
    WhatIsRead();
    WhatIsWritten(v, Merged(History()), Bare("2"));
    WhatIsLeft(v);
    steps, states := AndRewrittenAgain(TwoCollectors(v), Upgraded(), "m", "two");
  }

  lemma TheLastRowAgreesWithItself(v: Vocabulary)
    requires KnowsState(v)
    ensures TheLastRowAgrees(v, History(), 1, "L_state")
  {
    WhatIsRead();
    WhatIsWritten(v, Merged(History()), Bare("2"));
  }

  /** Both rows are rewritten and the second, which is the last, is what the new point says. Its series
      is dropped and the delete is ended. The rewrite that is run again reads the first row alone and
      writes its value over the second's, which is then held by nothing, although no later row ever
      disagreed with it. */
  lemma ARewriteAfterADropLosesTheLastRow(v: Vocabulary) returns (steps: seq<Step>, states: seq<System>)
    requires KnowsState(v)
    ensures Run(TwoCollectors(v), steps, states) && Initial(TwoCollectors(v), states[0])
    ensures var last, second := states[|steps|], History()[1];
            && !HeldByOld(last, second) && "L_state" in second.values
            && !HeldByNew(v, last.new_, second, "L_state") && TheLastRowAgrees(v, History(), 1, "L_state")
  {
    steps, states := TheSecondRun(v);
    RewrittenTwiceIs(v);
    TheLastRowAgreesWithItself(v);
    WhatTheRowsSay();
    WhatIsHeld(v, states[|steps|].new_, History()[1], Bare("1"));
  }

  // ---------- a disagreement made good ----------

  /** It is the last row that decides, and not every later one: a row that is disagreed with by the next
      and agreed with by the one after that loses nothing. */
  lemma ADisagreementMadeGoodLosesNothing(v: Vocabulary)
    requires KnowsState(v)
    ensures var rows := [Row("one", 7, map["L_state" := Bare("1")]), Row("two", 7, map["L_state" := Bare("2")]),
                         Row("three", 7, map["L_state" := Bare("1")])];
            && TheLastRowAgrees(v, rows, 0, "L_state")
            && RowHas(rows[1], 7, "L_state")
            && !SameOnceWritten(v, "L_state", rows[1].values["L_state"], rows[0].values["L_state"])
  {
    var rows := [Row("one", 7, map["L_state" := Bare("1")]), Row("two", 7, map["L_state" := Bare("2")]),
                 Row("three", 7, map["L_state" := Bare("1")])];
    WhatIsRead();
    WhatIsWritten(v, Merged(History()), Bare("2"));
    assert Bare("1").digits[0] != Bare("2").digits[0];
    assert IsLast(rows, 2, 7, "L_state");
  }
}
