/** The text the migration sends for its lines, and what that text tells whoever reads it back
    (iter_rewritten_lines and Influx.write in scripts/migrate-nuki-device-tag.py). */
module MigrationText {
  import opened Numbers
  import opened LineProtocol
  import opened Migration

  // ---------- the point a line is ----------

  /** These fields, each once, are these values. */
  ghost predicate Lists(fields: seq<(string, FieldValue)>, values: Values) {
    && (forall i :: 0 <= i < |fields| ==> fields[i].0 in values && values[fields[i].0] == fields[i].1)
    && (forall f :: f in values ==> exists i :: 0 <= i < |fields| && fields[i].0 == f)
  }

  /** The measurement and the tag the lines are written under: "nuki" and "device". */
  datatype Form = Form(measurement: string, tag: string)

  const NUKI_FORM := Form("nuki", "device")

  predicate Plain(form: Form) {
    Letters(form.measurement) && Letters(form.tag)
  }

  lemma NukiIsPlain()
    ensures Plain(NUKI_FORM)
  {
  }

  /** The script sorts the fields; any order of them is allowed here. */
  ghost predicate IsPointOf(form: Form, p: Point, line: Line) {
    && p.measurement == form.measurement && p.tags == [(form.tag, line.lock)] && p.stamp == line.stamp
    && Lists(p.fields, line.fields)
  }

  /** Field names as the script writes them, which is as they stand. */
  function RawFields(fields: seq<(string, FieldValue)>): string
    requires fields != []
  {
    var here := fields[0].0 + "=" + ValueText(fields[0].1);
    if |fields| == 1 then here else here + "," + RawFields(fields[1..])
  }

  lemma {:induction false} LettersNeedNoEscape(s: string, special: set<char>)
    requires Letters(s) && special <= KEY_SPECIALS
    ensures Escaped(s, special) == s && OneLine(s)
  {
    if s != "" {
      LettersNeedNoEscape(s[1..], special);
      assert s == [s[0]] + s[1..];
    }
  }

  /** The encoder's text of a line's fields is the script's: no name in it needs an escape. */
  lemma {:induction false} RawFieldsAreTheFieldsText(fields: seq<(string, FieldValue)>)
    requires fields != [] && forall i :: 0 <= i < |fields| ==> Letters(fields[i].0)
    ensures FieldsText(fields) == Some(RawFields(fields))
  {
    assert Letters(fields[0].0);
    ChainedReplacesAreOnePass(fields[0].0);
    LettersNeedNoEscape(fields[0].0, KEY_SPECIALS);
    if |fields| > 1 {
      assert forall i :: 0 <= i < |fields[1..]| ==> fields[1..][i] == fields[i + 1];
      RawFieldsAreTheFieldsText(fields[1..]);
    }
  }

  // ---------- every line can be sent ----------

  /** Every value read is one that can be written: a number is as it is printed. */
  ghost predicate AllPrinted(points: Points) {
    forall stamp, key :: Has(points, stamp, key) ==> Writable(points[stamp][key])
  }

  lemma LineFieldsAreOldValues(v: Vocabulary, points: Points, lock: string, stamp: int, f: string)
    requires Spelled(v) && AllPrinted(points) && f in LineFields(v, points, lock, stamp)
    ensures Letters(f) && Writable(LineFields(v, points, lock, stamp)[f])
  {
    SpelledIsUnambiguous(v);
    LockFieldsAreTheNamedOnes(v, points[stamp], lock, f);
    assert Has(points, stamp, OldKey(lock, f));
    SplittingInvertsNaming(v, OldKey(lock, f), lock, f);
  }

  lemma ALineHasAField(v: Vocabulary, points: Points, lock: string, stamp: int)
    requires Unambiguous(v) && AllSplit(v, points) && (lock, stamp) in Pairs(v, points)
    ensures LineFields(v, points, lock, stamp) != map[] && OneLine(lock)
  {
    var key :| key in points[stamp] && SplitKey(v, key).Some? && SplitKey(v, key).value.0 == lock;
    NamedIsOldKey(v, key, lock, SplitKey(v, key).value.1);
    LockFieldsAreTheNamedOnes(v, points[stamp], lock, SplitKey(v, key).value.1);
    assert SplitAt(v, points[stamp]);
  }

  lemma FieldsAreOldValues(v: Vocabulary, points: Points, p: Point, line: Line)
    requires Spelled(v) && AllSplit(v, points) && AllPrinted(points)
    requires (line.lock, line.stamp) in Pairs(v, points) && line.fields == LineFields(v, points, line.lock, line.stamp)
    requires Lists(p.fields, line.fields)
    ensures p.fields != [] && OneLine(line.lock)
    ensures forall i :: 0 <= i < |p.fields| ==> Letters(p.fields[i].0) && Writable(p.fields[i].1)
  {
    SpelledIsUnambiguous(v);
    ALineHasAField(v, points, line.lock, line.stamp);
    forall i | 0 <= i < |p.fields|
      ensures Letters(p.fields[i].0) && Writable(p.fields[i].1)
    {
      LineFieldsAreOldValues(v, points, line.lock, line.stamp, p.fields[i].0);
    }
    var f :| f in line.fields;
  }

  /** The line as the script puts it together. */
  function ScriptLine(form: Form, p: Point, lock: string): string
    requires p.fields != []
  {
    form.measurement + ("," + form.tag + "=" + EscapeKey(lock)) + " " + RawFields(p.fields) + " " + IntText(p.stamp)
  }

  lemma TheTagText(tag: string, lock: string)
    requires Letters(tag) && OneLine(lock)
    ensures TagsText([(tag, lock)]) == Some("," + tag + "=" + EscapeKey(lock))
  {
    ChainedReplacesAreOnePass(tag);
    LettersNeedNoEscape(tag, KEY_SPECIALS);
    assert [(tag, lock)][1..] == [];
    assert ("," + tag + "=" + EscapeKey(lock)) + "" == "," + tag + "=" + EscapeKey(lock);
  }

  lemma LettersAreAWord(s: string)
    requires Letters(s)
    ensures Word(s)
  {
  }

  /** The encoder accepts the point of every line, and gives it the very text the script sends. */
  lemma APointIsItsLine(v: Vocabulary, form: Form, points: Points, p: Point, line: Line)
    requires Spelled(v) && Plain(form) && AllSplit(v, points) && AllPrinted(points)
    requires (line.lock, line.stamp) in Pairs(v, points) && line.fields == LineFields(v, points, line.lock, line.stamp)
    requires IsPointOf(form, p, line)
    ensures Sendable(p) && Encode(p) == Some(ScriptLine(form, p, line.lock))
  {
    FieldsAreOldValues(v, points, p, line);
    RawFieldsAreTheFieldsText(p.fields);
    TheTagText(form.tag, line.lock);
    LettersAreAWord(form.measurement);
  }

  // ---------- what the text tells ----------

  /** What a point that was read back says the old point held. */
  ghost predicate Tells(p: Point, stamp: int, key: string, value: FieldValue) {
    && p.stamp == stamp && |p.tags| == 1
    && exists i :: 0 <= i < |p.fields| && key == OldKey(p.tags[0].1, p.fields[i].0) && value == p.fields[i].1
  }

  lemma TellsWhatItsLineSays(form: Form, p: Point, line: Line, stamp: int, key: string, value: FieldValue)
    requires IsPointOf(form, p, line)
    ensures Tells(p, stamp, key, value) <==> Says(line, stamp, key, value)
  {
    if Says(line, stamp, key, value) {
      var f :| f in line.fields && key == OldKey(line.lock, f) && value == line.fields[f];
      var i :| 0 <= i < |p.fields| && p.fields[i].0 == f;
      assert key == OldKey(p.tags[0].1, p.fields[i].0) && value == p.fields[i].1;
    }
    if Tells(p, stamp, key, value) {
      var i :| 0 <= i < |p.fields| && key == OldKey(p.tags[0].1, p.fields[i].0) && value == p.fields[i].1;
      assert p.fields[i].0 in line.fields && value == line.fields[p.fields[i].0];
    }
  }

  ghost predicate ArePointsOf(form: Form, sent: seq<Point>, lines: seq<Line>) {
    |sent| == |lines| && forall i :: 0 <= i < |lines| ==> IsPointOf(form, sent[i], lines[i])
  }

  lemma EveryLineCanBeSent(v: Vocabulary, form: Form, points: Points, lines: seq<Line>, sent: seq<Point>)
    requires Spelled(v) && Plain(form) && AllSplit(v, points) && AllPrinted(points)
    requires AreTheLines(v, lines, points, Pairs(v, points)) && ArePointsOf(form, sent, lines)
    ensures AllSendable(sent)
  {
    forall i | 0 <= i < |sent|
      ensures Sendable(sent[i]) && Encode(sent[i]).Some?
    {
      APointIsItsLine(v, form, points, sent[i], lines[i]);
    }
  }

  lemma TheyTellWhatTheLinesSay(
    form: Form, lines: seq<Line>, sent: seq<Point>, stamp: int, key: string, value: FieldValue)
    requires ArePointsOf(form, sent, lines)
    ensures (exists i :: 0 <= i < |sent| && Tells(sent[i], stamp, key, value)) <==>
              exists i :: 0 <= i < |lines| && Says(lines[i], stamp, key, value)
  {
    forall i | 0 <= i < |lines|
      ensures Tells(sent[i], stamp, key, value) <==> Says(lines[i], stamp, key, value)
    {
      TellsWhatItsLineSays(form, sent[i], lines[i], stamp, key, value);
    }
  }

  /** From the old points to the text sent and back: the lines, encoded and joined, read back as points
      that say of each old key exactly the value that was read, save that a number under a field that
      is text comes back as the text of it. */
  lemma TheTextTellsTheOldPoints(
    v: Vocabulary, form: Form, points: Points, lines: seq<Line>, sent: seq<Point>, stamp: int, key: string,
    value: FieldValue)
    requires Spelled(v) && Plain(form) && AllSplit(v, points) && AllPrinted(points)
    requires AreTheLines(v, lines, points, Pairs(v, points)) && ArePointsOf(form, sent, lines) && sent != []
    ensures AllSendable(sent) && Lines(sent) != []
    ensures var back := ReadBatch(Joined(Lines(sent)));
            && back.Some?
            && ((exists i :: 0 <= i < |back.value| && Tells(back.value[i], stamp, key, value)) <==>
                  && Has(points, stamp, key)
                  && value == (if points[stamp][key].Bare? && SplitKey(v, key).value.1 in v.text
                               then Text(points[stamp][key].digits) else points[stamp][key]))
  {
    SpelledIsUnambiguous(v);
    EveryLineCanBeSent(v, form, points, lines, sent);
    BatchReadsBack(sent);
    TheyTellWhatTheLinesSay(form, lines, sent, stamp, key, value);
    OldPointsCanBeRebuilt(v, points, lines, stamp, key, value);
  }
}
