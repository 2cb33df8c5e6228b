/** The line protocol the collectors and the migration write (toinflux/influx.py,
    scripts/migrate-nuki-device-tag.py), and a reader for it that knows about quotes and escapes:
    what is written is what is read back, point by point and batch by batch. */
module LineProtocol {
  import opened Numbers

  // ---------- escaping ----------

  /** Python's `str.replace` of one character. */
  function Replace(s: string, c: char, with: string): string {
    if s == "" then "" else (if s[0] == c then with else [s[0]]) + Replace(s[1..], c, with)
  }

  /** The four replacements made in a key or tag value, in the order they are made. */
  function EscapeKey(s: string): string {
    Replace(Replace(Replace(Replace(s, '\\', "\\\\"), ',', "\\,"), '=', "\\="), ' ', "\\ ")
  }

  /** The two made inside a quoted string, with the quote that will end it. */
  function EscapeQuoted(s: string, quote: char): string {
    Replace(Replace(s, '\\', "\\\\"), quote, ['\\', quote])
  }

  function EscapeText(s: string): string {
    EscapeQuoted(s, '"')
  }

  /** A backslash in front of each of these characters, and nothing else changed. */
  function Escaped(s: string, special: set<char>): string {
    if s == "" then "" else (if s[0] in special then ['\\', s[0]] else [s[0]]) + Escaped(s[1..], special)
  }

  const KEY_SPECIALS: set<char> := {'\\', ',', '=', ' '}
  const TEXT_SPECIALS: set<char> := {'\\', '"'}

  lemma {:induction false} ReplaceAfterEscaping(s: string, special: set<char>, c: char)
    requires c !in special && c != '\\'
    ensures Replace(Escaped(s, special), c, ['\\', c]) == Escaped(s, special + {c})
  {
    if s != "" {
      ReplaceAfterEscaping(s[1..], special, c);
      var head := if s[0] in special then ['\\', s[0]] else [s[0]];
      var rest := Escaped(s[1..], special);
      assert (head + rest)[0] == head[0];
      if s[0] in special {
        assert (head + rest)[1..] == [s[0]] + rest;
        assert ([s[0]] + rest)[1..] == rest;
      } else {
        assert (head + rest)[1..] == rest;
      }
    }
  }

  lemma {:induction false} ReplaceBackslash(s: string)
    ensures Replace(s, '\\', "\\\\") == Escaped(s, {'\\'})
  {
    if s != "" {
      ReplaceBackslash(s[1..]);
    }
  }

  /** The chained replacements are one pass, character by character: because the backslash is
      replaced first, no replacement touches what an earlier one wrote. */
  lemma ChainedReplacesAreOnePass(s: string)
    ensures EscapeKey(s) == Escaped(s, KEY_SPECIALS)
    ensures EscapeText(s) == Escaped(s, TEXT_SPECIALS)
  {
    ReplaceBackslash(s);
    ReplaceAfterEscaping(s, {'\\'}, ',');
    ReplaceAfterEscaping(s, {'\\', ','}, '=');
    ReplaceAfterEscaping(s, {'\\', ',', '='}, ' ');
    assert {'\\'} + {','} == {'\\', ','} && {'\\', ','} + {'='} == {'\\', ',', '='};
    assert {'\\', ',', '='} + {' '} == KEY_SPECIALS;
    QuotedEscapeIsOnePass(s, '"');
  }

  lemma QuotedEscapeIsOnePass(s: string, quote: char)
    requires quote != '\\'
    ensures EscapeQuoted(s, quote) == Escaped(s, {'\\', quote})
  {
    ReplaceBackslash(s);
    ReplaceAfterEscaping(s, {'\\'}, quote);
    assert {'\\'} + {quote} == {'\\', quote};
  }

  // ---------- points ----------

  /** `Bare` is a number as Python prints it. */
  datatype FieldValue = Bool(b: bool) | Text(text: string) | Bare(digits: string)

  datatype Point = Point(
    measurement: string, tags: seq<(string, string)>, fields: seq<(string, FieldValue)>, stamp: int)

  predicate OneLine(s: string) {
    forall i :: 0 <= i < |s| ==> s[i] != '\n' && s[i] != '\r'
  }

  const BARE_ENDS: set<char> := {',', ' ', '\n'}

  /** What a number looks like when it is printed: not empty, no separator, no quote, not a word
      that means a boolean. */
  predicate Numeric(digits: string) {
    && digits != "" && digits != "true" && digits != "false" && digits[0] != '"'
    && forall i :: 0 <= i < |digits| ==> digits[i] !in BARE_ENDS
  }

  /** A measurement is one of the collectors' own words, so it is written as it stands. */
  predicate Word(s: string) {
    forall i :: 0 <= i < |s| ==> s[i] !in KEY_SPECIALS && s[i] != '\n'
  }

  /** `escape_key_or_tag_value`: None is InfluxWriteError. */
  function KeyText(s: string): Option<string> {
    if OneLine(s) then Some(EscapeKey(s)) else None
  }

  function ValueText(v: FieldValue): string {
    match v
    case Bool(b) => if b then "true" else "false"
    case Text(text) => "\"" + EscapeText(text) + "\""
    case Bare(digits) => digits
  }

  function TagsText(tags: seq<(string, string)>): Option<string> {
    if tags == [] then Some("")
    else
      var (k, v, rest) := (KeyText(tags[0].0), KeyText(tags[0].1), TagsText(tags[1..]));
      if k.None? || v.None? || rest.None? then None
      else Some("," + k.value + "=" + v.value + rest.value)
  }

  function FieldsText(fields: seq<(string, FieldValue)>): Option<string>
    requires fields != []
  {
    var k := KeyText(fields[0].0);
    if k.None? then None
    else
      var here := k.value + "=" + ValueText(fields[0].1);
      if |fields| == 1 then Some(here)
      else
        var rest := FieldsText(fields[1..]);
        if rest.None? then None else Some(here + "," + rest.value)
  }

  function DigitText(d: nat): char
    requires d < 10
  {
    '0' + d as char
  }

  function NatText(n: nat): string {
    if n < 10 then [DigitText(n)] else NatText(n / 10) + [DigitText(n % 10)]
  }

  function IntText(n: int): string {
    if n < 0 then "-" + NatText(-n) else NatText(n)
  }

  /** The line `send_data` hands on for one point, or None where it refuses the point. */
  function Encode(p: Point): Option<string>
    requires p.fields != []
  {
    var tags, fields := TagsText(p.tags), FieldsText(p.fields);
    if tags.None? || fields.None? then None
    else Some(p.measurement + tags.value + " " + fields.value + " " + IntText(p.stamp))
  }

  // ---------- reading ----------

  datatype Parsed<+T> = Parsed(value: T, rest: string)

  /** Up to the first separator that no backslash stands before. */
  function ReadKey(s: string): Parsed<string> {
    if s == "" || s[0] in {',', '=', ' ', '\n'} then Parsed("", s)
    else if s[0] == '\\' && |s| > 1 then
      var r := ReadKey(s[2..]);
      Parsed([s[1]] + r.value, r.rest)
    else
      var r := ReadKey(s[1..]);
      Parsed([s[0]] + r.value, r.rest)
  }

  /** Up to the quote that closes the text. */
  function ReadText(s: string): Option<Parsed<string>> {
    if s == "" then None
    else if s[0] == '"' then Some(Parsed("", s[1..]))
    else
      var skip := if s[0] == '\\' && |s| > 1 then 1 else 0;
      var r := ReadText(s[skip + 1..]);
      if r.None? then None else Some(Parsed([s[skip]] + r.value.value, r.value.rest))
  }

  function ReadBare(s: string): Parsed<string> {
    if s == "" || s[0] in BARE_ENDS then Parsed("", s)
    else
      var r := ReadBare(s[1..]);
      Parsed([s[0]] + r.value, r.rest)
  }

  function ReadValue(s: string): Option<Parsed<FieldValue>> {
    if s != "" && s[0] == '"' then
      var r := ReadText(s[1..]);
      if r.None? then None else Some(Parsed(Text(r.value.value), r.value.rest))
    else
      var r := ReadBare(s);
      Some(Parsed(if r.value == "true" then Bool(true) else if r.value == "false" then Bool(false)
                  else Bare(r.value), r.rest))
  }

  lemma ReadKeyShrinks(s: string)
    ensures |ReadKey(s).rest| <= |s|
  {
  }

  lemma ReadTextShrinks(s: string)
    ensures ReadText(s).Some? ==> |ReadText(s).value.rest| < |s|
  {
  }

  lemma ReadBareShrinks(s: string)
    ensures |ReadBare(s).rest| <= |s|
  {
  }

  function ReadTags(s: string): Option<Parsed<seq<(string, string)>>>
    decreases |s|
  {
    if s == "" || s[0] != ',' then Some(Parsed([], s))
    else
      ReadKeyShrinks(s[1..]);
      var k := ReadKey(s[1..]);
      if k.rest == "" || k.rest[0] != '=' then None
      else
        ReadKeyShrinks(k.rest[1..]);
        var v := ReadKey(k.rest[1..]);
        var more := ReadTags(v.rest);
        if more.None? then None else Some(Parsed([(k.value, v.value)] + more.value.value, more.value.rest))
  }

  function ReadFields(s: string): Option<Parsed<seq<(string, FieldValue)>>>
    decreases |s|
  {
    ReadKeyShrinks(s);
    var k := ReadKey(s);
    if k.rest == "" || k.rest[0] != '=' then None
    else
      ReadTextShrinks(k.rest[1..][if |k.rest| > 1 then 1 else 0..]);
      ReadBareShrinks(k.rest[1..]);
      var v := ReadValue(k.rest[1..]);
      if v.None? then None
      else if v.value.rest == "" || v.value.rest[0] != ',' then Some(Parsed([(k.value, v.value.value)], v.value.rest))
      else
        var more := ReadFields(v.value.rest[1..]);
        if more.None? then None else Some(Parsed([(k.value, v.value.value)] + more.value.value, more.value.rest))
  }

  predicate IsDigit(c: char) {
    '0' <= c <= '9'
  }

  /** The digits from here on, after `so` has been read. */
  function ReadNat(s: string, so: nat): Parsed<int> {
    if s == "" || !IsDigit(s[0]) then Parsed(so, s) else ReadNat(s[1..], so * 10 + (s[0] as int - '0' as int))
  }

  function ReadInt(s: string): Option<Parsed<int>> {
    if s != "" && s[0] == '-' then
      if |s| > 1 && IsDigit(s[1]) then
        var r := ReadNat(s[1..], 0);
        Some(Parsed(-r.value, r.rest))
      else None
    else if s != "" && IsDigit(s[0]) then
      var r := ReadNat(s, 0);
      Some(Parsed(r.value, r.rest))
    else None
  }

  function ReadPoint(s: string): Option<Parsed<Point>> {
    var m := ReadKey(s);
    var tags := ReadTags(m.rest);
    if tags.None? || tags.value.rest == "" || tags.value.rest[0] != ' ' then None
    else
      var fields := ReadFields(tags.value.rest[1..]);
      if fields.None? || fields.value.rest == "" || fields.value.rest[0] != ' ' then None
      else
        var stamp := ReadInt(fields.value.rest[1..]);
        if stamp.None? then None
        else Some(Parsed(Point(m.value, tags.value.value, fields.value.value, stamp.value.value), stamp.value.rest))
  }

  lemma ReadTagsShrinks(s: string)
    ensures ReadTags(s).Some? ==> |ReadTags(s).value.rest| <= |s|
    decreases |s|
  {
    if s != "" && s[0] == ',' {
      var k := ReadKey(s[1..]);
      ReadKeyShrinks(s[1..]);
      if k.rest != "" && k.rest[0] == '=' {
        ReadKeyShrinks(k.rest[1..]);
        ReadTagsShrinks(ReadKey(k.rest[1..]).rest);
      }
    }
  }

  lemma ReadValueShrinks(s: string)
    ensures ReadValue(s).Some? ==> |ReadValue(s).value.rest| <= |s|
  {
    if s != "" && s[0] == '"' {
      ReadTextShrinks(s[1..]);
    } else {
      ReadBareShrinks(s);
    }
  }

  lemma ReadFieldsShrinks(s: string)
    ensures ReadFields(s).Some? ==> |ReadFields(s).value.rest| <= |s|
    decreases |s|
  {
    var k := ReadKey(s);
    ReadKeyShrinks(s);
    if k.rest != "" && k.rest[0] == '=' {
      ReadValueShrinks(k.rest[1..]);
      var v := ReadValue(k.rest[1..]);
      if v.Some? && v.value.rest != "" && v.value.rest[0] == ',' {
        ReadFieldsShrinks(v.value.rest[1..]);
      }
    }
  }

  lemma ReadNatShrinks(s: string, so: nat)
    ensures |ReadNat(s, so).rest| <= |s|
  {
  }

  lemma ReadPointShrinks(s: string)
    ensures ReadPoint(s).Some? ==> |ReadPoint(s).value.rest| <= |s|
  {
    var m := ReadKey(s);
    ReadKeyShrinks(s);
    ReadTagsShrinks(m.rest);
    var tags := ReadTags(m.rest);
    if tags.Some? && tags.value.rest != "" {
      var from := tags.value.rest[1..];
      ReadFieldsShrinks(from);
      if ReadFields(from).Some? && ReadFields(from).value.rest != "" {
        var digits := ReadFields(from).value.rest[1..];
        ReadNatShrinks(digits, 0);
        if digits != "" {
          ReadNatShrinks(digits[1..], 0);
        }
      }
    }
  }

  /** Every point of a body of lines. */
  function ReadBatch(s: string): Option<seq<Point>>
    decreases |s|
  {
    var p := ReadPoint(s);
    ReadPointShrinks(s);
    if p.None? then None
    else if p.value.rest == "" then Some([p.value.value])
    else if p.value.rest[0] != '\n' then None
    else
      var more := ReadBatch(p.value.rest[1..]);
      if more.None? then None else Some([p.value.value] + more.value)
  }

  // ---------- what is written is what is read ----------

  /** Nothing follows, or a separator does. */
  predicate Ends(rest: string) {
    rest == "" || rest[0] in {',', '=', ' ', '\n'}
  }

  lemma {:induction false} KeyReadsBack(s: string, rest: string)
    requires OneLine(s) && Ends(rest)
    ensures ReadKey(EscapeKey(s) + rest) == Parsed(s, rest)
  {
    ChainedReplacesAreOnePass(s);
    EscapedKeyReadsBack(s, rest);
  }

  lemma KeyStep(s: string, c: char, after: string)
    requires c != '\n'
    requires s == if c in KEY_SPECIALS then ['\\', c] + after else [c] + after
    ensures ReadKey(s) == Parsed([c] + ReadKey(after).value, ReadKey(after).rest)
  {
    if c in KEY_SPECIALS {
      assert s[2..] == after;
    } else {
      assert s[1..] == after;
    }
  }

  lemma {:induction false} EscapedKeyReadsBack(s: string, rest: string)
    requires OneLine(s) && Ends(rest)
    ensures ReadKey(Escaped(s, KEY_SPECIALS) + rest) == Parsed(s, rest)
  {
    if s == "" {
      assert "" + rest == rest;
    } else {
      EscapedKeyReadsBack(s[1..], rest);
      var head := if s[0] in KEY_SPECIALS then ['\\', s[0]] else [s[0]];
      Regrouped(head, Escaped(s[1..], KEY_SPECIALS), rest, "");
      KeyStep(Escaped(s, KEY_SPECIALS) + rest, s[0], Escaped(s[1..], KEY_SPECIALS) + rest);
      assert s == [s[0]] + s[1..];
    }
  }

  /** Concatenation regrouped, for the shapes the texts below are built in. */
  lemma Regrouped(a: string, b: string, c: string, d: string)
    ensures (a + b) + c == a + (b + c)
    ensures a + b + c + d == a + (b + (c + d))
  {
    assert (a + b) + c == a + (b + c);
    assert a + b + c + d == a + (b + (c + d));
  }

  lemma TextStep(s: string, c: char, after: string)
    requires ReadText(after).Some?
    requires s == if c in TEXT_SPECIALS then ['\\', c] + after else [c] + after
    ensures ReadText(s) == Some(Parsed([c] + ReadText(after).value.value, ReadText(after).value.rest))
  {
    if c in TEXT_SPECIALS {
      assert s[2..] == after;
    } else {
      assert s[1..] == after;
    }
  }

  lemma {:induction false} TextReadsBack(s: string, rest: string)
    ensures ReadText(Escaped(s, TEXT_SPECIALS) + ("\"" + rest)) == Some(Parsed(s, rest))
  {
    var tail := "\"" + rest;
    if s == "" {
      assert "" + tail == tail && tail[1..] == rest;
    } else {
      TextReadsBack(s[1..], rest);
      var head := if s[0] in TEXT_SPECIALS then ['\\', s[0]] else [s[0]];
      Regrouped(head, Escaped(s[1..], TEXT_SPECIALS), tail, "");
      TextStep(Escaped(s, TEXT_SPECIALS) + tail, s[0], Escaped(s[1..], TEXT_SPECIALS) + tail);
      assert s == [s[0]] + s[1..];
    }
  }

  lemma {:induction false} BareReadsBack(digits: string, rest: string)
    requires forall i :: 0 <= i < |digits| ==> digits[i] !in BARE_ENDS
    requires rest == "" || rest[0] in BARE_ENDS
    ensures ReadBare(digits + rest) == Parsed(digits, rest)
  {
    if digits == "" {
      assert "" + rest == rest;
    } else {
      BareReadsBack(digits[1..], rest);
      assert digits == [digits[0]] + digits[1..];
      assert (digits + rest)[1..] == digits[1..] + rest;
    }
  }

  predicate Writable(v: FieldValue) {
    v.Bare? ==> Numeric(v.digits)
  }

  lemma QuotedReadsBack(text: string, rest: string)
    ensures ReadValue(ValueText(Text(text)) + rest) == Some(Parsed(Text(text), rest))
  {
    ChainedReplacesAreOnePass(text);
    TextReadsBack(text, rest);
    var after := Escaped(text, TEXT_SPECIALS) + ("\"" + rest);
    Regrouped("\"", Escaped(text, TEXT_SPECIALS), "\"", rest);
    assert ("\"" + after)[1..] == after;
  }

  lemma ValueReadsBack(v: FieldValue, rest: string)
    requires Writable(v) && (rest == "" || rest[0] in BARE_ENDS)
    ensures ReadValue(ValueText(v) + rest) == Some(Parsed(v, rest))
  {
    if v.Text? {
      QuotedReadsBack(v.text, rest);
    } else {
      var word := ValueText(v);
      BareReadsBack(word, rest);
      assert (word + rest)[0] == word[0];
    }
  }

  lemma OneTagReads(s: string, k: string, afterKey: string, v: string, afterValue: string)
    requires ReadKey(s) == Parsed(k, "=" + afterKey) && ReadKey(afterKey) == Parsed(v, afterValue)
    ensures var more := ReadTags(afterValue);
            ReadTags("," + s) == if more.None? then None else Some(Parsed([(k, v)] + more.value.value, more.value.rest))
  {
    assert ("," + s)[1..] == s && ("=" + afterKey)[1..] == afterKey;
  }

  lemma TagRegrouped(k: string, v: string, more: string, rest: string)
    ensures ("," + k + "=" + v + more) + rest == "," + (k + ("=" + (v + (more + rest))))
  {
    Regrouped("," + k + "=", v, more, rest);
    Regrouped(",", k, "=", v + (more + rest));
  }

  lemma FirstTagReads(k: string, v: string, more: string)
    requires OneLine(k) && OneLine(v) && Ends(more)
    ensures var r := ReadTags(more);
            ReadTags("," + (EscapeKey(k) + ("=" + (EscapeKey(v) + more))))
              == if r.None? then None else Some(Parsed([(k, v)] + r.value.value, r.value.rest))
  {
    var value := EscapeKey(v) + more;
    KeyReadsBack(v, more);
    KeyReadsBack(k, "=" + value);
    OneTagReads(EscapeKey(k) + ("=" + value), k, value, v, more);
  }

  lemma {:induction false} TagsReadBack(tags: seq<(string, string)>, rest: string)
    requires TagsText(tags).Some? && rest != "" && rest[0] == ' '
    ensures ReadTags(TagsText(tags).value + rest) == Some(Parsed(tags, rest))
  {
    if tags == [] {
      assert "" + rest == rest;
    } else {
      TagsReadBack(tags[1..], rest);
      TagsTextEnds(tags[1..], rest);
      FirstTagReads(tags[0].0, tags[0].1, TagsText(tags[1..]).value + rest);
      TagRegrouped(EscapeKey(tags[0].0), EscapeKey(tags[0].1), TagsText(tags[1..]).value, rest);
      assert tags == [(tags[0].0, tags[0].1)] + tags[1..];
    }
  }

  lemma TagsTextEnds(tags: seq<(string, string)>, rest: string)
    requires TagsText(tags).Some? && Ends(rest)
    ensures Ends(TagsText(tags).value + rest)
  {
    if tags == [] {
      assert "" + rest == rest;
    }
  }

  ghost predicate AllWritable(fields: seq<(string, FieldValue)>) {
    forall i :: 0 <= i < |fields| ==> Writable(fields[i].1)
  }

  lemma OneFieldReads(s: string, k: string, afterKey: string, v: FieldValue, afterValue: string)
    requires ReadKey(s) == Parsed(k, "=" + afterKey) && ReadValue(afterKey) == Some(Parsed(v, afterValue))
    ensures if afterValue == "" || afterValue[0] != ',' then ReadFields(s) == Some(Parsed([(k, v)], afterValue))
            else
              var more := ReadFields(afterValue[1..]);
              ReadFields(s) == if more.None? then None else Some(Parsed([(k, v)] + more.value.value, more.value.rest))
  {
    assert ("=" + afterKey)[1..] == afterKey;
  }

  lemma AnotherFieldReads(
    s: string, k: string, afterKey: string, v: FieldValue, more: string, tail: seq<(string, FieldValue)>, rest: string)
    requires ReadKey(s) == Parsed(k, "=" + afterKey) && ReadValue(afterKey) == Some(Parsed(v, "," + more))
    requires ReadFields(more) == Some(Parsed(tail, rest))
    ensures ReadFields(s) == Some(Parsed([(k, v)] + tail, rest))
  {
    assert ("," + more)[1..] == more;
    OneFieldReads(s, k, afterKey, v, "," + more);
  }

  lemma FieldRegrouped(k: string, v: string, more: string, rest: string)
    ensures (k + "=" + v) + rest == k + ("=" + (v + rest))
    ensures (k + "=" + v + "," + more) + rest == k + ("=" + (v + ("," + (more + rest))))
  {
    Regrouped(k, "=", v, rest);
    Regrouped(k + "=" + v, ",", more, rest);
    Regrouped(k, "=", v, "," + (more + rest));
  }

  /** What follows the first field. */
  function AfterFirst(fields: seq<(string, FieldValue)>, rest: string): string
    requires fields != [] && FieldsText(fields).Some?
  {
    if |fields| == 1 then rest else "," + (FieldsText(fields[1..]).value + rest)
  }

  lemma FirstField(fields: seq<(string, FieldValue)>, rest: string)
    requires fields != [] && FieldsText(fields).Some?
    ensures FieldsText(fields).value + rest
         == EscapeKey(fields[0].0) + ("=" + (ValueText(fields[0].1) + AfterFirst(fields, rest)))
  {
    FieldRegrouped(EscapeKey(fields[0].0), ValueText(fields[0].1),
                   if |fields| == 1 then "" else FieldsText(fields[1..]).value, rest);
  }

  lemma FirstFieldReads(fields: seq<(string, FieldValue)>, rest: string)
    requires fields != [] && FieldsText(fields).Some? && AllWritable(fields)
    requires rest != "" && rest[0] == ' '
    ensures ReadKey(FieldsText(fields).value + rest)
         == Parsed(fields[0].0, "=" + (ValueText(fields[0].1) + AfterFirst(fields, rest)))
    ensures ReadValue(ValueText(fields[0].1) + AfterFirst(fields, rest))
         == Some(Parsed(fields[0].1, AfterFirst(fields, rest)))
  {
    FirstField(fields, rest);
    ValueReadsBack(fields[0].1, AfterFirst(fields, rest));
    KeyReadsBack(fields[0].0, "=" + (ValueText(fields[0].1) + AfterFirst(fields, rest)));
  }

  lemma TheFieldsAfterTheFirst(fields: seq<(string, FieldValue)>, rest: string)
    requires |fields| > 1 && FieldsText(fields).Some? && AllWritable(fields)
    ensures FieldsText(fields[1..]).Some? && AllWritable(fields[1..])
    ensures AfterFirst(fields, rest) == "," + (FieldsText(fields[1..]).value + rest)
    ensures fields == [(fields[0].0, fields[0].1)] + fields[1..]
  {
    assert forall i :: 0 <= i < |fields[1..]| ==> fields[1..][i] == fields[i + 1];
  }

  lemma {:induction false} FieldsReadBack(fields: seq<(string, FieldValue)>, rest: string)
    requires fields != [] && FieldsText(fields).Some? && AllWritable(fields)
    requires rest != "" && rest[0] == ' '
    ensures ReadFields(FieldsText(fields).value + rest) == Some(Parsed(fields, rest))
  {
    var s := FieldsText(fields).value + rest;
    var (k, v) := fields[0];
    var afterKey := ValueText(v) + AfterFirst(fields, rest);
    FirstFieldReads(fields, rest);
    if |fields| > 1 {
      TheFieldsAfterTheFirst(fields, rest);
      FieldsReadBack(fields[1..], rest);
      AnotherFieldReads(s, k, afterKey, v, FieldsText(fields[1..]).value + rest, fields[1..], rest);
    } else {
      OneFieldReads(s, k, afterKey, v, rest);
      assert fields == [(k, v)];
    }
  }

  lemma NatReadsBack(n: nat, rest: string)
    requires rest == "" || !IsDigit(rest[0])
    ensures ReadNat(NatText(n) + rest, 0) == Parsed(n, rest)
    ensures NatText(n) != "" && IsDigit(NatText(n)[0])
  {
    NatTextSteps(n, rest);
  }

  /** Reading the digits of a number leaves the number read so far. */
  lemma {:induction false} NatTextSteps(n: nat, rest: string)
    ensures ReadNat(NatText(n) + rest, 0) == ReadNat(rest, n)
    ensures NatText(n) != "" && IsDigit(NatText(n)[0])
  {
    if n < 10 {
      assert ([DigitText(n)] + rest)[1..] == rest;
    } else {
      var last := [DigitText(n % 10)];
      NatTextSteps(n / 10, last + rest);
      assert NatText(n) + rest == NatText(n / 10) + (last + rest);
      assert (last + rest)[1..] == rest;
    }
  }

  lemma IntReadsBack(n: int, rest: string)
    requires rest == "" || !IsDigit(rest[0])
    ensures ReadInt(IntText(n) + rest) == Some(Parsed(n, rest))
  {
    if n < 0 {
      NatReadsBack(-n, rest);
      Regrouped("-", NatText(-n), rest, "");
      assert ("-" + (NatText(-n) + rest))[1..] == NatText(-n) + rest;
      assert (NatText(-n) + rest)[0] == NatText(-n)[0];
    } else {
      NatReadsBack(n, rest);
      assert (NatText(n) + rest)[0] == NatText(n)[0];
    }
  }

  predicate Sendable(p: Point) {
    Word(p.measurement) && p.fields != [] && forall i :: 0 <= i < |p.fields| ==> Writable(p.fields[i].1)
  }

  lemma {:induction false} WordReadsBack(s: string, rest: string)
    requires Word(s) && Ends(rest)
    ensures ReadKey(s + rest) == Parsed(s, rest)
  {
    if s == "" {
      assert "" + rest == rest;
    } else {
      WordReadsBack(s[1..], rest);
      assert s == [s[0]] + s[1..];
      assert (s + rest)[1..] == s[1..] + rest;
    }
  }

  lemma PointReads(
    s: string, m: string, afterName: string, tags: seq<(string, string)>, afterTags: string,
    fields: seq<(string, FieldValue)>, afterFields: string, stamp: int, rest: string)
    requires ReadKey(s) == Parsed(m, afterName)
    requires ReadTags(afterName) == Some(Parsed(tags, " " + afterTags))
    requires ReadFields(afterTags) == Some(Parsed(fields, " " + afterFields))
    requires ReadInt(afterFields) == Some(Parsed(stamp, rest))
    ensures ReadPoint(s) == Some(Parsed(Point(m, tags, fields, stamp), rest))
  {
    assert (" " + afterTags)[1..] == afterTags && (" " + afterFields)[1..] == afterFields;
  }

  lemma PointRegrouped(m: string, tags: string, fields: string, stamp: string, rest: string)
    ensures (m + tags + " " + fields + " " + stamp) + rest == m + (tags + (" " + (fields + (" " + (stamp + rest)))))
  {
    Regrouped(m + tags + " " + fields, " ", stamp, rest);
    Regrouped(m + tags, " ", fields, " " + (stamp + rest));
    Regrouped(m, tags, " " + (fields + (" " + (stamp + rest))), "");
  }

  /** For every point the encoder accepts, whatever its tags, keys and texts hold, reading the line
      gives back exactly that point and stops exactly where the line does. */
  lemma PointReadsBack(p: Point, rest: string)
    requires Sendable(p) && Encode(p).Some? && (rest == "" || rest[0] == '\n')
    ensures ReadPoint(Encode(p).value + rest) == Some(Parsed(p, rest))
  {
    var stamp := IntText(p.stamp) + rest;
    var fields := FieldsText(p.fields).value + (" " + stamp);
    var tags := TagsText(p.tags).value + (" " + fields);
    assert ReadInt(stamp) == Some(Parsed(p.stamp, rest)) by {
      IntReadsBack(p.stamp, rest);
    }
    assert ReadFields(fields) == Some(Parsed(p.fields, " " + stamp)) by {
      FieldsReadBack(p.fields, " " + stamp);
    }
    assert ReadTags(tags) == Some(Parsed(p.tags, " " + fields)) by {
      TagsReadBack(p.tags, " " + fields);
    }
    assert ReadKey(p.measurement + tags) == Parsed(p.measurement, tags) by {
      TagsTextEnds(p.tags, " " + fields);
      WordReadsBack(p.measurement, tags);
    }
    PointReads(p.measurement + tags, p.measurement, tags, p.tags, fields, p.fields, stamp, p.stamp, rest);
    PointRegrouped(p.measurement, TagsText(p.tags).value, FieldsText(p.fields).value, IntText(p.stamp), rest);
  }

  /** The encoder refuses a point exactly where a key or a tag value holds a line break. */
  lemma {:induction false} RefusedExactlyForALineBreak(p: Point)
    requires p.fields != []
    ensures Encode(p).Some? <==>
              && (forall i :: 0 <= i < |p.tags| ==> OneLine(p.tags[i].0) && OneLine(p.tags[i].1))
              && (forall i :: 0 <= i < |p.fields| ==> OneLine(p.fields[i].0))
  {
    TagsAccepted(p.tags);
    FieldsAccepted(p.fields);
  }

  lemma {:induction false} TagsAccepted(tags: seq<(string, string)>)
    ensures TagsText(tags).Some? <==> forall i :: 0 <= i < |tags| ==> OneLine(tags[i].0) && OneLine(tags[i].1)
  {
    if tags != [] {
      TagsAccepted(tags[1..]);
      assert forall i :: 0 < i < |tags| ==> tags[i] == tags[1..][i - 1];
    }
  }

  lemma {:induction false} FieldsAccepted(fields: seq<(string, FieldValue)>)
    requires fields != []
    ensures FieldsText(fields).Some? <==> forall i :: 0 <= i < |fields| ==> OneLine(fields[i].0)
  {
    if |fields| > 1 {
      FieldsAccepted(fields[1..]);
      assert forall i :: 0 < i < |fields| ==> fields[i] == fields[1..][i - 1];
    }
  }

  // ---------- batches ----------

  predicate AllSendable(points: seq<Point>) {
    forall i :: 0 <= i < |points| ==> Sendable(points[i]) && Encode(points[i]).Some?
  }

  /** The lines of these points. */
  function Lines(points: seq<Point>): seq<string>
    requires AllSendable(points)
  {
    if points == [] then [] else [Encode(points[0]).value] + Lines(points[1..])
  }

  /** Lines joined by newlines, as a request's body is. */
  function Joined(lines: seq<string>): string
    requires lines != []
  {
    if |lines| == 1 then lines[0] else lines[0] + "\n" + Joined(lines[1..])
  }

  lemma OneLineOfBatch(line: string, p: Point, more: string)
    requires Sendable(p) && Encode(p) == Some(line)
    ensures ReadBatch(line) == Some([p])
    ensures var after := ReadBatch(more);
            ReadBatch(line + "\n" + more) == if after.None? then None else Some([p] + after.value)
  {
    PointReadsBack(p, "");
    assert line + "" == line;
    var rest := "\n" + more;
    PointReadsBack(p, rest);
    Regrouped(line, "\n", more, "");
    assert rest[1..] == more;
  }

  lemma {:induction false} JoinedLines(points: seq<Point>)
    requires points != [] && AllSendable(points)
    ensures Lines(points) != []
    ensures |points| > 1 ==> Lines(points[1..]) != []
    ensures Joined(Lines(points)) == if |points| == 1 then Encode(points[0]).value
                                     else Encode(points[0]).value + "\n" + Joined(Lines(points[1..]))
  {
    assert Lines(points)[1..] == Lines(points[1..]);
  }

  lemma BatchOfOne(points: seq<Point>)
    requires |points| == 1 && AllSendable(points)
    ensures Lines(points) != [] && ReadBatch(Joined(Lines(points))) == Some(points)
  {
    JoinedLines(points);
    OneLineOfBatch(Encode(points[0]).value, points[0], "");
    assert points == [points[0]];
  }

  lemma OneMoreLineReads(body: string, line: string, p: Point, rest: string, more: seq<Point>)
    requires Sendable(p) && Encode(p) == Some(line) && body == line + "\n" + rest
    requires ReadBatch(rest) == Some(more)
    ensures ReadBatch(body) == Some([p] + more)
  {
    OneLineOfBatch(line, p, rest);
  }

  lemma SplitPoints(points: seq<Point>)
    requires |points| > 1 && AllSendable(points)
    ensures points == [points[0]] + points[1..] && AllSendable(points[1..])
    ensures Sendable(points[0]) && Encode(points[0]).Some?
  {
  }

  /** A body of lines reads back as the same points, each once and in order, although a text value may
      itself hold newlines. */
  lemma {:induction false} BatchReadsBack(points: seq<Point>)
    requires points != [] && AllSendable(points)
    ensures Lines(points) != [] && ReadBatch(Joined(Lines(points))) == Some(points)
  {
    if |points| == 1 {
      BatchOfOne(points);
    } else {
      SplitPoints(points);
      BatchReadsBack(points[1..]);
      JoinedLines(points);
      OneMoreLineReads(Joined(Lines(points)), Encode(points[0]).value, points[0],
                       Joined(Lines(points[1..])), points[1..]);
    }
  }

  /** So a body of lines determines its points. */
  lemma BodiesDetermineTheirPoints(a: seq<Point>, b: seq<Point>)
    requires a != [] && AllSendable(a) && b != [] && AllSendable(b)
    ensures Lines(a) != [] && Lines(b) != []
    ensures Joined(Lines(a)) == Joined(Lines(b)) ==> a == b
  {
    BatchReadsBack(a);
    BatchReadsBack(b);
  }
}
