/** The statements the migration sends with a name from the database inside them
    (escape_influxql_string and escape_influxql_identifier in scripts/migrate-nuki-device-tag.py),
    and a reader of InfluxQL's quoted strings: the name that is read is the name that was meant. */
module InfluxQL {
  import opened Numbers
  import opened LineProtocol

  // ---------- quoted strings ----------

  /** What a backslash and this character stand for, where they stand for anything. */
  function Meaning(c: char): Option<char> {
    if c == '\\' || c == '"' || c == '\'' then Some(c) else if c == 'n' then Some('\n') else None
  }

  /** From after the opening quote to the quote that closes it. None is a string InfluxDB refuses: one
      that never ends, runs over a line, or holds an escape that means nothing. */
  function ReadQuoted(s: string, quote: char): Option<Parsed<string>> {
    if s == "" || s[0] == '\n' then None
    else if s[0] == quote then Some(Parsed("", s[1..]))
    else if s[0] == '\\' then
      if |s| == 1 || Meaning(s[1]).None? then None else Before(Meaning(s[1]).value, ReadQuoted(s[2..], quote))
    else Before(s[0], ReadQuoted(s[1..], quote))
  }

  function Before(c: char, r: Option<Parsed<string>>): Option<Parsed<string>> {
    if r.None? then None else Some(Parsed([c] + r.value.value, r.value.rest))
  }

  lemma QuotedStep(s: string, quote: char, c: char, after: string)
    requires quote == '"' || quote == '\''
    requires s == (if c in {'\\', quote} then ['\\', c] + after else [c] + after)
    ensures ReadQuoted(s, quote) == if c == '\n' then None else Before(c, ReadQuoted(after, quote))
  {
    if c in {'\\', quote} {
      assert s[2..] == after;
    } else {
      assert s[1..] == after;
    }
  }

  /** One character more in front of what is read. */
  lemma OneMoreCharacter(c: char, quote: char, rest: string, after: string, text: string)
    requires quote == '"' || quote == '\''
    requires ReadQuoted(after, quote) == if '\n' in text then None else Some(Parsed(text, rest))
    ensures ReadQuoted((if c in {'\\', quote} then ['\\', c] else [c]) + after, quote)
         == if '\n' in [c] + text then None else Some(Parsed([c] + text, rest))
  {
    QuotedStep((if c in {'\\', quote} then ['\\', c] else [c]) + after, quote, c, after);
  }

  lemma {:induction false} EscapedReadsBack(s: string, quote: char, rest: string)
    requires quote == '"' || quote == '\''
    ensures ReadQuoted(Escaped(s, {'\\', quote}) + ([quote] + rest), quote)
         == if '\n' in s then None else Some(Parsed(s, rest))
  {
    var tail := [quote] + rest;
    if s == "" {
      assert "" + tail == tail && tail[1..] == rest;
    } else {
      var more := Escaped(s[1..], {'\\', quote});
      EscapedReadsBack(s[1..], quote, rest);
      OneMoreCharacter(s[0], quote, rest, more + tail, s[1..]);
      Regrouped(if s[0] in {'\\', quote} then ['\\', s[0]] else [s[0]], more, tail, "");
      assert s == [s[0]] + s[1..];
    }
  }

  /** For either quote and every name, what is read up to the closing quote is exactly the name, and
      reading stops exactly there; only a name that runs over a line is refused. */
  lemma QuotedNamesReadBack(name: string, quote: char, rest: string)
    requires quote == '"' || quote == '\''
    ensures ReadQuoted(EscapeQuoted(name, quote) + ([quote] + rest), quote)
         == if '\n' in name then None else Some(Parsed(name, rest))
  {
    QuotedEscapeIsOnePass(name, quote);
    EscapedReadsBack(name, quote, rest);
  }

  // ---------- dropping a series ----------

  const DROP := "DROP SERIES FROM \"nuki\" WHERE \"host\" = '"

  function DropStatement(host: string): string {
    DROP + (EscapeQuoted(host, '\'') + "'")
  }

  /** The host whose series a statement drops, where it is a statement that drops one host's series
      and says nothing more. */
  function ReadDrop(prefix: string, text: string): Option<string> {
    if !(prefix <= text) then None
    else
      var r := ReadQuoted(text[|prefix|..], '\'');
      if r.None? || r.value.rest != "" then None else Some(r.value.value)
  }

  lemma DropReads(prefix: string, host: string)
    ensures ReadDrop(prefix, prefix + (EscapeQuoted(host, '\'') + "'")) == if '\n' in host then None else Some(host)
  {
    var quoted := EscapeQuoted(host, '\'') + "'";
    QuotedNamesReadBack(host, '\'', "");
    assert ['\''] + "" == "'";
    assert (prefix + quoted)[|prefix|..] == quoted;
  }

  /** Whatever a host is called, the statement built for it drops the series of that host and of no
      other; a host that runs over a line is refused, and drops nothing. */
  lemma ADropNamesItsHost(host: string)
    ensures ReadDrop(DROP, DropStatement(host)) == if '\n' in host then None else Some(host)
  {
    DropReads(DROP, host);
  }

  /** The series a delete of this host reaches, by its host tag. */
  function Dropped(host: string): (hosts: set<string>)
    ensures hosts == if '\n' in host then {} else {host}
  {
    ADropNamesItsHost(host);
    var named := ReadDrop(DROP, DropStatement(host));
    if named.None? then {} else {named.value}
  }

  // ---------- selecting the old keys ----------

  /** The keys as `read_old_points` lists them: quoted, with a comma and a space between. */
  function Selected(keys: seq<string>): string
    requires keys != []
  {
    var first := "\"" + (EscapeQuoted(keys[0], '"') + "\"");
    if |keys| == 1 then first else first + (", " + Selected(keys[1..]))
  }

  function ReadSelected(s: string): Option<Parsed<seq<string>>>
    decreases |s|
  {
    if s == "" || s[0] != '"' then None
    else
      var first := ReadQuoted(s[1..], '"');
      if first.None? then None
      else
        ReadQuotedShrinks(s[1..], '"');
        if |first.value.rest| < 2 || first.value.rest[..2] != ", "
        then Some(Parsed([first.value.value], first.value.rest))
        else
          var more := ReadSelected(first.value.rest[2..]);
          if more.None? then None else Some(Parsed([first.value.value] + more.value.value, more.value.rest))
  }

  lemma ReadQuotedShrinks(s: string, quote: char)
    ensures ReadQuoted(s, quote).Some? ==> |ReadQuoted(s, quote).value.rest| < |s|
  {
  }

  lemma FirstSelected(key: string, after: string)
    requires '\n' !in key
    ensures var s := ("\"" + (EscapeQuoted(key, '"') + "\"")) + after;
            s[0] == '"' && ReadQuoted(s[1..], '"') == Some(Parsed(key, after))
  {
    var s := ("\"" + (EscapeQuoted(key, '"') + "\"")) + after;
    Regrouped("\"", EscapeQuoted(key, '"'), "\"", after);
    Regrouped("\"", EscapeQuoted(key, '"') + "\"", after, "");
    Regrouped(EscapeQuoted(key, '"'), "\"", after, "");
    QuotedNamesReadBack(key, '"', after);
    assert ['"'] + after == "\"" + after;
    assert s[1..] == EscapeQuoted(key, '"') + ("\"" + after);
  }

  /** Whatever the old keys are called, the list selected is exactly those keys, in order, and ends
      where it should. */
  lemma {:induction false} TheKeysSelectedAreTheKeys(keys: seq<string>, rest: string)
    requires keys != [] && forall i :: 0 <= i < |keys| ==> '\n' !in keys[i]
    requires rest != "" && rest[0] == ' '
    ensures ReadSelected(Selected(keys) + rest) == Some(Parsed(keys, rest))
  {
    var first := "\"" + (EscapeQuoted(keys[0], '"') + "\"");
    if |keys| == 1 {
      FirstSelected(keys[0], rest);
      assert keys == [keys[0]];
    } else {
      var after := ", " + (Selected(keys[1..]) + rest);
      TheKeysSelectedAreTheKeys(keys[1..], rest);
      FirstSelected(keys[0], after);
      Regrouped(first, ", " + Selected(keys[1..]), rest, "");
      Regrouped(", ", Selected(keys[1..]), rest, "");
      assert after[2..] == Selected(keys[1..]) + rest && after[..2] == ", ";
      assert keys == [keys[0]] + keys[1..];
    }
  }
}
