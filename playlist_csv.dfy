/**
 * The CSV text the playlist exporter saves: a header line of the first
 * record's keys, then one line per record of its values, each value in double
 * quotes with its own double quotes doubled. A reader of such quoted rows is
 * written beside it and proved to give every record's values back.
 */
module PlaylistCsv {
  import opened Optional
  import opened JsText

  /** One property of an exported record, its value already through `String(value)`. */
  datatype Field = Field(key: string, value: string)

  /** An exported record: its properties in their own order. */
  type Record = seq<Field>

  /** `Object.keys(row)`. */
  function Keys(row: Record): seq<string> {
    seq(|row|, i requires 0 <= i < |row| => row[i].key)
  }

  /** `Object.values(row)`. */
  function ValuesOf(row: Record): seq<string> {
    seq(|row|, i requires 0 <= i < |row| => row[i].value)
  }

  /** `s.replace(/"/g, '""')`. */
  function Escape(s: string): (r: string)
    ensures |r| >= |s|
  {
    if s == [] then "" else (if s[0] == '"' then "\"\"" else [s[0]]) + Escape(s[1..])
  }

  /** A value written as a CSV field. */
  function Quote(value: string): string {
    "\"" + Escape(value) + "\""
  }

  function QuoteAll(values: seq<string>): (qs: seq<string>)
    ensures |qs| == |values| && forall i :: 0 <= i < |values| ==> qs[i] == Quote(values[i])
  {
    seq(|values|, i requires 0 <= i < |values| => Quote(values[i]))
  }

  /** The header line: the keys joined by commas, not quoted. */
  function Header(row: Record): string {
    Join(Keys(row), ",")
  }

  /** A record's line: its quoted values joined by commas. */
  function Row(row: Record): string {
    Join(QuoteAll(ValuesOf(row)), ",")
  }

  function Rows(data: seq<Record>): (rows: seq<string>)
    ensures |rows| == |data| && forall i :: 0 <= i < |data| ==> rows[i] == Row(data[i])
  {
    seq(|data|, i requires 0 <= i < |data| => Row(data[i]))
  }

  /**
   * `convertToCSV`: nothing for no records; otherwise the header of the first
   * record and a line per record, joined by `\n` with no newline at the end.
   */
  function ConvertToCsv(data: seq<Record>): (csv: string)
    ensures csv == "" <==> data == []
  {
    if |data| == 0 then ""
    else
      var lines := [Header(data[0])] + Rows(data);
      assert Join(lines, "\n") == lines[0] + "\n" + Join(lines[1..], "\n");
      Join(lines, "\n")
  }

  // ---------------------------------------------------------------------------
  // Reading the fields back
  // ---------------------------------------------------------------------------

  /**
   * The body of a quoted field, up to its closing quote, a doubled quote
   * standing for one: the value and what follows the closing quote.
   */
  function ReadBody(s: string): (r: Option<(string, string)>)
    ensures r.Some? ==> |r.value.1| < |s|
  {
    if s == [] then None
    else if s[0] == '"' then
      if |s| >= 2 && s[1] == '"' then
        match ReadBody(s[2..])
        case None => None
        case Some((v, rest)) => Some(("\"" + v, rest))
      else Some(("", s[1..]))
    else
      match ReadBody(s[1..])
      case None => None
      case Some((v, rest)) => Some(([s[0]] + v, rest))
  }

  /** One or more quoted fields separated by commas. */
  function ReadFields(s: string): Option<seq<string>>
    decreases |s|
  {
    if |s| == 0 || s[0] != '"' then None
    else
      match ReadBody(s[1..])
      case None => None
      case Some((v, rest)) =>
        if rest == [] then Some([v])
        else if rest[0] != ',' then None
        else
          match ReadFields(rest[1..])
          case None => None
          case Some(vs) => Some([v] + vs)
  }

  /** A line of quoted fields; the empty line has none. */
  function ReadRow(line: string): Option<seq<string>> {
    if line == [] then Some([]) else ReadFields(line)
  }

  /** The escaped value, then the closing quote, reads back as the value. */
  lemma {:induction false} ReadEscaped(v: string, rest: string)
    requires rest == [] || rest[0] != '"'
    ensures ReadBody(Escape(v) + "\"" + rest) == Some((v, rest))
  {
    if v == [] {
      ReadClosing(rest);
    } else {
      ReadEscaped(v[1..], rest);
      EscapeCons(v, rest);
      ReadBodyCons(v[0], Escape(v[1..]) + "\"" + rest, v[1..], rest);
      assert [v[0]] + v[1..] == v;
    }
  }

  lemma ReadClosing(rest: string)
    requires rest == [] || rest[0] != '"'
    ensures ReadBody(Escape([]) + "\"" + rest) == Some(([], rest))
  {
    var s := "\"" + rest;
    assert Escape([]) + "\"" + rest == s && s[1..] == rest;
  }

  /** The escape of a non-empty text is the escape of its first character before the rest's. */
  lemma EscapeCons(v: string, rest: string)
    requires v != []
    ensures Escape(v) + "\"" + rest == (if v[0] == '"' then "\"\"" else [v[0]]) + (Escape(v[1..]) + "\"" + rest)
  {
  }

  /** Reading one more escaped character in front of a readable body. */
  lemma ReadBodyCons(c: char, t: string, w: string, rest: string)
    requires ReadBody(t) == Some((w, rest))
    ensures ReadBody((if c == '"' then "\"\"" else [c]) + t) == Some(([c] + w, rest))
  {
    if c == '"' {
      var s := "\"\"" + t;
      assert s[2..] == t;
    } else {
      var s := [c] + t;
      assert s[1..] == t;
    }
  }

  /** Quoted values joined by commas read back as the values. */
  lemma {:induction false} ReadQuotedFields(values: seq<string>)
    requires |values| >= 1
    ensures ReadFields(Join(QuoteAll(values), ",")) == Some(values)
  {
    var v := values[0];
    if |values| == 1 {
      ReadLastField(v);
      assert values == [v];
    } else {
      ReadQuotedFields(values[1..]);
      JoinQuoteAll(values);
      ReadFieldCons(v, Join(QuoteAll(values[1..]), ","));
      assert [v] + values[1..] == values;
    }
  }

  /** Joining two or more quoted values: the first one, a comma, then the rest joined. */
  lemma JoinQuoteAll(values: seq<string>)
    requires |values| >= 2
    ensures Join(QuoteAll(values), ",") == Quote(values[0]) + "," + Join(QuoteAll(values[1..]), ",")
  {
    assert QuoteAll(values)[1..] == QuoteAll(values[1..]);
  }

  /** One quoted value alone reads back as that value. */
  lemma ReadLastField(v: string)
    ensures ReadFields(Quote(v)) == Some([v])
  {
    ReadEscaped(v, "");
    var s := Quote(v);
    assert s == "\"" + (Escape(v) + "\"" + "");
    assert s[1..] == Escape(v) + "\"" + "";
  }

  /** A quoted value and a comma in front of readable fields add that value in front. */
  lemma ReadFieldCons(v: string, tail: string)
    ensures ReadFields(Quote(v) + "," + tail) == match ReadFields(tail) case None => None case Some(vs) => Some([v] + vs)
  {
    ReadEscaped(v, "," + tail);
    var s := Quote(v) + "," + tail;
    assert s == "\"" + (Escape(v) + "\"" + ("," + tail));
    assert s[1..] == Escape(v) + "\"" + ("," + tail);
    assert ("," + tail)[1..] == tail;
  }

  /** Every record's line reads back as its values. */
  lemma RowReadBack(row: Record)
    ensures ReadRow(Row(row)) == Some(ValuesOf(row))
  {
    if |row| > 0 {
      ReadQuotedFields(ValuesOf(row));
      assert Row(row) != [] by {
        assert Row(row)[0] == '"';
      }
    }
  }

  /** Leaving the other texts out, the separators are the only place a character comes from. */
  lemma {:induction false} JoinAvoids(parts: seq<string>, sep: string, c: char)
    requires c !in sep && forall p :: p in parts ==> c !in p
    ensures c !in Join(parts, sep)
  {
    if |parts| > 1 {
      JoinAvoids(parts[1..], sep, c);
    }
  }

  lemma {:induction false} EscapeAvoids(s: string, c: char)
    requires c != '"' && c !in s
    ensures c !in Escape(s)
  {
    if s != [] {
      EscapeAvoids(s[1..], c);
    }
  }

  /** No line break in a record means none in its line. */
  lemma RowAvoids(row: Record, c: char)
    requires c != '"' && c != ','
    requires forall i :: 0 <= i < |row| ==> c !in row[i].value
    ensures c !in Row(row)
  {
    var qs := QuoteAll(ValuesOf(row));
    forall q | q in qs ensures c !in q {
      var i :| 0 <= i < |qs| && qs[i] == q;
      EscapeAvoids(row[i].value, c);
    }
    JoinAvoids(qs, ",", c);
  }

  /** No key or value of any record holds the character `c`. */
  predicate Avoids(data: seq<Record>, c: char) {
    forall i, k :: 0 <= i < |data| && 0 <= k < |data[i]| ==> c !in data[i][k].key && c !in data[i][k].value
  }

  /** Without line breaks in the records, none of the output's lines holds one. */
  lemma LinesAvoid(data: seq<Record>)
    requires data != [] && Avoids(data, '\n')
    ensures forall l :: l in [Header(data[0])] + Rows(data) ==> '\n' !in l
  {
    JoinAvoids(Keys(data[0]), ",", '\n');
    forall i | 0 <= i < |data| ensures '\n' !in Row(data[i]) {
      RowAvoids(data[i], '\n');
    }
  }

  /**
   * When no key or value holds a line break, the text splits into the header
   * and one line per record, in order, each reading back as the record's
   * values.
   */
  lemma ConvertToCsvReadBack(data: seq<Record>)
    requires data != [] && Avoids(data, '\n')
    ensures var lines := Split(ConvertToCsv(data), '\n');
      && |lines| == |data| + 1
      && lines[0] == Header(data[0])
      && forall i :: 0 <= i < |data| ==> ReadRow(lines[i + 1]) == Some(ValuesOf(data[i]))
  {
    var lines := [Header(data[0])] + Rows(data);
    LinesAvoid(data);
    SplitJoin(lines, '\n');
    forall i | 0 <= i < |data| ensures ReadRow(lines[i + 1]) == Some(ValuesOf(data[i])) {
      RowReadBack(data[i]);
    }
  }

  /** Only the first record's keys make the header: the keys of later records do not matter. */
  lemma HeaderFromFirstRecord(data: seq<Record>, data': seq<Record>)
    requires |data| == |data'| > 0 && Keys(data[0]) == Keys(data'[0])
    requires forall i :: 0 <= i < |data| ==> ValuesOf(data[i]) == ValuesOf(data'[i])
    ensures ConvertToCsv(data) == ConvertToCsv(data')
  {
    assert Rows(data) == Rows(data');
  }
}
