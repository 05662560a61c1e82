/**
 * CSV export: a header of column labels, then one record per data row,
 * fields separated by ',' and records by '\n'. String fields holding a
 * ',', '"' or '\n' are quoted with inner quotes doubled, as rules 6 and 7
 * of section 2 of RFC 4180 ask. A reference parser for that format reads
 * every export back into its fields (ExportParses).
 */
module Export {
  import opened Wrappers

  /**
   * A cell of a data row: absent (`null` / `undefined`), a string, or any
   * other value, which is written as its JavaScript string form unquoted.
   */
  datatype Value = Missing | Str(s: string) | Shown(text: string)

  /** A column's formatter, applied to the row's value before escaping. */
  type Formatter = Value -> Value

  /** A column: its key in the row, its label (`heading`, "" when none) and an optional formatter. */
  datatype Column = Column(key: string, heading: string, formatter: Option<Formatter>)

  /** A string that needs no quotes: no ',', '"' or '\n'. */
  predicate Safe(s: string)
  {
    forall i :: 0 <= i < |s| ==> s[i] != ',' && s[i] != '"' && s[i] != '\n'
  }

  /** Every '"' written twice. */
  function Doubled(s: string): (r: string)
    ensures |r| >= |s|
  {
    if s == [] then []
    else if s[0] == '"' then ['"', '"'] + Doubled(s[1..])
    else [s[0]] + Doubled(s[1..])
  }

  /** The escaping of a string value: quoted, with quotes doubled, iff it is not safe. */
  function Escape(s: string): (r: string)
    ensures Safe(s) ==> r == s
    ensures !Safe(s) ==> |r| >= |s| + 2 && r[0] == '"' && r[|r| - 1] == '"'
  {
    if Safe(s) then s else ['"'] + Doubled(s) + ['"']
  }

  /** A string is left as it is exactly when it is safe. */
  lemma EscapeIdentityIff(s: string)
    ensures Escape(s) == s <==> Safe(s)
  {
  }

  /** `xs.join(sep)`. */
  function Join(xs: seq<string>, sep: char): string
  {
    if |xs| == 0 then []
    else if |xs| == 1 then xs[0]
    else xs[0] + [sep] + Join(xs[1..], sep)
  }

  /** `col.label || col.key`. */
  function HeaderLabel(c: Column): string
  {
    if c.heading != [] then c.heading else c.key
  }

  function Fetch(row: map<string, Value>, key: string): Value
  {
    if key in row then row[key] else Missing
  }

  /** The row's value for the column, after the column's formatter when it has one. */
  function Applied(row: map<string, Value>, c: Column): Value
  {
    var v := Fetch(row, c.key);
    if c.formatter.Some? then c.formatter.value(v) else v
  }

  /** The text of one field: strings escaped, other values as shown, absent values empty. */
  function Cell(v: Value): string
  {
    match v
    case Missing => []
    case Str(s) => Escape(s)
    case Shown(t) => t
  }

  function Labels(cols: seq<Column>): (r: seq<string>)
    ensures |r| == |cols| && forall j :: 0 <= j < |cols| ==> r[j] == HeaderLabel(cols[j])
  {
    seq(|cols|, j requires 0 <= j < |cols| => HeaderLabel(cols[j]))
  }

  function Cells(row: map<string, Value>, cols: seq<Column>): (r: seq<string>)
    ensures |r| == |cols| && forall j :: 0 <= j < |cols| ==> r[j] == Cell(Applied(row, cols[j]))
  {
    seq(|cols|, j requires 0 <= j < |cols| => Cell(Applied(row, cols[j])))
  }

  function Lines(data: seq<map<string, Value>>, cols: seq<Column>): (r: seq<string>)
    ensures |r| == |data| && forall i :: 0 <= i < |data| ==> r[i] == Join(Cells(data[i], cols), ',')
  {
    seq(|data|, i requires 0 <= i < |data| => Join(Cells(data[i], cols), ','))
  }

  /** exportToCSV: the header line, then one line per data row, joined by '\n'. */
  function ExportToCSV(data: seq<map<string, Value>>, cols: seq<Column>): (r: string)
    ensures var header := Join(Labels(cols), ','); |header| <= |r| && r[..|header|] == header
    ensures data == [] ==> r == Join(Labels(cols), ',')
    ensures data != [] ==> |r| > |Join(Labels(cols), ',')| && r[|Join(Labels(cols), ',')|] == '\n'
  {
    Join([Join(Labels(cols), ',')] + Lines(data, cols), '\n')
  }

  // A reference reader for the format: fields are quoted or unquoted,
  // separated by ',', records end at '\n' or at the end of the text.

  /** An unquoted field runs up to the next ',' or '\n'. */
  function ParseUnquoted(s: string): (r: (string, string))
    ensures |r.1| <= |s|
  {
    if s == [] || s[0] == ',' || s[0] == '\n' then ([], s)
    else
      var (f, rest) := ParseUnquoted(s[1..]);
      ([s[0]] + f, rest)
  }

  /** The body of a quoted field, after its opening quote: `""` stands for `"`, a lone `"` closes it. */
  function ParseQuoted(s: string): (r: Option<(string, string)>)
    ensures r.Some? ==> |r.value.1| < |s|
  {
    if s == [] then None
    else if s[0] == '"' then
      if |s| > 1 && s[1] == '"' then
        match ParseQuoted(s[2..])
        case None => None
        case Some((f, rest)) => Some((['"'] + f, rest))
      else Some(([], s[1..]))
    else
      match ParseQuoted(s[1..])
      case None => None
      case Some((f, rest)) => Some(([s[0]] + f, rest))
  }

  function ParseField(s: string): (r: Option<(string, string)>)
    ensures r.Some? ==> |r.value.1| <= |s|
  {
    if s != [] && s[0] == '"' then ParseQuoted(s[1..]) else Some(ParseUnquoted(s))
  }

  /** One record: its fields and, when a '\n' ended it, the text after it. */
  function ParseRecord(s: string): (r: Option<(seq<string>, Option<string>)>)
    ensures r.Some? && r.value.1.Some? ==> |r.value.1.value| < |s|
    decreases |s|
  {
    match ParseField(s)
    case None => None
    case Some((f, rest)) =>
      if rest == [] then Some(([f], None))
      else if rest[0] == '\n' then Some(([f], Some(rest[1..])))
      else if rest[0] == ',' then
        match ParseRecord(rest[1..])
        case None => None
        case Some((fs, more)) => Some(([f] + fs, more))
      else None
  }

  function ParseDocument(s: string): Option<seq<seq<string>>>
    decreases |s|
  {
    match ParseRecord(s)
    case None => None
    case Some((fs, None)) => Some([fs])
    case Some((fs, Some(rest))) =>
      match ParseDocument(rest)
      case None => None
      case Some(recs) => Some([fs] + recs)
  }

  /** Quoted text is read back up to its closing quote. */
  lemma {:induction false} DoubledParses(s: string, tail: string)
    requires tail == [] || tail[0] != '"'
    ensures ParseQuoted(Doubled(s) + ['"'] + tail) == Some((s, tail))
  {
    if s == [] {
      assert Doubled(s) + ['"'] + tail == ['"'] + tail;
    } else {
      var y := Doubled(s[1..]) + ['"'] + tail;
      DoubledParses(s[1..], tail);
      assert Doubled(s) + ['"'] + tail == DoubledChar(s[0]) + y;
      DoubledCharParses(s[0], y, s[1..], tail);
      assert [s[0]] + s[1..] == s;
    }
  }

  /** One character of a quoted field as written: a quote doubled, any other as is. */
  function DoubledChar(c: char): string
  {
    if c == '"' then ['"', '"'] else [c]
  }

  lemma DoubledCharParses(c: char, y: string, f: string, tail: string)
    requires ParseQuoted(y) == Some((f, tail))
    ensures ParseQuoted(DoubledChar(c) + y) == Some(([c] + f, tail))
  {
    if c == '"' {
      assert (['"', '"'] + y)[2..] == y;
    } else {
      assert ([c] + y)[1..] == y;
    }
  }

  lemma {:induction false} SafeParses(s: string, tail: string)
    requires Safe(s) && (tail == [] || tail[0] == ',' || tail[0] == '\n')
    ensures ParseUnquoted(s + tail) == (s, tail)
  {
    if s == [] {
      assert s + tail == tail;
    } else {
      assert s[0] != ',' && s[0] != '\n';
      assert Safe(s[1..]) by {
        forall i | 0 <= i < |s| - 1 ensures s[1..][i] == s[i + 1] { }
      }
      SafeParses(s[1..], tail);
      assert (s + tail)[1..] == s[1..] + tail;
      assert [s[0]] + s[1..] == s;
    }
  }

  /** One escaped field, followed by a separator or the end, reads back as the string. */
  lemma EscapeParses(s: string, tail: string)
    requires tail == [] || tail[0] == ',' || tail[0] == '\n'
    ensures ParseField(Escape(s) + tail) == Some((s, tail))
  {
    if Safe(s) {
      PlainFieldParses(s, tail);
    } else {
      QuotedFieldParses(s, tail);
    }
  }

  lemma PlainFieldParses(s: string, tail: string)
    requires Safe(s) && (tail == [] || tail[0] == ',' || tail[0] == '\n')
    ensures ParseField(s + tail) == Some((s, tail))
  {
    SafeParses(s, tail);
    if s != [] {
      assert s[0] != '"';
    }
  }

  lemma QuotedFieldParses(s: string, tail: string)
    requires !Safe(s) && (tail == [] || tail[0] == ',' || tail[0] == '\n')
    ensures ParseField(Escape(s) + tail) == Some((s, tail))
  {
    var body := Doubled(s) + ['"'] + tail;
    DoubledParses(s, tail);
    assert Escape(s) + tail == ['"'] + body;
    assert (['"'] + body)[1..] == body;
  }

  /** Each string escaped. */
  function EscapeAll(fs: seq<string>): (r: seq<string>)
    ensures |r| == |fs| && forall i :: 0 <= i < |fs| ==> r[i] == Escape(fs[i])
  {
    seq(|fs|, i requires 0 <= i < |fs| => Escape(fs[i]))
  }

  /** A record of escaped fields reads back as the fields. */
  lemma {:induction false} RecordParses(fs: seq<string>, tail: string)
    requires |fs| > 0 && (tail == [] || tail[0] == '\n')
    ensures ParseRecord(Join(EscapeAll(fs), ',') + tail) == Some((fs, if tail == [] then None else Some(tail[1..])))
    decreases |fs|
  {
    var es := EscapeAll(fs);
    if |fs| == 1 {
      assert Join(es, ',') == Escape(fs[0]);
      RecordEnd(fs[0], tail);
      assert [fs[0]] == fs;
    } else {
      RecordParses(fs[1..], tail);
      RecordCons(fs, tail);
    }
  }

  lemma RecordCons(fs: seq<string>, tail: string)
    requires |fs| >= 2 && (tail == [] || tail[0] == '\n')
    requires ParseRecord(Join(EscapeAll(fs[1..]), ',') + tail) == Some((fs[1..], if tail == [] then None else Some(tail[1..])))
    ensures ParseRecord(Join(EscapeAll(fs), ',') + tail) == Some((fs, if tail == [] then None else Some(tail[1..])))
  {
    var rest := Join(EscapeAll(fs[1..]), ',') + tail;
    EscapeAllTail(fs);
    JoinCons(EscapeAll(fs), ',', tail);
    RecordStep(fs[0], rest);
    assert [fs[0]] + fs[1..] == fs;
  }

  /** A field followed by the end or by '\n' is a whole record. */
  lemma RecordEnd(f: string, tail: string)
    requires tail == [] || tail[0] == '\n'
    ensures ParseRecord(Escape(f) + tail) == Some(([f], if tail == [] then None else Some(tail[1..])))
  {
    EscapeParses(f, tail);
  }

  lemma JoinCons(xs: seq<string>, sep: char, tail: string)
    requires |xs| >= 2
    ensures Join(xs, sep) + tail == xs[0] + ([sep] + (Join(xs[1..], sep) + tail))
  {
  }

  lemma EscapeAllTail(fs: seq<string>)
    requires |fs| > 0
    ensures EscapeAll(fs[1..]) == EscapeAll(fs)[1..]
  {
  }

  function Prepend(f: string, r: Option<(seq<string>, Option<string>)>): Option<(seq<string>, Option<string>)>
  {
    match r
    case None => None
    case Some((fs, more)) => Some(([f] + fs, more))
  }

  /** A field followed by ',' starts a record whose other fields follow. */
  lemma RecordStep(f: string, rest: string)
    ensures ParseRecord(Escape(f) + ([','] + rest)) == Prepend(f, ParseRecord(rest))
  {
    EscapeParses(f, [','] + rest);
    assert ([','] + rest)[1..] == rest;
  }

  function LinesOf(recs: seq<seq<string>>): (r: seq<string>)
    ensures |r| == |recs| && forall i :: 0 <= i < |recs| ==> r[i] == Join(EscapeAll(recs[i]), ',')
  {
    seq(|recs|, i requires 0 <= i < |recs| => Join(EscapeAll(recs[i]), ','))
  }

  /** Records of escaped fields, one per line, read back as the records. */
  lemma {:induction false} DocumentParses(recs: seq<seq<string>>)
    requires |recs| > 0 && forall i :: 0 <= i < |recs| ==> |recs[i]| > 0
    ensures ParseDocument(Join(LinesOf(recs), '\n')) == Some(recs)
    decreases |recs|
  {
    if |recs| == 1 {
      DocumentSingle(recs);
    } else {
      DocumentParses(recs[1..]);
      DocumentCons(recs);
    }
  }

  lemma DocumentSingle(recs: seq<seq<string>>)
    requires |recs| == 1 && |recs[0]| > 0
    ensures ParseDocument(Join(LinesOf(recs), '\n')) == Some(recs)
  {
    var ls := LinesOf(recs);
    RecordParses(recs[0], []);
    assert ls[0] + [] == ls[0];
    DocumentEnd(ls[0], recs[0]);
    assert [recs[0]] == recs;
  }

  /** A first record in front of records that read back reads back too. */
  lemma DocumentCons(recs: seq<seq<string>>)
    requires |recs| >= 2 && |recs[0]| > 0
    requires ParseDocument(Join(LinesOf(recs[1..]), '\n')) == Some(recs[1..])
    ensures ParseDocument(Join(LinesOf(recs), '\n')) == Some(recs)
  {
    var rest := Join(LinesOf(recs[1..]), '\n');
    var whole := LinesOf(recs)[0] + (['\n'] + rest);
    LinesJoin(recs);
    assert Join(LinesOf(recs), '\n') == whole;
    FirstRecordParses(recs);
    DocumentStep(whole, recs[0], rest);
    assert ParseDocument(whole) == Some([recs[0]] + recs[1..]);
    assert [recs[0]] + recs[1..] == recs;
  }

  /** The document is its first line, a '\n' and the document of the other records. */
  lemma LinesJoin(recs: seq<seq<string>>)
    requires |recs| >= 2
    ensures Join(LinesOf(recs), '\n') == LinesOf(recs)[0] + (['\n'] + Join(LinesOf(recs[1..]), '\n'))
  {
    var ls := LinesOf(recs);
    var rest := Join(LinesOf(recs[1..]), '\n');
    LinesOfTail(recs);
    JoinCons(ls, '\n', []);
    assert Join(ls, '\n') + [] == Join(ls, '\n');
    assert rest + [] == rest;
  }

  /** The first line, ended by '\n', reads back as the first record and leaves the rest. */
  lemma FirstRecordParses(recs: seq<seq<string>>)
    requires |recs| >= 2 && |recs[0]| > 0
    ensures ParseRecord(LinesOf(recs)[0] + (['\n'] + Join(LinesOf(recs[1..]), '\n'))) ==
      Some((recs[0], Some(Join(LinesOf(recs[1..]), '\n'))))
  {
    var rest := Join(LinesOf(recs[1..]), '\n');
    RecordParses(recs[0], ['\n'] + rest);
    assert (['\n'] + rest)[1..] == rest;
  }

  lemma LinesOfTail(recs: seq<seq<string>>)
    requires |recs| > 0
    ensures LinesOf(recs[1..]) == LinesOf(recs)[1..]
  {
  }

  lemma DocumentEnd(s: string, fs: seq<string>)
    requires ParseRecord(s) == Some((fs, None))
    ensures ParseDocument(s) == Some([fs])
  {
  }

  lemma DocumentStep(s: string, fs: seq<string>, rest: string)
    requires ParseRecord(s) == Some((fs, Some(rest)))
    ensures ParseDocument(rest).Some? ==> ParseDocument(s) == Some([fs] + ParseDocument(rest).value)
  {
  }

  /** What a field reads back as: the string, the shown text, or empty. */
  function CellText(v: Value): string
  {
    match v
    case Missing => []
    case Str(s) => s
    case Shown(t) => t
  }

  /** A value whose field reads back: any string or absent value, and shown text that is safe. */
  predicate Plain(v: Value)
  {
    !v.Shown? || Safe(v.text)
  }

  lemma CellIsEscape(v: Value)
    requires Plain(v)
    ensures Cell(v) == Escape(CellText(v))
  {
    if v.Missing? {
      assert Safe([]);
    }
  }

  /** The fields an export reads back as. */
  function Table(data: seq<map<string, Value>>, cols: seq<Column>): (r: seq<seq<string>>)
    ensures |r| == |data| + 1 && r[0] == Labels(cols)
    ensures forall i :: 0 <= i < |data| ==> (|r[i + 1]| == |cols| &&
      forall j :: 0 <= j < |cols| ==> r[i + 1][j] == CellText(Applied(data[i], cols[j])))
  {
    [Labels(cols)] + seq(|data|, i requires 0 <= i < |data| =>
      seq(|cols|, j requires 0 <= j < |cols| => CellText(Applied(data[i], cols[j]))))
  }

  /**
   * With at least one column, labels that need no quotes (they are written
   * unquoted), and no non-string value whose text holds a separator or a
   * quote, the export reads back as the header labels followed by one
   * record per data row, each holding the column's formatted value.
   */
  lemma ExportParses(data: seq<map<string, Value>>, cols: seq<Column>)
    requires |cols| > 0
    requires forall j :: 0 <= j < |cols| ==> Safe(HeaderLabel(cols[j]))
    requires forall i, j :: 0 <= i < |data| && 0 <= j < |cols| ==> Plain(Applied(data[i], cols[j]))
    ensures ParseDocument(ExportToCSV(data, cols)) == Some(Table(data, cols))
  {
    var t := Table(data, cols);
    TableLines(data, cols);
    DocumentParses(t);
  }

  /** The table's records, escaped and joined, are the export's lines. */
  lemma TableLines(data: seq<map<string, Value>>, cols: seq<Column>)
    requires forall j :: 0 <= j < |cols| ==> Safe(HeaderLabel(cols[j]))
    requires forall i, j :: 0 <= i < |data| && 0 <= j < |cols| ==> Plain(Applied(data[i], cols[j]))
    ensures LinesOf(Table(data, cols)) == [Join(Labels(cols), ',')] + Lines(data, cols)
  {
    var t := Table(data, cols);
    assert EscapeAll(t[0]) == Labels(cols);
    forall i | 0 <= i < |data|
      ensures EscapeAll(t[i + 1]) == Cells(data[i], cols)
    {
      forall j | 0 <= j < |cols|
        ensures EscapeAll(t[i + 1])[j] == Cells(data[i], cols)[j]
      {
        CellIsEscape(Applied(data[i], cols[j]));
      }
    }
    forall k | 1 <= k < |t|
      ensures LinesOf(t)[k] == Lines(data, cols)[k - 1]
    {
      assert EscapeAll(t[(k - 1) + 1]) == Cells(data[k - 1], cols);
    }
  }
}
