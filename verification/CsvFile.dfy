/**
 The CSV writer and a parser that follows section 2 of RFC 4180: records end in CRLF, fields are
 separated by commas, and a field in quotes may hold any character, a quote being doubled.
 */
module CsvFile {
  import opened Layout
  import opened Wrappers

  const BOM: char := '\U{FEFF}'

  type Row = seq<string>

  // ---------- the writer ----------

  predicate NeedsQuotes(c: char) { c == '"' || c == ',' || c == '\r' || c == '\n' }

  predicate Plain(text: string) { forall i :: 0 <= i < |text| ==> !NeedsQuotes(text[i]) }

  /** Every quote of text[from..] doubled. */
  function Doubled(text: string, from: nat): string
    requires from <= |text|
    decreases |text| - from
  {
    if from == |text| then []
    else if text[from] == '"' then ['"', '"'] + Doubled(text, from + 1)
    else [text[from]] + Doubled(text, from + 1)
  }

  function Cell(text: string): string {
    if Plain(text) then text else ['"'] + (Doubled(text, 0) + ['"'])
  }

  /** The cells from number `i` on, joined by commas, and the end of the record. */
  function Record(row: Row, i: nat): string
    requires i < |row|
    decreases |row| - i
  {
    Cell(row[i]) + if i + 1 == |row| then ['\r', '\n'] else [','] + Record(row, i + 1)
  }

  function Line(row: Row): string { if row == [] then ['\r', '\n'] else Record(row, 0) }

  /** The lines of the rows from number `n` on. */
  function Lines(rows: seq<Row>, n: nat): string
    requires n <= |rows|
    decreases |rows| - n
  {
    if n == |rows| then [] else Line(rows[n]) + Lines(rows, n + 1)
  }

  function Csv(rows: seq<Row>): string { [BOM] + Lines(rows, 0) }

  // ---------- the parser ----------

  datatype Field = Field(text: string, next: nat)

  datatype Fields = Fields(row: Row, next: nat)

  /** An unquoted field: up to the first comma, CR or LF; a quote may not occur in it. */
  function ParsePlain(z: string, at: nat): Option<Field>
    requires at <= |z|
    ensures ParsePlain(z, at).Some? ==> at <= ParsePlain(z, at).value.next <= |z|
    decreases |z| - at
  {
    if at == |z| || z[at] == ',' || z[at] == '\r' || z[at] == '\n' then Some(Field([], at))
    else if z[at] == '"' then None
    else
      var rest :- ParsePlain(z, at + 1);
      Some(Field([z[at]] + rest.text, rest.next))
  }

  /** The inside of a quoted field, from after the opening quote to after the closing one. */
  function ParseQuoted(z: string, at: nat): Option<Field>
    requires at <= |z|
    ensures ParseQuoted(z, at).Some? ==> at < ParseQuoted(z, at).value.next <= |z|
    decreases |z| - at
  {
    if at == |z| then None
    else if z[at] != '"' then
      var rest :- ParseQuoted(z, at + 1);
      Some(Field([z[at]] + rest.text, rest.next))
    else if at + 1 < |z| && z[at + 1] == '"' then
      var rest :- ParseQuoted(z, at + 2);
      Some(Field(['"'] + rest.text, rest.next))
    else Some(Field([], at + 1))
  }

  function ParseField(z: string, at: nat): Option<Field>
    requires at <= |z|
    ensures ParseField(z, at).Some? ==> at <= ParseField(z, at).value.next <= |z|
  {
    if at < |z| && z[at] == '"' then ParseQuoted(z, at + 1) else ParsePlain(z, at)
  }

  /** A record: fields separated by commas, up to its CRLF. */
  function ParseRecord(z: string, at: nat): Option<Fields>
    requires at <= |z|
    ensures ParseRecord(z, at).Some? ==> at < ParseRecord(z, at).value.next <= |z|
    decreases |z| - at
  {
    var field :- ParseField(z, at);
    if field.next < |z| && z[field.next] == ',' then
      var rest :- ParseRecord(z, field.next + 1);
      Some(Fields([field.text] + rest.row, rest.next))
    else if field.next + 1 < |z| && z[field.next] == '\r' && z[field.next + 1] == '\n' then
      Some(Fields([field.text], field.next + 2))
    else None
  }

  function ParseRecords(z: string, at: nat): Option<seq<Row>>
    requires at <= |z|
    decreases |z| - at
  {
    if at == |z| then Some([])
    else
      var record :- ParseRecord(z, at);
      var rest :- ParseRecords(z, record.next);
      Some([record.row] + rest)
  }

  function Parse(z: string): Option<seq<Row>> {
    if |z| == 0 || z[0] != BOM then None else ParseRecords(z, 1)
  }

  // ---------- the parser undoes the writer ----------

  lemma {:induction false} TakeChar(z: string, at: nat, c: char, rest: string)
    requires HasAt(z, at, [c] + rest)
    ensures at < |z| && z[at] == c && HasAt(z, at + 1, rest)
  {
    HasParts(z, at, [c], rest);
    PartBytes(z, at, [c]);
    assert z[at + 0] == c;
  }

  lemma {:induction false} QuoteCloses(z: string, at: nat, rest: string)
    requires HasAt(z, at, ['"'] + rest) && (rest == [] ==> at + 1 == |z|) && (rest != [] ==> rest[0] != '"')
    ensures ParseQuoted(z, at) == Some(Field("", at + 1)) && HasAt(z, at + 1, rest)
  {
    hide HasAt;
    TakeChar(z, at, '"', rest);
    if rest != [] {
      assert rest == [rest[0]] + rest[1..];
      TakeChar(z, at + 1, rest[0], rest[1..]);
    }
  }

  lemma {:induction false} TakeTwoQuotes(z: string, at: nat, rest: string)
    requires HasAt(z, at, ['"', '"'] + rest)
    ensures at + 2 <= |z| && z[at] == '"' && z[at + 1] == '"' && HasAt(z, at + 2, rest)
  {
    hide HasAt;
    assert ['"', '"'] + rest == ['"'] + (['"'] + rest);
    TakeChar(z, at, '"', ['"'] + rest);
    TakeChar(z, at + 1, '"', rest);
  }

  lemma {:induction false} QuotedReads(z: string, at: nat, text: string, from: nat, rest: string)
    requires from <= |text| && HasAt(z, at, Doubled(text, from) + (['"'] + rest))
    requires rest == [] ==> at + |Doubled(text, from)| + 1 == |z|
    requires rest != [] ==> rest[0] != '"'
    ensures var end := at + |Doubled(text, from)| + 1; ParseQuoted(z, at) == Some(Field(text[from..], end)) && HasAt(z,
        end, rest)
    decreases |text| - from
  {
    hide HasAt;
    var tail := ['"'] + rest;
    if from == |text| {
      assert Doubled(text, from) + tail == ['"'] + rest;
      QuoteCloses(z, at, rest);
    } else {
      var more := Doubled(text, from + 1) + tail;
      assert text[from..] == [text[from]] + text[from + 1..];
      hide Plain;
      if text[from] == '"' {
        assert Doubled(text, from) + tail == ['"', '"'] + more;
        TakeTwoQuotes(z, at, more);
        QuotedReads(z, at + 2, text, from + 1, rest);
      } else {
        assert Doubled(text, from) + tail == [text[from]] + more;
        TakeChar(z, at, text[from], more);
        QuotedReads(z, at + 1, text, from + 1, rest);
      }
    }
  }

  lemma {:induction false} PlainReads(z: string, at: nat, text: string, from: nat, rest: string)
    requires from <= |text| && Plain(text) && HasAt(z, at, text[from..] + rest)
    requires rest != [] && (rest[0] == ',' || rest[0] == '\r')
    ensures var end := at + |text| - from; ParsePlain(z, at) == Some(Field(text[from..], end)) && HasAt(z, end, rest)
    decreases |text| - from
  {
    hide HasAt;
    if from == |text| {
      assert text[from..] + rest == [rest[0]] + rest[1..] == rest;
      TakeChar(z, at, rest[0], rest[1..]);
    } else {
      assert text[from..] == [text[from]] + text[from + 1..];
      assert text[from..] + rest == [text[from]] + (text[from + 1..] + rest);
      TakeChar(z, at, text[from], text[from + 1..] + rest);
      PlainReads(z, at + 1, text, from + 1, rest);
    }
  }

  lemma {:induction false} PlainCellReads(z: string, at: nat, text: string, rest: string)
    requires Plain(text) && HasAt(z, at, text + rest)
    requires rest != [] && (rest[0] == ',' || rest[0] == '\r')
    ensures var end := at + |text|; ParseField(z, at) == Some(Field(text, end)) && HasAt(z, end, rest)
  {
    hide HasAt, ParsePlain, ParseQuoted;
    assert text[0..] == text;
    PlainStart(z, at, text, rest);
    PlainReads(z, at, text, 0, rest);
  }

  lemma {:induction false} QuotedCellReads(z: string, at: nat, text: string, rest: string)
    requires HasAt(z, at, ['"'] + (Doubled(text, 0) + (['"'] + rest)))
    requires rest != [] && rest[0] != '"'
    ensures var end := at + |Doubled(text, 0)| + 2; ParseField(z, at) == Some(Field(text, end)) && HasAt(z, end, rest)
  {
    hide HasAt, ParsePlain, ParseQuoted, Doubled;
    assert text[0..] == text;
    TakeChar(z, at, '"', Doubled(text, 0) + (['"'] + rest));
    QuotedReads(z, at + 1, text, 0, rest);
  }

  /** A cell is read back whatever it contains, where a comma or the end of the record follows. */
  lemma {:induction false} CellReads(z: string, at: nat, text: string, rest: string)
    requires HasAt(z, at, Cell(text) + rest)
    requires rest != [] && (rest[0] == ',' || rest[0] == '\r')
    ensures var end := at + |Cell(text)|; ParseField(z, at) == Some(Field(text, end)) && HasAt(z, end, rest)
  {
    hide HasAt, ParseField, Doubled, Plain;
    if Plain(text) {
      PlainCellReads(z, at, text, rest);
    } else {
      Quoted(Doubled(text, 0), rest);
      QuotedCellReads(z, at, text, rest);
    }
  }

  lemma {:induction false} Quoted(inside: string, rest: string)
    ensures (['"'] + (inside + ['"'])) + rest == ['"'] + (inside + (['"'] + rest))
  {
  }

  lemma {:induction false} PlainStart(z: string, at: nat, text: string, rest: string)
    requires Plain(text) && HasAt(z, at, text + rest) && rest != [] && rest[0] != '"'
    ensures at < |z| && z[at] != '"'
  {
    var all := text + rest;
    assert all == [all[0]] + all[1..];
    TakeChar(z, at, all[0], all[1..]);
  }

  lemma {:induction false} RecordReads(z: string, at: nat, row: Row, i: nat, rest: string)
    requires i < |row| && HasAt(z, at, Record(row, i) + rest)
    ensures var end := at + |Record(row, i)|; ParseRecord(z, at) == Some(Fields(row[i..], end)) && HasAt(z, end, rest)
    decreases |row| - i
  {
    hide HasAt, Cell, ParseField;
    var cell := Cell(row[i]);
    var end := at + |cell|;
    assert row[i..] == [row[i]] + row[i + 1..];
    if i + 1 == |row| {
      var tail := ['\r'] + (['\n'] + rest);
      assert row[i..] == [row[i]];
      assert Record(row, i) + rest == cell + tail;
      CellReads(z, at, row[i], tail);
      TakeChar(z, end, '\r', ['\n'] + rest);
      TakeChar(z, end + 1, '\n', rest);
    } else {
      var tail := [','] + (Record(row, i + 1) + rest);
      assert Record(row, i) + rest == cell + tail;
      CellReads(z, at, row[i], tail);
      TakeChar(z, end, ',', Record(row, i + 1) + rest);
      RecordReads(z, end + 1, row, i + 1, rest);
    }
  }

  /** A row without columns is written as an empty line, which is a record of one empty field. */
  function AsRead(row: Row): Row { if row == [] then [""] else row }

  lemma {:induction false} EmptyLineReads(z: string, at: nat, rest: string)
    requires HasAt(z, at, ['\r', '\n'] + rest)
    ensures ParseRecord(z, at) == Some(Fields([""], at + 2)) && HasAt(z, at + 2, rest)
  {
    hide HasAt;
    assert ['\r', '\n'] + rest == ['\r'] + (['\n'] + rest);
    TakeChar(z, at, '\r', ['\n'] + rest);
    TakeChar(z, at + 1, '\n', rest);
  }

  lemma {:induction false} LineReads(z: string, at: nat, row: Row, rest: string)
    requires HasAt(z, at, Line(row) + rest)
    ensures var end := at + |Line(row)|; ParseRecord(z, at) == Some(Fields(AsRead(row), end)) && HasAt(z, end, rest)
  {
    hide HasAt, ParseRecord, Record;
    if row == [] {
      EmptyLineReads(z, at, rest);
    } else {
      RecordReads(z, at, row, 0, rest);
      assert row[0..] == row;
    }
  }

  function AllAsRead(rows: seq<Row>, n: nat): (read: seq<Row>)
    requires n <= |rows|
    ensures |read| == |rows| - n && forall i :: 0 <= i < |read| ==> read[i] == AsRead(rows[n + i])
    decreases |rows| - n
  {
    if n == |rows| then [] else [AsRead(rows[n])] + AllAsRead(rows, n + 1)
  }

  lemma {:induction false} LinesRead(z: string, at: nat, rows: seq<Row>, n: nat)
    requires n <= |rows| && HasAt(z, at, Lines(rows, n)) && |z| == at + |Lines(rows, n)|
    ensures ParseRecords(z, at) == Some(AllAsRead(rows, n))
    decreases |rows| - n
  {
    hide HasAt, Line, ParseRecord, AsRead;
    if n < |rows| {
      LineReads(z, at, rows[n], Lines(rows, n + 1));
      LinesRead(z, at + |Line(rows[n])|, rows, n + 1);
    }
  }

  lemma {:induction false} CsvReads(rows: seq<Row>)
    ensures Parse(Csv(rows)) == Some(AllAsRead(rows, 0))
  {
    hide Lines;
    var z := Csv(rows);
    assert z[1..] == Lines(rows, 0);
    LinesRead(z, 1, rows, 0);
  }

  /** The round trip holds exactly when every row has at least one column. */
  lemma {:induction false} ReadBack(rows: seq<Row>)
    ensures Parse(Csv(rows)) == Some(rows) <==> forall i :: 0 <= i < |rows| ==> |rows[i]| > 0
  {
    CsvReads(rows);
    if forall i :: 0 <= i < |rows| ==> |rows[i]| > 0 {
      assert AllAsRead(rows, 0) == rows;
    } else {
      var i :| 0 <= i < |rows| && |rows[i]| == 0;
      assert AllAsRead(rows, 0)[i] == [""];
    }
  }

  // ---------- the writer's own loops ----------

  /** A number is given as the text it prints as. */
  datatype Value = Text(text: string) | Number(printed: string) | Null

  datatype Column = Column(key: string, heading: string)

  type Source = map<string, Value>

  /** The text of a value: nothing for null and for a column the row does not have. */
  function CellText(record: Source, key: string): string {
    if key !in record then ""
    else match record[key] case Text(t) => t case Number(p) => p case Null => ""
  }

  function Headings(columns: seq<Column>): (row: Row)
    ensures |row| == |columns| && forall i :: 0 <= i < |row| ==> row[i] == columns[i].heading
  {
    seq(|columns|, i requires 0 <= i < |columns| => columns[i].heading)
  }

  function RowOf(columns: seq<Column>, record: Source): (row: Row)
    ensures |row| == |columns| && forall i :: 0 <= i < |row| ==> row[i] == CellText(record, columns[i].key)
  {
    seq(|columns|, i requires 0 <= i < |columns| => CellText(record, columns[i].key))
  }

  /** The rows of the first `n` records. */
  function RowsOf(columns: seq<Column>, records: seq<Source>, n: nat): (rows: seq<Row>)
    requires n <= |records|
    ensures |rows| == n && forall i :: 0 <= i < n ==> rows[i] == RowOf(columns, records[i])
  {
    if n == 0 then [] else RowsOf(columns, records, n - 1) + [RowOf(columns, records[n - 1])]
  }

  /** The rows of the first `n` batches. */
  function BatchRows(columns: seq<Column>, batches: seq<seq<Source>>, n: nat): (rows: seq<Row>)
    requires n <= |batches|
    ensures forall i :: 0 <= i < |rows| ==> |rows[i]| == |columns|
  {
    if n == 0 then []
    else BatchRows(columns, batches, n - 1) + RowsOf(columns, batches[n - 1], |batches[n - 1]|)
  }

  lemma {:induction false} LinesConcat(a: seq<Row>, b: seq<Row>, n: nat)
    requires n <= |a|
    ensures Lines(a + b, n) == Lines(a, n) + Lines(b, 0)
    decreases |a| - n
  {
    hide Line;
    if n == |a| { LinesShift(a, b, 0); } else { LinesConcat(a, b, n + 1); }
  }

  lemma {:induction false} LinesShift(a: seq<Row>, b: seq<Row>, n: nat)
    requires n <= |b|
    ensures Lines(a + b, |a| + n) == Lines(b, n)
    decreases |b| - n
  {
    hide Line;
    if n < |b| { LinesShift(a, b, n + 1); }
  }

  lemma {:induction false} OneLine(row: Row)
    ensures Lines([row], 0) == Line(row)
  {
    hide Line;
    assert Lines([row], 1) == [];
  }

  /** The cells of one row, joined by commas, and the end of the line. */
  method JoinCells(row: Row) returns (line: string)
    ensures line == Line(row)
  {
    hide Cell;
    line := [];
    for i := 0 to |row|
      invariant i < |row| ==> Line(row) == line + (if i == 0 then [] else [',']) + Record(row, i)
      invariant i == |row| ==> Line(row) == line + ['\r', '\n']
    {
      if i > 0 { line := line + [',']; }
      line := line + Cell(row[i]);
    }
    line := line + ['\r', '\n'];
  }

  method MapCells(columns: seq<Column>, record: Source) returns (row: Row)
    ensures row == RowOf(columns, record)
  {
    row := [];
    for i := 0 to |columns|
      invariant row == RowOf(columns, record)[..i]
    {
      row := row + [CellText(record, columns[i].key)];
    }
  }

  /** writeCsv: the header line, then the rows batch after batch. */
  method WriteCsv(columns: seq<Column>, batches: seq<seq<Source>>) returns (output: string)
    ensures var rows := [Headings(columns)] + BatchRows(columns, batches, |batches|);
            output == Csv(rows) && (|columns| > 0 ==> Parse(output) == Some(rows))
  {
    hide Parse, Line, RowOf;
    ghost var rows := [Headings(columns)];
    OneLine(Headings(columns));
    var header := JoinCells(Headings(columns));
    output := [BOM] + header;
    for b := 0 to |batches|
      invariant rows == [Headings(columns)] + BatchRows(columns, batches, b)
      invariant output == Csv(rows)
    {
      ghost var before := rows;
      for i := 0 to |batches[b]|
        invariant rows == before + RowsOf(columns, batches[b], i)
        invariant output == Csv(rows)
      {
        var cells := MapCells(columns, batches[b][i]);
        var line := JoinCells(cells);
        LinesConcat(rows, [cells], 0);
        OneLine(cells);
        output := output + line;
        rows := rows + [cells];
      }
    }
    ReadBack(rows);
  }

  // ---------- what is exported ----------

  /** Quotes are put exactly around the cells that need them. */
  lemma {:induction false} QuotedIff(text: string)
    ensures Cell(text) == text <==> forall i :: 0 <= i < |text| ==> text[i] !in ['"', ',', '\r', '\n']
    ensures Cell(text) != text ==> |Cell(text)| >= |text| + 2 && Cell(text)[0] == '"'
  {
    DoubledGrows(text, 0);
    if !Plain(text) { assert Cell(text)[0] == '"'; }
  }

  lemma {:induction false} DoubledGrows(text: string, from: nat)
    requires from <= |text|
    ensures |Doubled(text, from)| >= |text| - from
    decreases |text| - from
  {
    if from < |text| { DoubledGrows(text, from + 1); }
  }

  /** How many records come before batch `b`. */
  function Before(batches: seq<seq<Source>>, b: nat): nat
    requires b <= |batches|
  {
    if b == 0 then 0 else Before(batches, b - 1) + |batches[b - 1]|
  }

  /** Every record of every batch is exported, in order, each cell the text of its column's value: a text
      as it is, a number as it prints, nothing for null or a column the record does not have. */
  lemma {:induction false} ExportedCell(columns: seq<Column>, batches: seq<seq<Source>>, n: nat, b: nat, i: nat, j: nat)
    requires b < n <= |batches| && i < |batches[b]| && j < |columns|
    ensures var rows, k := BatchRows(columns, batches, n), Before(batches, b) + i;
            && |rows| == Before(batches, n) && k < |rows| && |rows[k]| == |columns|
            && var record, key := batches[b][i], columns[j].key;
               rows[k][j] == if key in record && record[key].Text? then record[key].text
                             else if key in record && record[key].Number? then record[key].printed
                             else ""
  {
    BatchesCounted(columns, batches, n - 1);
    BatchesCounted(columns, batches, n);
    if b < n - 1 { ExportedCell(columns, batches, n - 1, b, i, j); }
  }

  lemma {:induction false} BatchesCounted(columns: seq<Column>, batches: seq<seq<Source>>, n: nat)
    requires n <= |batches|
    ensures |BatchRows(columns, batches, n)| == Before(batches, n)
  {
    if n > 0 { BatchesCounted(columns, batches, n - 1); }
  }
}
