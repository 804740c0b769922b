/** Delimited files: parseDelimitedInput and the delimited branch of renderExport in
    backend/internal/service/importexport.go, over the line codec of DelimitedCodec. */
module DelimitedFile {
  import opened Formats
  import opened Text
  import opened Wrappers

  import opened DelimitedCodec

  datatype Format = Format(fields: seq<Field>, delimiter: string, hasHeader: bool)

  datatype CellError = BadLine(error: ParseError) | WrongCount(expected: nat, actual: nat) | Missing(column: string)

  datatype FileRow = FileRow(line: nat, values: Values, errors: seq<CellError>)

  datatype FileError = BadHeader(line: nat, error: ParseError) | MissingColumn(column: string) | NoHeader

  /** The column of each field, and how many columns a line has. */
  datatype Layout = Layout(columns: seq<nat>, expected: nat)

  datatype Scan = Scan(layout: Option<Layout>, rows: seq<FileRow>)

  // ---------------------------------------------------------------- lines

  function ReplaceCRLF(s: string): string {
    if s == "" then ""
    else if |s| > 1 && s[0] == '\r' && s[1] == '\n' then "\n" + ReplaceCRLF(s[2..])
    else [s[0]] + ReplaceCRLF(s[1..])
  }

  function SplitLines(s: string): (lines: seq<string>)
    ensures |lines| >= 1
  {
    if s == "" then [""]
    else
      var rest := SplitLines(s[1..]);
      if s[0] == '\n' then [""] + rest else [[s[0]] + rest[0]] + rest[1..]
  }

  function TrimReturn(line: string): string {
    if line != "" && line[|line| - 1] == '\r' then line[..|line| - 1] else line
  }

  // ---------------------------------------------------------------- parsing

  function Cell(field: Field, values: seq<string>, column: nat): string {
    if column < |values| && !Blank(values[column]) then TrimSpace(values[column]) else field.defaultValue
  }

  /** The values and the missing fields of a line, up to the n-th field. */
  function Cells(fields: seq<Field>, columns: seq<nat>, values: seq<string>, n: nat): (Values, seq<CellError>)
    requires n <= |fields| == |columns|
  {
    if n == 0 then (map[], [])
    else
      var (before, errors) := Cells(fields, columns, values, n - 1);
      var field := fields[n - 1];
      var value := Cell(field, values, columns[n - 1]);
      (before[field.target := value], errors + if field.required && value == "" then [Missing(field.column)] else [])
  }

  function RowOf(fields: seq<Field>, layout: Layout, line: nat, parsed: Parsed): FileRow
    requires |layout.columns| == |fields|
  {
    var (values, missing) := Cells(fields, layout.columns, parsed.fields, |fields|);
    FileRow(line, values,
            (if parsed.error != NoError then [BadLine(parsed.error)] else [])
            + (if |parsed.fields| != layout.expected then [WrongCount(layout.expected, |parsed.fields|)] else [])
            + missing)
  }

  /** Header cells by their trimmed name in lower case; the last of equal ones counts. */
  function HeaderIndex(values: seq<string>): map<string, nat>
    decreases |values|
  {
    if values == [] then map[]
    else HeaderIndex(values[..|values| - 1])[ToLower(TrimSpace(values[|values| - 1])) := |values| - 1]
  }

  function FindColumns(fields: seq<Field>, index: map<string, nat>, n: nat): (r: Result<seq<nat>, FileError>)
    requires n <= |fields|
    ensures r.Ok? ==> |r.value| == n
  {
    if n == 0 then Ok([])
    else
      var before := FindColumns(fields, index, n - 1);
      if before.Err? then before
      else if ToLower(fields[n - 1].column) !in index then Err(MissingColumn(fields[n - 1].column))
      else Ok(before.value + [index[ToLower(fields[n - 1].column)]])
  }

  predicate ValidScan(format: Format, scan: Scan) {
    scan.layout.Some? ==> |scan.layout.value.columns| == |format.fields|
  }

  function ScanLine(format: Format, scan: Scan, number: nat, line: string): (r: Result<Scan, FileError>)
    requires ValidScan(format, scan)
    ensures r.Ok? ==> ValidScan(format, r.value)
  {
    if Blank(line) then Ok(scan)
    else
      var parsed := ParseLine(TrimReturn(line), format.delimiter);
      if scan.layout.Some? then Ok(scan.(rows := scan.rows + [RowOf(format.fields, scan.layout.value, number, parsed)]))
      else if parsed.error != NoError then Err(BadHeader(number, parsed.error))
      else
        var columns := FindColumns(format.fields, HeaderIndex(parsed.fields), |format.fields|);
        if columns.Err? then Err(columns.error) else Ok(scan.(layout := Some(Layout(columns.value, |parsed.fields|))))
  }

  function InOrder(n: nat): (columns: seq<nat>)
    ensures |columns| == n && forall i :: 0 <= i < n ==> columns[i] == i
  {
    seq(n, (i: nat) => i)
  }

  /** Without a header the columns are the fields in their order. */
  function FirstScan(format: Format): (scan: Scan)
    ensures ValidScan(format, scan)
  {
    Scan(if format.hasHeader then None else Some(Layout(InOrder(|format.fields|), |format.fields|)), [])
  }

  function ScanLines(format: Format, lines: seq<string>): (r: Result<Scan, FileError>)
    ensures r.Ok? ==> ValidScan(format, r.value)
    decreases |lines|
  {
    if lines == [] then Ok(FirstScan(format))
    else
      var before := ScanLines(format, lines[..|lines| - 1]);
      if before.Err? then before else ScanLine(format, before.value, |lines|, lines[|lines| - 1])
  }

  function ParseFile(format: Format, data: string): Result<seq<FileRow>, FileError> {
    var scan := ScanLines(format, SplitLines(ReplaceCRLF(TrimPrefix(data, BYTE_ORDER_MARK))));
    if scan.Err? then Err(scan.error)
    else if scan.value.layout.None? then Err(NoHeader)
    else Ok(scan.value.rows)
  }

  lemma {:induction false} FailedScanFails(format: Format, lines: seq<string>, i: nat)
    requires i <= |lines| && ScanLines(format, lines[..i]).Err?
    ensures ScanLines(format, lines) == ScanLines(format, lines[..i])
    decreases |lines|
  {
    if i < |lines| {
      assert lines[..|lines| - 1][..i] == lines[..i];
      FailedScanFails(format, lines[..|lines| - 1], i);
    } else {
      assert lines[..i] == lines;
    }
  }

  /** The line loop of the parser. */
  method ParseDelimitedInput(format: Format, data: string) returns (r: Result<seq<FileRow>, FileError>)
    ensures r == ParseFile(format, data)
  {
    var lines := SplitLines(ReplaceCRLF(TrimPrefix(data, BYTE_ORDER_MARK)));
    var rows: seq<FileRow> := [];
    var columns: seq<nat>, expected: nat := InOrder(|format.fields|), |format.fields|;
    var headerReady := !format.hasHeader;
    for i := 0 to |lines|
      invariant |columns| == |format.fields|
      invariant ScanLines(format, lines[..i])
                == Ok(Scan(if headerReady then Some(Layout(columns, expected)) else None, rows))
    {
      assert lines[..i + 1][..i] == lines[..i];
      hide ParseLine, Cells, HeaderIndex, FindColumns;
      var line := lines[i];
      if Blank(line) {
        continue;
      }
      var values, error := ParseDelimitedLine(TrimReturn(line), format.delimiter);
      if !headerReady {
        if error != NoError {
          FailedScanFails(format, lines, i + 1);
          return Err(BadHeader(i + 1, error));
        }
        var found := FindColumns(format.fields, HeaderIndex(values), |format.fields|);
        if found.Err? {
          FailedScanFails(format, lines, i + 1);
          return Err(found.error);
        }
        columns, expected, headerReady := found.value, |values|, true;
        continue;
      }
      rows := rows + [RowOf(format.fields, Layout(columns, expected), i + 1, Parsed(values, error))];
    }
    assert lines[..|lines|] == lines;
    r := if headerReady then Ok(rows) else Err(NoHeader);
  }

  // ---------------------------------------------------------------- printing

  function HeaderLine(format: Format): seq<string> {
    if format.hasHeader then [EncodeLine(Columns(format), format.delimiter)] else []
  }

  function Columns(format: Format): seq<string> {
    seq(|format.fields|, i requires 0 <= i < |format.fields| => format.fields[i].column)
  }

  function ValuesFor(format: Format, record: Values): (values: seq<string>)
    ensures |values| == |format.fields|
  {
    seq(|format.fields|, i requires 0 <= i < |format.fields| => ValueOf(record, format.fields[i].target))
  }

  function RecordLines(format: Format, records: seq<Values>): seq<string> {
    seq(|records|, i requires 0 <= i < |records| => EncodeLine(ValuesFor(format, records[i]), format.delimiter))
  }

  function RenderFile(format: Format, records: seq<Values>): string {
    Join(HeaderLine(format) + RecordLines(format, records), "\n")
  }

  method RenderExport(format: Format, records: seq<Values>) returns (content: string)
    ensures content == RenderFile(format, records)
  {
    var lines: seq<string> := [];
    if format.hasHeader {
      var header := EncodeDelimitedLine(Columns(format), format.delimiter);
      lines := [header];
    }
    for i := 0 to |records|
      invariant lines == HeaderLine(format) + RecordLines(format, records[..i])
    {
      var line := EncodeDelimitedLine(ValuesFor(format, records[i]), format.delimiter);
      assert RecordLines(format, records[..i + 1]) == RecordLines(format, records[..i]) + [line];
      assert (HeaderLine(format) + RecordLines(format, records[..i])) + [line]
        == HeaderLine(format) + RecordLines(format, records[..i + 1]);
      lines := lines + [line];
    }
    assert records[..|records|] == records;
    content := Join(lines, "\n");
  }

  // ---------------------------------------------------------------- round trip

  predicate Plain(s: string) {
    '\r' !in s && '\n' !in s
  }

  lemma {:induction false} ReplaceKeeps(s: string)
    requires '\r' !in s
    ensures ReplaceCRLF(s) == s
    decreases |s|
  {
    if s != "" {
      assert s[0] in s && '\r' !in s[1..];
      ReplaceKeeps(s[1..]);
    }
  }

  lemma {:induction false} SplitFirst(line: string, rest: string)
    requires '\n' !in line
    ensures SplitLines(line + "\n" + rest) == [line] + SplitLines(rest)
    ensures SplitLines(line) == [line]
    decreases |line|
  {
    if line == "" {
      assert "" + "\n" + rest == "\n" + rest && ("\n" + rest)[1..] == rest;
    } else {
      assert line[0] in line && '\n' !in line[1..];
      SplitFirst(line[1..], rest);
      assert (line + "\n" + rest)[1..] == line[1..] + "\n" + rest;
      assert [line[0]] + line[1..] == line;
    }
  }

  lemma {:induction false} SplitJoin(lines: seq<string>)
    requires lines != [] && forall i :: 0 <= i < |lines| ==> '\n' !in lines[i]
    ensures SplitLines(Join(lines, "\n")) == lines
    decreases |lines|
  {
    if |lines| == 1 {
      SplitFirst(lines[0], "");
    } else {
      SplitJoin(lines[1..]);
      SplitFirst(lines[0], Join(lines[1..], "\n"));
      assert [lines[0]] + lines[1..] == lines;
    }
  }

  lemma {:induction false} DoubledChars(value: string, c: char)
    requires c !in value && c != QUOTE
    ensures c !in Doubled(value)
    decreases |value|
  {
    if value != "" {
      assert value[0] in value && c !in value[1..];
      DoubledChars(value[1..], c);
    }
  }

  lemma EncodedFieldChars(value: string, delimiter: string, c: char)
    requires c !in value && c != QUOTE
    ensures c !in EncodeField(value, delimiter)
  {
    DoubledChars(value, c);
  }

  /** A printed line contains only what its values, its delimiter and quotes contain. */
  lemma {:induction false} EncodedLineChars(values: seq<string>, delimiter: string, c: char)
    requires c != QUOTE && c !in delimiter && forall i :: 0 <= i < |values| ==> c !in values[i]
    ensures c !in EncodeLine(values, delimiter)
    decreases |values|
  {
    if |values| == 1 {
      EncodedFieldChars(values[0], delimiter, c);
    } else if |values| > 1 {
      EncodedFieldChars(values[0], delimiter, c);
      EncodedLineChars(values[1..], delimiter, c);
      EncodeLineCons(values, delimiter);
      hide EncodeLine, EncodeField;
    }
  }

  predicate GoodFormat(format: Format) {
    && format.fields != [] && format.delimiter != "" && QUOTE !in format.delimiter && Plain(format.delimiter)
    && (format.hasHeader ==> GoodLine(Columns(format), format.delimiter) && DistinctNames(Columns(format)))
  }

  predicate DistinctNames(columns: seq<string>) {
    forall i, j :: 0 <= i < j < |columns| ==> ToLower(columns[i]) != ToLower(columns[j])
  }

  /** Values that survive a line: trimmed, without line breaks, separable, and not all blank. */
  predicate GoodLine(values: seq<string>, delimiter: string) {
    && (forall i :: 0 <= i < |values| ==> Plain(values[i]) && TrimSpace(values[i]) == values[i])
    && LineSeparable(values, delimiter)
    && !Blank(EncodeLine(values, delimiter))
  }

  lemma GoodLineParses(values: seq<string>, delimiter: string)
    requires delimiter != "" && QUOTE !in delimiter && Plain(delimiter) && values != [] && GoodLine(values, delimiter)
    ensures var line := EncodeLine(values, delimiter);
            Plain(line) && TrimReturn(line) == line && ParseLine(line, delimiter) == Parsed(values, NoError)
  {
    var line := EncodeLine(values, delimiter);
    EncodedLineChars(values, delimiter, '\r');
    EncodedLineChars(values, delimiter, '\n');
    LineRoundTrip(values, delimiter);
    hide EncodeLine, ParseLine, LineSeparable;
    if line != "" { assert line[|line| - 1] in line; }
  }

  lemma {:induction false} HeaderIndexFinds(columns: seq<string>, i: nat)
    requires i < |columns| && DistinctNames(columns) && forall j :: 0 <= j < |columns| ==>
             TrimSpace(columns[j]) == columns[j]
    ensures ToLower(columns[i]) in HeaderIndex(columns) && HeaderIndex(columns)[ToLower(columns[i])] == i
    decreases |columns|
  {
    if i < |columns| - 1 {
      HeaderIndexFinds(columns[..|columns| - 1], i);
    }
    hide ToLower;
  }

  lemma {:induction false} ColumnsInOrder(format: Format, n: nat)
    requires n <= |format.fields| && DistinctNames(Columns(format))
    requires forall j :: 0 <= j < |format.fields| ==> TrimSpace(Columns(format)[j]) == Columns(format)[j]
    ensures FindColumns(format.fields, HeaderIndex(Columns(format)), n) == Ok(InOrder(n))
    decreases n
  {
    if n > 0 {
      ColumnsInOrder(format, n - 1);
      HeaderIndexFinds(Columns(format), n - 1);
      assert InOrder(n - 1) + [n - 1] == InOrder(n);
      hide ToLower, HeaderIndex, DistinctNames, TrimSpace;
    }
  }

  function PlainLayout(format: Format): Layout {
    Layout(InOrder(|format.fields|), |format.fields|)
  }

  function RestoredRows(format: Format, records: seq<Values>): seq<FileRow> {
    seq(|records|, i requires 0 <= i < |records| =>
      RowOf(format.fields, PlainLayout(format), i + (if format.hasHeader then 2 else 1),
        Parsed(ValuesFor(format, records[i]), NoError)))
  }

  lemma HeaderScans(format: Format)
    requires GoodFormat(format)
    ensures ScanLines(format, HeaderLine(format)) == Ok(Scan(Some(PlainLayout(format)), []))
  {
    if format.hasHeader {
      GoodLineParses(Columns(format), format.delimiter);
      ColumnsInOrder(format, |format.fields|);
      assert HeaderLine(format)[..0] == [];
      hide EncodeLine, ParseLine, HeaderIndex, FindColumns, LineSeparable, TrimSpace, ToLower;
    }
  }

  lemma ScanSnoc(format: Format, lines: seq<string>, line: string)
    requires ScanLines(format, lines).Ok?
    ensures ScanLines(format, lines + [line]) == ScanLine(format, ScanLines(format, lines).value, |lines| + 1, line)
  {
    assert (lines + [line])[..|lines|] == lines;
    hide ScanLine;
  }

  lemma RecordLineScans(format: Format, rows: seq<FileRow>, number: nat, values: seq<string>)
    requires GoodFormat(format) && |values| == |format.fields| && GoodLine(values, format.delimiter)
    ensures ScanLine(format, Scan(Some(PlainLayout(format)), rows), number, EncodeLine(values, format.delimiter))
         == Ok(Scan(Some(PlainLayout(format)),
           rows + [RowOf(format.fields, PlainLayout(format), number, Parsed(values, NoError))]))
  {
    GoodLineParses(values, format.delimiter);
    hide EncodeLine, ParseLine, LineSeparable, TrimSpace, ToLower, RowOf;
  }

  lemma LinesSnoc(format: Format, records: seq<Values>)
    requires records != []
    ensures HeaderLine(format) + RecordLines(format, records)
         == (HeaderLine(format) + RecordLines(format,
           records[..|records| - 1])) + [EncodeLine(ValuesFor(format, records[|records| - 1]), format.delimiter)]
  {
    var n := |records| - 1;
    hide EncodeLine, ValuesFor, HeaderLine;
    assert RecordLines(format, records)
      == RecordLines(format, records[..n]) + [EncodeLine(ValuesFor(format, records[n]), format.delimiter)];
  }

  lemma RestoredSnoc(format: Format, records: seq<Values>)
    requires records != []
    ensures RestoredRows(format, records)
         == RestoredRows(format, records[..|records| - 1])
            + [RowOf(format.fields, PlainLayout(format),
              |HeaderLine(format) + RecordLines(format, records[..|records| - 1])| + 1,
                     Parsed(ValuesFor(format, records[|records| - 1]), NoError))]
  {
    hide RowOf, ValuesFor, EncodeLine;
  }

  lemma NoRecordsScan(format: Format)
    requires GoodFormat(format)
    ensures ScanLines(format, HeaderLine(format) + RecordLines(format, []))
            == Ok(Scan(Some(PlainLayout(format)), RestoredRows(format, [])))
  {
    HeaderScans(format);
    assert HeaderLine(format) + RecordLines(format, []) == HeaderLine(format);
    assert RestoredRows(format, []) == [];
    hide GoodFormat, ScanLines, HeaderLine, RecordLines, RestoredRows;
  }

  lemma {:induction false} RecordsScan(format: Format, records: seq<Values>)
    requires GoodFormat(format) && forall i :: 0 <= i < |records| ==>
             GoodLine(ValuesFor(format, records[i]), format.delimiter)
    ensures ScanLines(format, HeaderLine(format) + RecordLines(format, records))
            == Ok(Scan(Some(PlainLayout(format)), RestoredRows(format, records)))
    decreases |records|
  {
    hide GoodFormat, GoodLine, ScanLines, ScanLine, EncodeLine, RowOf, RestoredRows, RecordLines, HeaderLine,
      PlainLayout, ValuesFor;
    if records == [] {
      NoRecordsScan(format);
    } else {
      var n := |records| - 1;
      var lines := HeaderLine(format) + RecordLines(format, records[..n]);
      RecordsScan(format, records[..n]);
      ScanSnoc(format, lines, EncodeLine(ValuesFor(format, records[n]), format.delimiter));
      RecordLineScans(format, RestoredRows(format, records[..n]), |lines| + 1, ValuesFor(format, records[n]));
      LinesSnoc(format, records);
      RestoredSnoc(format, records);
    }
  }

  /** Plain lines survive being joined and split again; no lines at all become one empty line. */
  lemma LinesSurvive(lines: seq<string>)
    requires forall i :: 0 <= i < |lines| ==> Plain(lines[i])
    requires !StartsAt(Join(lines, "\n"), BYTE_ORDER_MARK, 0)
    ensures SplitLines(ReplaceCRLF(TrimPrefix(Join(lines, "\n"), BYTE_ORDER_MARK)))
            == if lines == [] then [""] else lines
  {
    JoinChars(lines, '\r');
    ReplaceKeeps(Join(lines, "\n"));
    if lines != [] { SplitJoin(lines); }
    hide Join, ReplaceCRLF, StartsAt;
  }

  lemma BlankLineScans(format: Format)
    requires !format.hasHeader
    ensures ScanLines(format, [""]) == ScanLines(format, [])
  {
    assert [""][..0] == [];
  }

  /** Exporting and importing again restores every record, in order, with the line numbers of the file. */
  lemma FileRoundTrip(format: Format, records: seq<Values>)
    requires GoodFormat(format) && forall i :: 0 <= i < |records| ==>
             GoodLine(ValuesFor(format, records[i]), format.delimiter)
    requires !StartsAt(RenderFile(format, records), BYTE_ORDER_MARK, 0)
    ensures ParseFile(format, RenderFile(format, records)) == Ok(RestoredRows(format, records))
  {
    hide GoodFormat, GoodLine, ScanLines, RestoredRows, RecordLines, SplitLines, ReplaceCRLF, Join, StartsAt,
      TrimPrefix;
    var lines := HeaderLine(format) + RecordLines(format, records);
    RecordsScan(format, records);
    LinesArePlain(format, records);
    LinesSurvive(lines);
    if lines == [] { BlankLineScans(format); }
  }

  lemma LinesArePlain(format: Format, records: seq<Values>)
    requires GoodFormat(format) && forall i :: 0 <= i < |records| ==>
             GoodLine(ValuesFor(format, records[i]), format.delimiter)
    ensures var lines := HeaderLine(format) + RecordLines(format, records);
            forall i :: 0 <= i < |lines| ==> Plain(lines[i])
  {
    if format.hasHeader { GoodLineParses(Columns(format), format.delimiter); }
    forall i | 0 <= i < |records| ensures Plain(RecordLines(format, records)[i]) {
      GoodLineParses(ValuesFor(format, records[i]), format.delimiter);
    }
    hide EncodeLine, ParseLine, GoodLine, DistinctNames;
  }

  lemma {:induction false} JoinChars(lines: seq<string>, c: char)
    requires c != '\n' && forall i :: 0 <= i < |lines| ==> c !in lines[i]
    ensures c !in Join(lines, "\n")
    decreases |lines|
  {
    if |lines| > 1 { JoinChars(lines[1..], c); }
  }

  predicate DistinctFieldTargets(fields: seq<Field>) {
    forall i, j :: 0 <= i < j < |fields| ==> fields[i].target != fields[j].target
  }

  /** A restored row holds the value of every field, or its default where the value is empty, and
      complains of required fields that have neither. */
  lemma RestoredRowMeans(format: Format, records: seq<Values>, i: nat, k: nat)
    requires i < |records| && k < |format.fields| && DistinctFieldTargets(format.fields)
    requires GoodLine(ValuesFor(format, records[i]), format.delimiter)
    ensures var row, field := RestoredRows(format, records)[i], format.fields[k];
            var value := ValueOf(records[i], field.target);
            var restored := if value == "" then field.defaultValue else value;
            && row.line == i + (if format.hasHeader then 2 else 1)
            && ValueOf(row.values, field.target) == restored
            && (field.required && restored == "" ==> Missing(field.column) in row.errors)
    ensures (forall j :: 0 <= j < |format.fields| && format.fields[j].required ==>
               ValueOf(records[i], format.fields[j].target) != "" || format.fields[j].defaultValue != "") ==>
              RestoredRows(format, records)[i].errors == []
  {
    var values := ValuesFor(format, records[i]);
    forall j | 0 <= j < |format.fields|
      ensures Cell(format.fields[j], values, j) == if values[j] == "" then format.fields[j].defaultValue else values[j]
    {
      assert TrimSpace(values[j]) == values[j];
      hide LineSeparable, EncodeLine;
      TrimmedBlankIsEmpty(values[j]);
    }
    CellsHold(format.fields, values, |format.fields|, k);
    RestoredRowIs(format, records, i);
    assert forall j :: 0 <= j < |format.fields| ==> values[j] == ValueOf(records[i], format.fields[j].target);
    hide GoodLine, Cells, Cell, RestoredRows, ValuesFor, ValueOf, DistinctFieldTargets;
  }

  lemma RestoredRowIs(format: Format, records: seq<Values>, i: nat)
    requires i < |records|
    ensures var (cells, missing) :=
            Cells(format.fields, InOrder(|format.fields|), ValuesFor(format, records[i]), |format.fields|);
            RestoredRows(format, records)[i] == FileRow(i + (if format.hasHeader then 2 else 1), cells, missing)
  {
    hide Cells;
  }

  lemma {:induction false} TrimmedBlankIsEmpty(value: string)
    requires TrimSpace(value) == value
    ensures Blank(value) <==> value == ""
  {
    if value != "" && Blank(value) {
      assert IsSpace(value[0]);
      TrimShortens(value[1..]);
    }
  }

  lemma {:induction false} TrimShortens(value: string)
    ensures |TrimSpace(value)| <= |value|
    decreases |value|
  {
    if value != "" {
      if IsSpace(value[0]) { TrimShortens(value[1..]); } else { TrimRightShortens(value); }
    }
  }

  lemma {:induction false} TrimRightShortens(value: string)
    ensures |TrimRight(value)| <= |value|
    decreases |value|
  {
    if value != "" { TrimRightShortens(value[..|value| - 1]); }
  }

  lemma {:induction false} CellValues(fields: seq<Field>, values: seq<string>, n: nat, k: nat)
    requires k < n <= |fields| && DistinctFieldTargets(fields)
    ensures ValueOf(Cells(fields, InOrder(|fields|), values, n).0, fields[k].target) == Cell(fields[k], values, k)
    decreases n
  {
    hide Cell;
    if k < n - 1 {
      CellValues(fields, values, n - 1, k);
      assert fields[k].target != fields[n - 1].target;
    }
    hide DistinctFieldTargets;
  }

  lemma {:induction false} CellErrors(fields: seq<Field>, values: seq<string>, n: nat, k: nat)
    requires n <= |fields|
    ensures var errors := Cells(fields, InOrder(|fields|), values, n).1;
            && (k < n && fields[k].required && Cell(fields[k], values, k) == "" ==> Missing(fields[k].column) in errors)
            && ((forall j :: 0 <= j < n && fields[j].required ==> Cell(fields[j], values, j) != "") ==> errors == [])
    decreases n
  {
    hide Cell;
    if n > 0 { CellErrors(fields, values, n - 1, k); }
  }

  lemma CellsHold(fields: seq<Field>, values: seq<string>, n: nat, k: nat)
    requires n <= |fields| && DistinctFieldTargets(fields)
    ensures var (cells, errors) := Cells(fields, InOrder(|fields|), values, n);
            && (k < n ==> ValueOf(cells, fields[k].target) == Cell(fields[k], values, k))
            && (k < n && fields[k].required && Cell(fields[k], values, k) == "" ==> Missing(fields[k].column) in errors)
            && ((forall j :: 0 <= j < n && fields[j].required ==> Cell(fields[j], values, j) != "") ==> errors == [])
  {
    if k < n { CellValues(fields, values, n, k); }
    CellErrors(fields, values, n, k);
    hide Cell, Cells, ValueOf, DistinctFieldTargets;
  }
}
