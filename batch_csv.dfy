/**
 * The text side of the batch import and export component: the garbled-text test and the
 * choice among decodings of the uploaded file, the line and comma splitter that turns
 * the chosen text into header-keyed rows, and the CSV text the export builds.
 *
 * The splitter is not quote-aware: a quoted cell containing a comma is cut at the comma,
 * and every double quote is deleted after trimming.
 */
module BatchCsv {
  import opened Wrappers
  import opened JsStrings
  import opened Lists
  import opened JsObjects
  import opened BatchRecords

  // ---- Garbled text and the choice of decoding --------------------------------

  /** `[À-ÿ]`, Latin-1 letters: what a UTF-8 file read as a single-byte code page shows. */
  predicate IsLatinLetter(c: char) {
    '\U{00C0}' <= c <= '\U{00FF}'
  }

  /** `[\u0080-ÿ]`, the upper half of Latin-1. */
  predicate IsHighLatin(c: char) {
    '\U{0080}' <= c <= '\U{00FF}'
  }

  /** `n` characters of the class start at `i`. */
  predicate RunAt(s: string, inClass: char -> bool, n: nat, i: nat) {
    i + n <= |s| && forall k :: i <= k < i + n ==> inClass(s[k])
  }

  /** `/[class]{n,}/.test(s)`: some run of at least `n` characters of the class. */
  function HasRun(s: string, inClass: char -> bool, n: nat): (r: bool)
    ensures r <==> exists i: nat :: RunAt(s, inClass, n, i)
    decreases |s|
  {
    if |s| < n then
      assert forall i: nat :: !RunAt(s, inClass, n, i);
      false
    else if forall k :: 0 <= k < n ==> inClass(s[k]) then
      assert RunAt(s, inClass, n, 0);
      true
    else
      var rest := HasRun(s[1..], inClass, n);
      assert forall i: nat :: RunAt(s[1..], inClass, n, i) <==> RunAt(s, inClass, n, i + 1);
      assert !RunAt(s, inClass, n, 0);
      assert forall i: nat :: RunAt(s, inClass, n, i) && i > 0 ==> RunAt(s[1..], inClass, n, i - 1);
      rest
  }

  /**
   * `detectGarbledText`: two Latin-1 letters in a row, two question marks in a row, a
   * replacement character, or three upper-half Latin-1 characters in a row.
   */
  function DetectGarbledText(text: string): (r: bool)
    ensures r <==> ((exists i: nat :: RunAt(text, IsLatinLetter, 2, i))
      || Includes(text, "??")
      || '\U{FFFD}' in text
      || (exists i: nat :: RunAt(text, IsHighLatin, 3, i)))
  {
    HasRun(text, IsLatinLetter, 2) || Includes(text, "??") || '\U{FFFD}' in text || HasRun(text, IsHighLatin, 3)
  }

  /** A text that stays clear of U+0080..U+00FF and U+FFFD and has no `??` is not garbled. */
  lemma CleanTextNotGarbled(text: string)
    requires forall k :: 0 <= k < |text| ==> !IsHighLatin(text[k]) && text[k] != '\U{FFFD}'
    requires !Includes(text, "??")
    ensures !DetectGarbledText(text)
  {
    forall i: nat ensures !RunAt(text, IsLatinLetter, 2, i) && !RunAt(text, IsHighLatin, 3, i) {
      if i + 2 <= |text| {
        assert !IsLatinLetter(text[i]);
      }
    }
  }

  /** Text around a garbled stretch is garbled too. */
  lemma {:induction false} GarbledInContext(before: string, text: string, after: string)
    requires DetectGarbledText(text)
    ensures DetectGarbledText(before + text + after)
  {
    var whole := before + text + after;
    assert forall k :: 0 <= k < |text| ==> whole[|before| + k] == text[k];
    if i: nat :| RunAt(text, IsLatinLetter, 2, i) {
      assert RunAt(whole, IsLatinLetter, 2, |before| + i);
    } else if Includes(text, "??") {
      var i :| OccursAt(text, "??", i);
      assert OccursAt(whole, "??", |before| + i);
    } else if '\U{FFFD}' in text {
      var i :| 0 <= i < |text| && text[i] == '\U{FFFD}';
      assert whole[|before| + i] == '\U{FFFD}';
    } else {
      var i: nat :| RunAt(text, IsHighLatin, 3, i);
      assert RunAt(whole, IsHighLatin, 3, |before| + i);
    }
  }

  /** The decodings tried, in order. */
  const Encodings: seq<string> := ["utf-8", "gbk", "gb2312", "utf-16"]

  /** A decoding that did not fail and does not look garbled. */
  predicate Readable(decoded: Option<string>) {
    decoded.Some? && !DetectGarbledText(decoded.value)
  }

  /** The text the decoding loop settles on: the first readable decoding unless it is empty, else the UTF-8 retry. */
  function ChosenText(decodings: seq<Option<string>>, utf8Retry: Option<string>): Option<string> {
    match FindIndex(decodings, Readable)
    case Some(i) => if decodings[i].value != "" then decodings[i] else utf8Retry
    case None => utf8Retry
  }

  /**
   * The text chosen is the UTF-8 retry, or a decoding that is non-empty, not garbled, and
   * the first of the decodings that is readable.
   */
  lemma {:induction false} ChosenTextReadable(decodings: seq<Option<string>>, utf8Retry: Option<string>)
    ensures ChosenText(decodings, utf8Retry) == utf8Retry || exists i :: (0 <= i < |decodings|
      && ChosenText(decodings, utf8Retry) == decodings[i] && decodings[i].Some? && decodings[i].value != ""
      && !DetectGarbledText(decodings[i].value) && forall j :: 0 <= j < i ==> !Readable(decodings[j]))
  {
    match FindIndex(decodings, Readable)
    case Some(i) =>
    case None =>
  }

  /**
   * The decoding loop of the upload handler. `decodings[i]` is the file read with
   * `Encodings[i]` (`None` when that read failed), `utf8Retry` the final UTF-8 read
   * (`None` when it failed, which aborts the upload). The first readable decoding wins,
   * unless it is empty, in which case, as when none is readable, the UTF-8 retry is used.
   */
  method ChooseText(decodings: seq<Option<string>>, utf8Retry: Option<string>) returns (text: Option<string>, encoding: string)
    requires |decodings| == |Encodings|
    ensures text == ChosenText(decodings, utf8Retry)
    ensures match FindIndex(decodings, Readable)
      case Some(i) => encoding == Encodings[i]
      case None => encoding == "utf-8"
  {
    var csvText := "";
    encoding := "utf-8";
    var i := 0;
    while i < |Encodings|
      invariant 0 <= i <= |Encodings|
      invariant forall j :: 0 <= j < i ==> !Readable(decodings[j])
      invariant csvText == "" && encoding == "utf-8"
    {
      var decoded := decodings[i];
      if decoded.Some? && !DetectGarbledText(decoded.value) {
        csvText := decoded.value;
        encoding := Encodings[i];
        FindIndexAt(decodings, Readable, i);
        break;
      }
      i := i + 1;
    }
    if csvText == "" {
      text := utf8Retry;
    } else {
      text := Some(csvText);
    }
  }

  // ---- Splitting the text into rows -------------------------------------------

  predicate IsQuote(c: char) {
    c == '"'
  }

  lemma TrimChars(s: string)
    ensures forall c :: c in Trim(s) ==> c in s
  {
    var t := TrimStart(s);
    var r := TrimEnd(t);
    assert r == Trim(s);
    forall c | c in r
      ensures c in s
    {
      var k :| 0 <= k < |r| && r[k] == c;
      assert t[k] == c;
      assert s[|s| - |t| + k] == c;
    }
  }

  /** `cell.trim().replace(/"/g, '')`. */
  function CleanCell(cell: string): (r: string)
    ensures '"' !in r
    ensures forall c :: c in r ==> c in cell
  {
    TrimChars(cell);
    RemoveWhere(Trim(cell), IsQuote)
  }

  /** `line.split(',').map(cell => cell.trim().replace(/"/g, ''))`. */
  function Cells(line: string): (r: seq<string>)
    ensures |r| >= 1
  {
    Map(Split(line, ','), CleanCell)
  }

  /** No cell holds a comma or a double quote. */
  lemma CellsClean(line: string)
    ensures forall i :: 0 <= i < |Cells(line)| ==> ',' !in Cells(line)[i] && '"' !in Cells(line)[i]
  {
    var parts := Split(line, ',');
    var r := Cells(line);
    assert forall i :: 0 <= i < |r| ==> r[i] == CleanCell(parts[i]);
  }

  predicate IsNonBlank(line: string) {
    Trim(line) != []
  }

  /** `csvText.split('\n').filter(line => line.trim())`. */
  function Lines(text: string): seq<string>
  {
    Filter(Split(text, '\n'), IsNonBlank)
  }

  /** The last position of `x` in `s`. */
  function LastIndexOf(s: seq<string>, x: string): (j: nat)
    requires x in s
    ensures j < |s| && s[j] == x && forall k :: j < k < |s| ==> s[k] != x
    decreases |s|
  {
    var last := |s| - 1;
    if s[last] == x then last
    else
      assert s == s[..last] + [s[last]];
      LastIndexOf(s[..last], x)
  }

  /** The cell a header gets: the value at the header's last position, or "" past the end of the line. */
  function CellFor(headers: seq<string>, values: seq<string>, header: string): string
    requires header in headers
  {
    var j := LastIndexOf(headers, header);
    if j < |values| then values[j] else ""
  }

  /** One data row: every header mapped to its positional value, a later equal header winning. */
  function RowFor(headers: seq<string>, values: seq<string>): (row: Row)
    ensures row.Keys == set h | h in headers
  {
    map h | h in headers :: CellFor(headers, values, h)
  }

  lemma RowForStep(headers: seq<string>, values: seq<string>, index: nat)
    requires index < |headers|
    ensures RowFor(headers[..index + 1], values)
      == RowFor(headers[..index], values)[headers[index] := if index < |values| then values[index] else ""]
  {
    var p, q := headers[..index], headers[..index + 1];
    assert q == p + [headers[index]];
    assert q[..index] == p;
    var lhs, rhs := RowFor(q, values), RowFor(p, values)[headers[index] := if index < |values| then values[index] else ""];
    assert lhs.Keys == rhs.Keys;
    forall h | h in lhs.Keys
      ensures lhs[h] == rhs[h]
    {
      if h != headers[index] {
        assert LastIndexOf(q, h) == LastIndexOf(p, h);
      }
    }
  }

  /** The row built by `headers.forEach((header, index) => { row[header] = values[index] || '' })`. */
  method BuildRow(headers: seq<string>, values: seq<string>) returns (row: Row)
    ensures row == RowFor(headers, values)
  {
    row := map[];
    assert RowFor(headers[..0], values) == map[];
    for index := 0 to |headers|
      invariant row == RowFor(headers[..index], values)
    {
      RowForStep(headers, values, index);
      row := row[headers[index] := if index < |values| then values[index] else ""];
    }
    assert headers[..|headers|] == headers;
  }

  /**
   * The own keys of the plain object `row` after the same `forEach`, as written: the
   * assignment `row[header] = ...` for a header `__proto__` creates no key.
   */
  function RowForAsWritten(headers: seq<string>, values: seq<string>): Row
    decreases |headers|
  {
    if headers == [] then map[]
    else
      var last := |headers| - 1;
      Assign(RowForAsWritten(headers[..last], values), headers[last], if last < |values| then values[last] else "")
  }

  /** As written, the row is the own-key row without a `__proto__` column. */
  lemma {:induction false} RowForAsWrittenDropsProto(headers: seq<string>, values: seq<string>)
    ensures RowForAsWritten(headers, values) == RowFor(headers, values) - {ProtoKey}
    decreases |headers|
  {
    if headers == [] {
      assert RowFor(headers, values) == map[];
    } else {
      var last := |headers| - 1;
      var cell := if last < |values| then values[last] else "";
      RowForAsWrittenDropsProto(headers[..last], values);
      RowForStep(headers, values, last);
      assert headers[..last + 1] == headers;
      AssignDropsProto(RowFor(headers[..last], values), headers[last], cell);
    }
  }

  /** A `__proto__` header is a column of the own-key row, yet no key of the row as written. */
  lemma ProtoHeaderAsWritten(value: string)
    ensures RowForAsWritten([ProtoKey], [value]) == map[]
    ensures ProtoKey in RowFor([ProtoKey], [value])
  {
  }

  /** `lines.map(line => row of line)`, one row per data line. */
  function RowsFor(headers: seq<string>, lines: seq<string>): (rows: seq<Row>)
    ensures |rows| == |lines|
  {
    if lines == [] then []
    else
      var last := |lines| - 1;
      RowsFor(headers, lines[..last]) + [RowFor(headers, Cells(lines[last]))]
  }

  lemma RowsForSnoc(headers: seq<string>, lines: seq<string>, line: string)
    ensures RowsFor(headers, lines + [line]) == RowsFor(headers, lines) + [RowFor(headers, Cells(line))]
  {
    assert (lines + [line])[..|lines|] == lines;
  }

  /** Row `k` is built from the cells of data line `k`. */
  lemma {:induction false} RowsForAt(headers: seq<string>, lines: seq<string>, k: nat)
    requires k < |lines|
    ensures RowsFor(headers, lines)[k] == RowFor(headers, Cells(lines[k]))
    decreases |lines|
  {
    var last := |lines| - 1;
    if k < last {
      RowsForAt(headers, lines[..last], k);
      assert lines[..last][k] == lines[k];
    }
  }

  /** The rows of the CSV text; `None` when fewer than two non-blank lines remain. */
  function ParseCsv(text: string): Option<seq<Row>>
  {
    var lines := Lines(text);
    if |lines| < 2 then None
    else Some(RowsFor(Cells(lines[0]), lines[1..]))
  }

  /** `j` is the last position of its header. */
  predicate LastPosition(headers: seq<string>, j: nat)
    requires j < |headers|
  {
    forall m :: j < m < |headers| ==> headers[m] != headers[j]
  }

  /**
   * `row` has exactly the headers as keys, gives each header the value at its last
   * position or "" when `values` is too short, and holds nothing but values and "".
   */
  predicate RowShape(headers: seq<string>, values: seq<string>, row: Row) {
    row.Keys == (set h | h in headers)
    && (forall j :: 0 <= j < |headers| && LastPosition(headers, j) ==>
      row[headers[j]] == if j < |values| then values[j] else "")
    && forall h :: h in row ==> row[h] in values + [""]
  }

  lemma RowForShape(headers: seq<string>, values: seq<string>)
    ensures RowShape(headers, values, RowFor(headers, values))
  {
    var row := RowFor(headers, values);
    forall j | 0 <= j < |headers| && LastPosition(headers, j)
      ensures row[headers[j]] == if j < |values| then values[j] else ""
    {
      assert LastIndexOf(headers, headers[j]) == j;
    }
    forall h | h in row
      ensures row[h] in values + [""]
    {
      var j := LastIndexOf(headers, h);
      assert j < |values| ==> (values + [""])[j] == values[j];
      assert (values + [""])[|values|] == "";
    }
  }

  /**
   * What a parse yields: nothing when fewer than two non-blank lines remain, otherwise one
   * row per data line, keyed by exactly the cleaned header cells, each header holding the
   * cleaned cell at its (last) position or "" when the line is too short, and no cell
   * holding a comma or a double quote.
   */
  lemma ParseCsvShape(text: string)
    ensures ParseCsv(text).None? <==> |Lines(text)| < 2
    ensures ParseCsv(text).Some? ==>
      |ParseCsv(text).value| == |Lines(text)| - 1
      && ParsedFrom(Cells(Lines(text)[0]), Lines(text)[1..], ParseCsv(text).value)
  {
    var lines := Lines(text);
    if |lines| >= 2 {
      RowsShape(Cells(lines[0]), lines[1..]);
    }
  }

  /** A parse succeeds exactly when there are two non-blank lines, with one row per data line. */
  lemma ParseCsvCount(text: string)
    ensures ParseCsv(text).None? <==> |Lines(text)| < 2
    ensures ParseCsv(text).Some? ==> |ParseCsv(text).value| == |Lines(text)| - 1
  {
  }

  /**
   * `rows` is one row per data line, row `k` having the shape of line `k`'s cells under
   * `headers`, and no value holding a comma or a double quote.
   */
  predicate ParsedFrom(headers: seq<string>, dataLines: seq<string>, rows: seq<Row>) {
    |rows| == |dataLines|
    && (forall k :: 0 <= k < |rows| ==> RowShape(headers, Cells(dataLines[k]), rows[k]))
    && (forall k, h :: 0 <= k < |rows| && h in rows[k] ==> ',' !in rows[k][h] && '"' !in rows[k][h])
  }

  /** The rows built from data lines are parsed from them. */
  lemma RowsShape(headers: seq<string>, dataLines: seq<string>)
    ensures ParsedFrom(headers, dataLines, RowsFor(headers, dataLines))
  {
    var rows := RowsFor(headers, dataLines);
    forall k | 0 <= k < |dataLines|
      ensures RowShape(headers, Cells(dataLines[k]), rows[k])
      ensures forall h :: h in rows[k] ==> ',' !in rows[k][h] && '"' !in rows[k][h]
    {
      RowsForAt(headers, dataLines, k);
      BuiltRowShape(headers, dataLines[k]);
    }
  }

  /** The row built from one line has the shape of its cells, and no value holds a comma or a quote. */
  lemma BuiltRowShape(headers: seq<string>, line: string)
    ensures RowShape(headers, Cells(line), RowFor(headers, Cells(line)))
    ensures forall h :: h in RowFor(headers, Cells(line)) ==>
      ',' !in RowFor(headers, Cells(line))[h] && '"' !in RowFor(headers, Cells(line))[h]
  {
    var values := Cells(line);
    var row := RowFor(headers, values);
    RowForShape(headers, values);
    CellsClean(line);
    forall h | h in row
      ensures ',' !in row[h] && '"' !in row[h]
    {
      var v := row[h];
      assert v in values + [""];
      if v != "" {
        assert v in values;
      }
    }
  }

  /** `lines.slice(1).map(line => { ...; return row })`, each row built by `BuildRow`. */
  method BuildRows(headers: seq<string>, dataLines: seq<string>) returns (data: seq<Row>)
    ensures data == RowsFor(headers, dataLines)
  {
    data := [];
    for k := 0 to |dataLines|
      invariant data == RowsFor(headers, dataLines[..k])
    {
      var values := Cells(dataLines[k]);
      var row := BuildRow(headers, values);
      assert dataLines[..k + 1] == dataLines[..k] + [dataLines[k]];
      RowsForSnoc(headers, dataLines[..k], dataLines[k]);
      data := data + [row];
    }
    assert dataLines[..|dataLines|] == dataLines;
  }

  /** The parse step of the upload handler. */
  method ParseCsvText(text: string) returns (rows: Option<seq<Row>>)
    ensures rows == ParseCsv(text)
  {
    var lines := Lines(text);
    if |lines| < 2 {
      return None;
    }
    var headers := Cells(lines[0]);
    var data := BuildRows(headers, lines[1..]);
    rows := Some(data);
  }

  // ---- Export ---------------------------------------------------------------------

  const ExportHeaders: seq<string> := ["ID", "城市名称", "省份", "纬度", "经度", "搜索热度", "旅游热度", "经济热度", "人口", "GDP"]

  /** The record fields behind the seven numeric columns, in column order. */
  const ExportNumberKeys: seq<string> := ["lat", "lng", "searchHeat", "travelHeat", "economicHeat", "population", "gdp"]

  /** `"${s}"`. */
  function Quoted(s: string): string {
    "\"" + s + "\""
  }

  /** `city[key] || ''`: the formatted number, or an empty cell when it is unset or 0. */
  function NumberCell(c: BatchCity, key: string, format: real -> string): string {
    if key in c.numbers && c.numbers[key] != 0.0 then format(c.numbers[key]) else ""
  }

  function NumberCellOf(c: BatchCity, format: real -> string): string -> string {
    (key: string) => NumberCell(c, key, format)
  }

  /** The seven numeric cells of one city. */
  function NumberCells(c: BatchCity, format: real -> string): seq<string> {
    Map(ExportNumberKeys, NumberCellOf(c, format))
  }

  /** The cells of one exported city, in header order. */
  function ExportCells(c: BatchCity, format: real -> string): seq<string> {
    [IdText(c.id), Quoted(c.name), Quoted(c.province)] + NumberCells(c, format)
  }

  /** One exported line: the cells joined by commas. */
  function ExportLine(c: BatchCity, format: real -> string): string {
    Join(ExportCells(c, format), ',')
  }

  function ExportLineOf(format: real -> string): BatchCity -> string {
    (c: BatchCity) => ExportLine(c, format)
  }

  /** The body of the export: one line per city. */
  function ExportLines(cities: seq<BatchCity>, format: real -> string): seq<string> {
    Map(cities, ExportLineOf(format))
  }

  /** `handleExport`'s text: the header line, then one line per city, joined by '\n'. */
  function ExportCsv(cities: seq<BatchCity>, format: real -> string): string {
    Join([Join(ExportHeaders, ',')] + ExportLines(cities, format), '\n')
  }

  /** What the line of one city reads back as, column by column. */
  function ExportValues(c: BatchCity, format: real -> string): seq<string> {
    [IdText(c.id), c.name, c.province] + NumberCells(c, format)
  }

  /** Text the splitter cannot cut or alter: no comma, quote or newline. */
  predicate SafeText(s: string) {
    ',' !in s && '"' !in s && '\n' !in s
  }

  /** An unquoted cell that survives cleaning: safe and with no whitespace at either end. */
  predicate PlainCell(s: string) {
    SafeText(s) && (s == [] || (!IsJsWhitespace(s[0]) && !IsJsWhitespace(s[|s| - 1])))
  }

  /** The cities whose text fields and formatted numbers survive the round trip. */
  ghost predicate Exportable(cities: seq<BatchCity>, format: real -> string) {
    (forall x: real :: PlainCell(format(x)))
    && forall i :: 0 <= i < |cities| ==>
      PlainCell(IdText(cities[i].id)) && SafeText(cities[i].name) && SafeText(cities[i].province)
  }

  lemma CleanPlain(s: string)
    requires PlainCell(s)
    ensures CleanCell(s) == s
  {
    TrimIdentity(s);
    RemoveWhereNone(s, IsQuote);
  }

  lemma UnquoteQuoted(s: string)
    requires '"' !in s
    ensures RemoveWhere(Quoted(s), IsQuote) == s
  {
    var q := Quoted(s);
    assert q == ['"'] + (s + ['"']);
    assert q[1..] == s + ['"'];
    assert RemoveWhere(q, IsQuote) == RemoveWhere(s + ['"'], IsQuote);
    RemoveWhereAppend(s, ['"'], IsQuote);
    RemoveWhereNone(s, IsQuote);
    assert RemoveWhere(['"'], IsQuote) == [];
  }

  lemma CleanQuoted(s: string)
    requires SafeText(s)
    ensures CleanCell(Quoted(s)) == s
  {
    var q := Quoted(s);
    assert q[0] == '"' && q[|q| - 1] == '"';
    TrimIdentity(q);
    UnquoteQuoted(s);
  }

  lemma QuotedAvoids(s: string, c: char)
    requires c != '"' && c !in s
    ensures c !in Quoted(s)
  {
    assert Quoted(s) == ['"'] + s + ['"'];
  }

  lemma {:induction false} MapCleanPlain(cells: seq<string>)
    requires forall i :: 0 <= i < |cells| ==> PlainCell(cells[i])
    ensures Map(cells, CleanCell) == cells
    decreases |cells|
  {
    if cells != [] {
      CleanPlain(cells[0]);
      MapCleanPlain(cells[1..]);
      assert cells == [cells[0]] + cells[1..];
    }
  }

  lemma {:induction false} JoinAvoids(parts: seq<string>, sep: char, c: char)
    requires c != sep && forall i :: 0 <= i < |parts| ==> c !in parts[i]
    ensures c !in Join(parts, sep)
    decreases |parts|
  {
    if |parts| > 1 {
      JoinAvoids(parts[1..], sep, c);
    }
  }

  lemma JoinHasSep(parts: seq<string>, sep: char)
    requires |parts| >= 2
    ensures |parts[0]| < |Join(parts, sep)| && Join(parts, sep)[|parts[0]|] == sep
  {
    assert Join(parts, sep) == parts[0] + [sep] + Join(parts[1..], sep);
  }

  /** A line of cells with no comma or newline splits back into them, and is not blank. */
  lemma JoinedLine(cells: seq<string>)
    requires |cells| >= 2
    requires forall i :: 0 <= i < |cells| ==> ',' !in cells[i] && '\n' !in cells[i]
    ensures Split(Join(cells, ','), ',') == cells
    ensures '\n' !in Join(cells, ',') && IsNonBlank(Join(cells, ','))
  {
    SplitJoin(cells, ',');
    JoinAvoids(cells, ',', '\n');
    JoinedLineNonBlank(cells);
  }

  /** The comma between the first two cells is not whitespace, so the line does not trim away. */
  lemma JoinedLineNonBlank(cells: seq<string>)
    requires |cells| >= 2
    ensures IsNonBlank(Join(cells, ','))
  {
    var line := Join(cells, ',');
    JoinHasSep(cells, ',');
    var i := |cells[0]|;
    assert !IsJsWhitespace(line[i]);
    assert !AllWhitespace(line);
  }

  lemma NumberCellsPlain(c: BatchCity, format: real -> string)
    requires forall x: real :: PlainCell(format(x))
    ensures forall i :: 0 <= i < |NumberCells(c, format)| ==> PlainCell(NumberCells(c, format)[i])
    ensures |NumberCells(c, format)| == 7
  {
    var cells := NumberCells(c, format);
    forall i | 0 <= i < |cells|
      ensures PlainCell(cells[i])
    {
      assert cells[i] == NumberCell(c, ExportNumberKeys[i], format);
    }
  }

  /** Cells joined into a line read back, cell by cell, as what cleaning makes of them. */
  lemma LineOfCells(raw: seq<string>, clean: seq<string>)
    requires |raw| == |clean| >= 2
    requires forall i :: 0 <= i < |raw| ==> ',' !in raw[i] && '\n' !in raw[i] && CleanCell(raw[i]) == clean[i]
    ensures Cells(Join(raw, ',')) == clean
    ensures '\n' !in Join(raw, ',') && IsNonBlank(Join(raw, ','))
  {
    JoinedLine(raw);
  }

  /** One cell of an exported line: no comma or newline, and cleaning gives its column's value. */
  lemma ExportCellAt(c: BatchCity, format: real -> string, i: nat)
    requires forall x: real :: PlainCell(format(x))
    requires PlainCell(IdText(c.id)) && SafeText(c.name) && SafeText(c.province)
    requires i < |ExportCells(c, format)|
    ensures |ExportValues(c, format)| == |ExportCells(c, format)|
    ensures var raw, clean := ExportCells(c, format)[i], ExportValues(c, format)[i];
      ',' !in raw && '\n' !in raw && CleanCell(raw) == clean
  {
    var numbers := NumberCells(c, format);
    NumberCellsPlain(c, format);
    CellReadsBack(IdText(c.id), c.name, c.province, numbers, i);
  }

  /**
   * A cell of an id, a quoted name, a quoted province and plain numbers: no comma or
   * newline, and cleaning gives the unquoted value.
   */
  lemma CellReadsBack(id: string, name: string, province: string, numbers: seq<string>, i: nat)
    requires PlainCell(id) && SafeText(name) && SafeText(province)
    requires forall k :: 0 <= k < |numbers| ==> PlainCell(numbers[k])
    requires i < 3 + |numbers|
    ensures var raw, clean := ([id, Quoted(name), Quoted(province)] + numbers)[i], ([id, name, province] + numbers)[i];
      ',' !in raw && '\n' !in raw && CleanCell(raw) == clean
  {
    var raw, clean := [id, Quoted(name), Quoted(province)] + numbers, [id, name, province] + numbers;
    if i == 0 {
      assert raw[i] == id && clean[i] == id;
      PlainCellReadsBack(id);
    } else if i == 1 {
      assert raw[i] == Quoted(name) && clean[i] == name;
      QuotedCellReadsBack(name);
    } else if i == 2 {
      assert raw[i] == Quoted(province) && clean[i] == province;
      QuotedCellReadsBack(province);
    } else {
      assert raw[i] == numbers[i - 3] && clean[i] == numbers[i - 3];
      PlainCellReadsBack(numbers[i - 3]);
    }
  }

  lemma PlainCellReadsBack(s: string)
    requires PlainCell(s)
    ensures ',' !in s && '\n' !in s && CleanCell(s) == s
  {
    CleanPlain(s);
  }

  lemma QuotedCellReadsBack(s: string)
    requires SafeText(s)
    ensures ',' !in Quoted(s) && '\n' !in Quoted(s) && CleanCell(Quoted(s)) == s
  {
    CleanQuoted(s);
    QuotedAvoids(s, ',');
    QuotedAvoids(s, '\n');
  }

  lemma ExportLineCells(c: BatchCity, format: real -> string)
    requires forall x: real :: PlainCell(format(x))
    requires PlainCell(IdText(c.id)) && SafeText(c.name) && SafeText(c.province)
    ensures Cells(ExportLine(c, format)) == ExportValues(c, format)
    ensures '\n' !in ExportLine(c, format) && IsNonBlank(ExportLine(c, format))
  {
    NumberCellsPlain(c, format);
    var raw := ExportCells(c, format);
    var clean := ExportValues(c, format);
    forall i | 0 <= i < |raw|
      ensures ',' !in raw[i] && '\n' !in raw[i] && CleanCell(raw[i]) == clean[i]
    {
      ExportCellAt(c, format, i);
    }
    LineOfCells(raw, clean);
  }

  lemma HeadersPlain()
    ensures forall i :: 0 <= i < |ExportHeaders| ==> PlainCell(ExportHeaders[i])
  {
    HeadersPlainFirst();
    HeadersPlainLast();
  }

  lemma HeadersPlainFirst()
    ensures PlainCell("ID") && PlainCell("城市名称") && PlainCell("省份") && PlainCell("纬度") && PlainCell("经度")
  {
    assert PlainCell("ID");
    assert PlainCell("城市名称");
    assert PlainCell("省份");
    assert PlainCell("纬度");
    assert PlainCell("经度");
  }

  lemma HeadersPlainLast()
    ensures PlainCell("搜索热度") && PlainCell("旅游热度") && PlainCell("经济热度") && PlainCell("人口") && PlainCell("GDP")
  {
    assert PlainCell("搜索热度");
    assert PlainCell("旅游热度");
    assert PlainCell("经济热度");
    assert PlainCell("人口");
    assert PlainCell("GDP");
  }

  lemma HeaderLineCells()
    ensures Cells(Join(ExportHeaders, ',')) == ExportHeaders
    ensures '\n' !in Join(ExportHeaders, ',') && IsNonBlank(Join(ExportHeaders, ','))
  {
    HeadersPlain();
    JoinedLine(ExportHeaders);
    MapCleanPlain(ExportHeaders);
  }

  /** No export header repeats, so each one sits at its last position. */
  lemma HeadersDistinct()
    ensures forall j :: 0 <= j < |ExportHeaders| ==> LastPosition(ExportHeaders, j)
  {
    var h := ExportHeaders;
    assert forall i, j :: 0 <= i < j < |h| ==> h[i] != h[j];
  }

  /** A row built from an exported line: keyed by the headers, each holding its column's value. */
  lemma ExportedRow(c: BatchCity, format: real -> string)
    ensures var row := RowFor(ExportHeaders, ExportValues(c, format));
      row.Keys == (set h | h in ExportHeaders)
      && forall j :: 0 <= j < |ExportHeaders| ==> ExportHeaders[j] in row && row[ExportHeaders[j]] == ExportValues(c, format)[j]
  {
    var values := ExportValues(c, format);
    assert |values| == |ExportHeaders|;
    HeadersDistinct();
    RowOfDistinct(ExportHeaders, values);
  }

  /** Under headers that are each at their last position, the row holds the values one for one. */
  lemma RowOfDistinct(headers: seq<string>, values: seq<string>)
    requires |values| == |headers|
    requires forall j :: 0 <= j < |headers| ==> LastPosition(headers, j)
    ensures RowFor(headers, values).Keys == (set h | h in headers)
    ensures forall j :: 0 <= j < |headers| ==> RowFor(headers, values)[headers[j]] == values[j]
  {
    RowForShape(headers, values);
  }

  /** A line `Lines` keeps whole: no newline inside, and not blank. */
  predicate TextLine(line: string) {
    '\n' !in line && IsNonBlank(line)
  }

  /** Lines with no newline and not blank, joined by '\n', split back into themselves. */
  lemma TextLines(lines: seq<string>)
    requires |lines| >= 1
    requires forall i :: 0 <= i < |lines| ==> TextLine(lines[i])
    ensures Lines(Join(lines, '\n')) == lines
  {
    SplitJoin(lines, '\n');
    FilterKeepsAll(lines, IsNonBlank);
  }

  /** A header line in front of text lines keeps every line a text line. */
  lemma HeaderAndBody(header: string, body: seq<string>)
    requires TextLine(header)
    requires forall k :: 0 <= k < |body| ==> TextLine(body[k])
    ensures forall i :: 0 <= i < |[header] + body| ==> TextLine(([header] + body)[i])
  {
    var lines := [header] + body;
    forall i | 0 <= i < |lines|
      ensures TextLine(lines[i])
    {
      if i > 0 {
        assert lines[i] == body[i - 1];
      }
    }
  }

  /** A header line and body lines that `Lines` keeps whole come back from their join. */
  lemma ParsedLines(header: string, cities: seq<BatchCity>, line: BatchCity -> string)
    requires TextLine(header)
    requires forall k :: 0 <= k < |cities| ==> TextLine(line(cities[k]))
    ensures Lines(Join([header] + Map(cities, line), '\n')) == [header] + Map(cities, line)
  {
    var body := Map(cities, line);
    assert forall k :: 0 <= k < |body| ==> TextLine(body[k]);
    HeaderAndBody(header, body);
    TextLines([header] + body);
  }

  /** The lines of the export are the header line and one line per city, reading back as its values. */
  lemma ExportedLines(cities: seq<BatchCity>, format: real -> string)
    requires Exportable(cities, format)
    ensures Lines(ExportCsv(cities, format)) == [Join(ExportHeaders, ',')] + ExportLines(cities, format)
    ensures forall k :: 0 <= k < |cities| ==> Cells(ExportLines(cities, format)[k]) == ExportValues(cities[k], format)
  {
    HeaderLineCells();
    forall k | 0 <= k < |cities|
      ensures TextLine(ExportLineOf(format)(cities[k]))
      ensures Cells(ExportLineOf(format)(cities[k])) == ExportValues(cities[k], format)
    {
      ExportLineCells(cities[k], format);
    }
    ParsedLines(Join(ExportHeaders, ','), cities, ExportLineOf(format));
  }

  /**
   * Export, then parse: for cities whose text fields and formatted numbers contain no
   * comma, quote or newline (and whose id and numbers have no whitespace at the ends),
   * the parse gives back one row per city, built from the export headers and the values
   * exported in its columns: the id, the name and province without their quotes, and
   * the numeric cells. `ExportedRow` says what such a row holds.
   */
  lemma ExportThenParse(cities: seq<BatchCity>, format: real -> string)
    requires cities != []
    requires Exportable(cities, format)
    ensures ParseCsv(ExportCsv(cities, format)).Some?
    ensures var rows := ParseCsv(ExportCsv(cities, format)).value;
      |rows| == |cities|
      && forall k :: 0 <= k < |cities| ==> rows[k] == RowFor(ExportHeaders, ExportValues(cities[k], format))
  {
    var body := ExportLines(cities, format);
    ExportedLines(cities, format);
    HeaderLineCells();
    var lines := [Join(ExportHeaders, ',')] + body;
    assert lines[1..] == body;
    var rows := RowsFor(ExportHeaders, body);
    assert ParseCsv(ExportCsv(cities, format)) == Some(rows);
    forall k | 0 <= k < |cities|
      ensures rows[k] == RowFor(ExportHeaders, ExportValues(cities[k], format))
    {
      RowsForAt(ExportHeaders, body, k);
    }
  }

  /** A text with a single non-blank line has no data rows. */
  lemma LoneLine(line: string)
    requires TextLine(line)
    ensures ParseCsv(Join([line], '\n')) == None
  {
    TextLines([line]);
  }

  /** An export of no cities is a lone header line, which parses as no data. */
  lemma ExportEmptyThenParse(format: real -> string)
    ensures ParseCsv(ExportCsv([], format)) == None
  {
    var header := Join(ExportHeaders, ',');
    HeaderLineCells();
    assert [header] + ExportLines([], format) == [header];
    LoneLine(header);
  }
}
