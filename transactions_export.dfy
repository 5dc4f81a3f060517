/**
 * The export of the ledger table (src/components/Transactions.jsx): the
 * record transform, the CSV text and the column/row table handed to the PDF
 * writer. The CSV is a loose form of RFC 4180 section 2: lines end in "\n"
 * rather than CRLF and a double quote inside a field is not doubled.
 */
module TransactionsExport {
  import opened Ledger
  import opened Seqs

  /**
   * A transformed record, its fields in the key order of the object the
   * source builds: the remaining keys of the record in their order, with
   * `amount` and `currentbalance` rewritten in place and `date` appended.
   */
  datatype ExportRecord = ExportRecord(
    amount: string,
    currentbalance: string,
    description: string,
    mode: string,
    date: string)

  /** `Object.keys` of a transformed record. */
  const ExportKeys: seq<string> := ["amount", "currentbalance", "description", "mode", "date"]

  /** `Object.values` of a transformed record, in key order. */
  function Values(r: ExportRecord): (vs: seq<string>)
    ensures |vs| == |ExportKeys|
  {
    [r.amount, r.currentbalance, r.description, r.mode, r.date]
  }

  /**
   * The transform of one record: `id`, `increment` and `user_id` dropped,
   * the date cut to its first ten characters, the amount signed by
   * `increment`, and the currency code after both money fields. `show` is
   * JavaScript's conversion of a number to text.
   */
  function ExportRow(t: Txn, code: string, show: real -> string): (r: ExportRecord)
    ensures |r.amount| > 0 && r.amount[0] == (if t.increment then '+' else '-')
    ensures |r.date| <= 10 && |r.date| <= |t.date| && r.date == t.date[..|r.date|]
    ensures r.description == t.description && r.mode == t.mode
  {
    ExportRecord(
      (if t.increment then "+" else "-") + show(t.amount) + " " + code,
      show(t.currentBalance) + " " + code,
      t.description,
      t.mode,
      Take(t.date, 10))
  }

  /** `transformDataForExport`: one transformed record per record, in order. */
  function TransformForExport(data: seq<Txn>, code: string, show: real -> string): (r: seq<ExportRecord>)
    ensures |r| == |data|
  {
    seq(|data|, k requires 0 <= k < |data| => ExportRow(data[k], code, show))
  }

  /** Reads a signed money cell back: the sign as `increment`, and the text of the number. */
  function DecodeAmount(cell: string, code: string): Option<(bool, string)> {
    var tail := " " + code;
    if |cell| < 1 + |tail| || cell[|cell| - |tail|..] != tail || (cell[0] != '+' && cell[0] != '-') then None
    else Some((cell[0] == '+', cell[1..|cell| - |tail|]))
  }

  /** Reads an unsigned money cell back: the text of the number. */
  function DecodeBalance(cell: string, code: string): Option<string> {
    var tail := " " + code;
    if |cell| < |tail| || cell[|cell| - |tail|..] != tail then None
    else Some(cell[..|cell| - |tail|])
  }

  /**
   * What each exported record says about its source record: the amount cell
   * gives back the credit/debit flag and the amount's text, the balance cell
   * gives back the balance's text, the date is the first ten characters of
   * the ISO date (all of it when shorter), and description and mode are
   * passed through.
   */
  lemma ExportRowDecodes(data: seq<Txn>, code: string, show: real -> string, k: nat)
    requires k < |data|
    ensures var r := TransformForExport(data, code, show)[k];
      && DecodeAmount(r.amount, code) == Some((data[k].increment, show(data[k].amount)))
      && DecodeBalance(r.currentbalance, code) == Some(show(data[k].currentBalance))
      && |r.date| == (if |data[k].date| < 10 then |data[k].date| else 10)
      && r.date == data[k].date[..|r.date|]
      && r.description == data[k].description
      && r.mode == data[k].mode
  {
    var t := data[k];
    var r := TransformForExport(data, code, show)[k];
    var tail := " " + code;
    var sign := if t.increment then "+" else "-";
    assert r.amount == sign + show(t.amount) + tail;
    assert r.amount[|r.amount| - |tail|..] == tail;
    assert r.amount[1..|r.amount| - |tail|] == show(t.amount);
    assert r.currentbalance == show(t.currentBalance) + tail;
    assert r.currentbalance[|r.currentbalance| - |tail|..] == tail;
    assert r.currentbalance[..|r.currentbalance| - |tail|] == show(t.currentBalance);
  }

  // ---------------------------------------------------------------------
  // Text: upper-casing, joining and splitting

  /** `toUpperCase` on the ASCII letters the keys are written in. */
  function UpperChar(c: char): char {
    if 'a' <= c <= 'z' then (c as int - 32) as char else c
  }

  function Upper(s: string): string {
    seq(|s|, k requires 0 <= k < |s| => UpperChar(s[k]))
  }

  /** `parts.join(sep)`. */
  function Join(parts: seq<string>, sep: string): string
    decreases |parts|
  {
    if |parts| == 0 then ""
    else if |parts| == 1 then parts[0]
    else parts[0] + sep + Join(parts[1..], sep)
  }

  /** `s.split(sep)` for a one-character separator: never empty, `""` gives `[""]`. */
  function Split(s: string, sep: char): (parts: seq<string>)
    ensures |parts| >= 1
    decreases |s|
  {
    if s == [] then [""]
    else
      var rest := Split(s[1..], sep);
      if s[0] == sep then [""] + rest else [[s[0]] + rest[0]] + rest[1..]
  }

  lemma {:induction false} SplitWithoutSeparator(s: string, sep: char)
    requires sep !in s
    ensures Split(s, sep) == [s]
    decreases |s|
  {
    if s != [] {
      SplitWithoutSeparator(s[1..], sep);
      assert [s[0]] + s[1..] == s;
    }
  }

  lemma {:induction false} SplitAtFirst(a: string, sep: char, b: string)
    requires sep !in a
    ensures Split(a + [sep] + b, sep) == [a] + Split(b, sep)
    decreases |a|
  {
    if a == [] {
      assert a + [sep] + b == [sep] + b;
      assert ([sep] + b)[1..] == b;
    } else {
      SplitAtFirst(a[1..], sep, b);
      assert (a + [sep] + b)[1..] == a[1..] + [sep] + b;
      assert [a[0]] + a[1..] == a;
    }
  }

  /** Splitting a join at its separator gives the parts back, when no part holds the separator. */
  lemma {:induction false} SplitJoin(parts: seq<string>, sep: char)
    requires |parts| >= 1
    requires forall k :: 0 <= k < |parts| ==> sep !in parts[k]
    ensures Split(Join(parts, [sep]), sep) == parts
    decreases |parts|
  {
    if |parts| == 1 {
      SplitWithoutSeparator(parts[0], sep);
    } else {
      SplitJoin(parts[1..], sep);
      SplitAtFirst(parts[0], sep, Join(parts[1..], [sep]));
      assert [parts[0]] + parts[1..] == parts;
    }
  }

  // ---------------------------------------------------------------------
  // CSV

  /** A field wrapped in double quotes, as `"${value}"` writes it. */
  function Quote(v: string): string {
    "\"" + v + "\""
  }

  /** The header line's cells: the keys upper-cased. */
  function Columns(): (cs: seq<string>)
    ensures |cs| == |ExportKeys|
  {
    seq(|ExportKeys|, k requires 0 <= k < |ExportKeys| => Upper(ExportKeys[k]))
  }

  /** Cells quoted and joined by commas. */
  function QuotedLine(cells: seq<string>): string {
    Join(seq(|cells|, k requires 0 <= k < |cells| => Quote(cells[k])), ",")
  }

  /** One CSV data line: the record's values quoted and joined by commas. */
  function CsvRow(r: ExportRecord): string {
    QuotedLine(Values(r))
  }

  /** The lines `convertToCSV` joins: the header line, then one data line per record. */
  function CsvLines(data: seq<Txn>, code: string, show: real -> string): (lines: seq<string>)
    ensures |lines| == |data| + 1
    ensures lines[0] == Join(Columns(), ",")
    ensures forall k :: 0 <= k < |data| ==> lines[k + 1] == CsvRow(ExportRow(data[k], code, show))
  {
    [Join(Columns(), ",")] + seq(|data|, k requires 0 <= k < |data| => CsvRow(ExportRow(data[k], code, show)))
  }

  /** `convertToCSV`: `""` for no records, else the header line and one line per record, joined by "\n". */
  function ConvertToCSV(data: seq<Txn>, code: string, show: real -> string): (csv: string)
    ensures csv == "" <==> |data| == 0
    ensures |data| > 0 ==>
      |csv| > |Join(Columns(), ",")| && csv[..|Join(Columns(), ",")| + 1] == Join(Columns(), ",") + "\n"
  {
    if |data| == 0 then ""
    else
      var lines := CsvLines(data, code, show);
      var header := Join(Columns(), ",");
      assert Join(lines, "\n") == header + "\n" + Join(lines[1..], "\n");
      assert (header + "\n" + Join(lines[1..], "\n"))[..|header| + 1] == header + "\n";
      Join(lines, "\n")
  }

  lemma CsvIsLines(data: seq<Txn>, code: string, show: real -> string)
    requires |data| > 0
    ensures ConvertToCSV(data, code, show) == Join(CsvLines(data, code, show), "\n")
  {
  }

  /** The column/row table of `handleExportPDF`. */
  datatype Table = Table(columns: seq<string>, rows: seq<seq<string>>)

  /**
   * The columns and rows built for the PDF export. The source reads the
   * first transformed record's keys without checking that there is one.
   */
  function ExportTable(data: seq<Txn>, code: string, show: real -> string): (t: Table)
    requires |data| > 0
    ensures |t.rows| == |data| && |t.columns| == |ExportKeys|
    ensures forall k :: 0 <= k < |data| ==> |t.rows[k]| == |t.columns|
    ensures t.columns == Columns()
    ensures forall k :: 0 <= k < |data| ==> t.rows[k] == Values(ExportRow(data[k], code, show))
  {
    var rows := TransformForExport(data, code, show);
    Table(Columns(), seq(|rows|, k requires 0 <= k < |rows| => Values(rows[k])))
  }

  lemma UpperOf(s: string, caps: string)
    requires |s| == |caps|
    requires forall k :: 0 <= k < |s| ==> UpperChar(s[k]) == caps[k]
    ensures Upper(s) == caps
  {
  }

  /** The header cells are the keys in capitals. */
  lemma ColumnsText()
    ensures Columns() == ["AMOUNT", "CURRENTBALANCE", "DESCRIPTION", "MODE", "DATE"]
  {
    UpperOf("amount", "AMOUNT");
    UpperOf("currentbalance", "CURRENTBALANCE");
    UpperOf("description", "DESCRIPTION");
    UpperOf("mode", "MODE");
    UpperOf("date", "DATE");
  }

  lemma Join5(a: string, b: string, c: string, d: string, e: string, sep: string)
    ensures Join([a, b, c, d, e], sep) == (a + sep) + ((b + sep) + ((c + sep) + ((d + sep) + e)))
  {
    assert [d, e][1..] == [e];
    assert Join([d, e], sep) == (d + sep) + e;
    assert [c, d, e][1..] == [d, e];
    assert Join([c, d, e], sep) == (c + sep) + ((d + sep) + e);
    assert [b, c, d, e][1..] == [c, d, e];
    assert Join([b, c, d, e], sep) == (b + sep) + ((c + sep) + ((d + sep) + e));
    assert [a, b, c, d, e][1..] == [b, c, d, e];
  }

  /** The header line is the keys in capitals, separated by commas. */
  lemma HeaderText()
    ensures Join(Columns(), ",") ==
      ("AMOUNT" + ",") + (("CURRENTBALANCE" + ",") + (("DESCRIPTION" + ",") + (("MODE" + ",") + "DATE")))
  {
    ColumnsText();
    Join5("AMOUNT", "CURRENTBALANCE", "DESCRIPTION", "MODE", "DATE", ",");
  }

  /** The header line holds no line break. */
  lemma HeaderUnbroken()
    ensures '\n' !in Join(Columns(), ",")
  {
    forall k | 0 <= k < |Columns()| ensures '\n' !in Columns()[k] {
      var key := ExportKeys[k];
      assert forall p :: 0 <= p < |key| ==> key[p] != '\n';
      assert forall p :: 0 <= p < |key| ==> Columns()[k][p] == UpperChar(key[p]);
    }
    NoBreakInJoin(Columns(), ",", '\n');
  }

  /** Nothing to export gives empty CSV text. */
  lemma CsvOfNothing(code: string, show: real -> string)
    ensures ConvertToCSV([], code, show) == ""
  {
  }

  /** No line break in anything a record's cells are made of. */
  predicate NoLineBreaks(data: seq<Txn>, code: string, show: real -> string) {
    && '\n' !in code
    && forall k :: 0 <= k < |data| ==>
         && '\n' !in show(data[k].amount) && '\n' !in show(data[k].currentBalance)
         && '\n' !in data[k].description && '\n' !in data[k].mode && '\n' !in data[k].date
  }

  lemma {:induction false} NoBreakInJoin(parts: seq<string>, sep: string, c: char)
    requires c !in sep
    requires forall k :: 0 <= k < |parts| ==> c !in parts[k]
    ensures c !in Join(parts, sep)
    decreases |parts|
  {
    if |parts| > 1 {
      NoBreakInJoin(parts[1..], sep, c);
    }
  }

  /** No CSV line holds a line break when no field does. */
  lemma CsvLinesUnbroken(data: seq<Txn>, code: string, show: real -> string)
    requires NoLineBreaks(data, code, show)
    ensures '\n' !in Join(Columns(), ",")
    ensures forall k :: 0 <= k < |data| ==> '\n' !in CsvRow(ExportRow(data[k], code, show))
  {
    HeaderUnbroken();
    forall k | 0 <= k < |data| ensures '\n' !in CsvRow(ExportRow(data[k], code, show)) {
      RowUnbroken(data[k], code, show);
    }
  }

  lemma RowUnbroken(t: Txn, code: string, show: real -> string)
    requires '\n' !in code && '\n' !in show(t.amount) && '\n' !in show(t.currentBalance)
    requires '\n' !in t.description && '\n' !in t.mode && '\n' !in t.date
    ensures '\n' !in CsvRow(ExportRow(t, code, show))
  {
    var vs := Values(ExportRow(t, code, show));
    assert vs[0] == (if t.increment then "+" else "-") + show(t.amount) + " " + code;
    assert vs[1] == show(t.currentBalance) + " " + code;
    assert vs[4] == Take(t.date, 10);
    QuotedLineAvoids(vs, '\n');
  }

  /** A quoted line holds no character its cells, quotes and commas do not hold. */
  lemma QuotedLineAvoids(vs: seq<string>, c: char)
    requires c != '"' && c != ','
    requires forall k :: 0 <= k < |vs| ==> c !in vs[k]
    ensures c !in QuotedLine(vs)
  {
    var qs := seq(|vs|, k requires 0 <= k < |vs| => Quote(vs[k]));
    forall k | 0 <= k < |vs| ensures c !in qs[k] {
      assert c !in vs[k];
    }
    NoBreakInJoin(qs, ",", c);
  }

  /**
   * The CSV text of a non-empty export splits at "\n" into exactly one
   * header line and one line per record, and those lines are the PDF
   * table's columns and rows with every cell quoted — provided no field
   * holds a line break (the source does not escape them).
   */
  lemma CsvMatchesTable(data: seq<Txn>, code: string, show: real -> string)
    requires |data| > 0
    requires NoLineBreaks(data, code, show)
    ensures var lines := Split(ConvertToCSV(data, code, show), '\n');
      var table := ExportTable(data, code, show);
      && |lines| == |data| + 1
      && lines[0] == Join(table.columns, ",")
      && (forall k :: 0 <= k < |data| ==> lines[k + 1] == QuotedLine(table.rows[k]))
      && forall k :: 0 <= k < |data| ==> lines[k + 1] == CsvRow(ExportRow(data[k], code, show))
  {
    var lines := CsvLines(data, code, show);
    CsvIsLines(data, code, show);
    CsvLinesUnbroken(data, code, show);
    forall k | 0 <= k < |lines| ensures '\n' !in lines[k] {
      if k > 0 {
        assert lines[k] == CsvRow(ExportRow(data[k - 1], code, show));
      }
    }
    SplitJoin(lines, '\n');
    assert Split(ConvertToCSV(data, code, show), '\n') == lines;
    var table := ExportTable(data, code, show);
    forall k | 0 <= k < |data| ensures lines[k + 1] == QuotedLine(table.rows[k]) {
      assert table.rows[k] == Values(ExportRow(data[k], code, show));
    }
  }

  /** The number of times `c` occurs in `s`. */
  function Occurrences(s: string, c: char): nat
    decreases |s|
  {
    if s == [] then 0 else (if s[0] == c then 1 else 0) + Occurrences(s[1..], c)
  }

  lemma {:induction false} OccurrencesAppend(a: string, b: string, c: char)
    ensures Occurrences(a + b, c) == Occurrences(a, c) + Occurrences(b, c)
    decreases |a|
  {
    if a != [] {
      assert (a + b)[1..] == a[1..] + b;
      OccurrencesAppend(a[1..], b, c);
    } else {
      assert a + b == b;
    }
  }

  lemma {:induction false} OccurrencesOfPresent(s: string, c: char)
    requires c in s
    ensures Occurrences(s, c) >= 1
    decreases |s|
  {
    if s[0] != c {
      OccurrencesOfPresent(s[1..], c);
    }
  }

  /** `split` gives one part more than there are separators. */
  lemma {:induction false} SplitCounts(s: string, sep: char)
    ensures |Split(s, sep)| == Occurrences(s, sep) + 1
    decreases |s|
  {
    if s != [] {
      SplitCounts(s[1..], sep);
    }
  }

  lemma {:induction false} JoinContains(parts: seq<string>, sep: string, j: nat, c: char)
    requires j < |parts| && c in parts[j]
    ensures c in Join(parts, sep)
    decreases |parts|
  {
    if |parts| > 1 && j > 0 {
      JoinContains(parts[1..], sep, j - 1, c);
    }
  }

  /**
   * Joining n parts with a one-character separator puts at least n - 1 of it
   * into the text, and at least n when some part holds it too.
   */
  lemma {:induction false} JoinOccurrences(parts: seq<string>, c: char, j: nat)
    requires |parts| >= 1 && j < |parts|
    ensures Occurrences(Join(parts, [c]), c) >= |parts| - 1
    ensures c in parts[j] ==> Occurrences(Join(parts, [c]), c) >= |parts|
    decreases |parts|
  {
    if c in parts[j] {
      OccurrencesOfPresent(parts[j], c);
    }
    if |parts| > 1 {
      var rest := Join(parts[1..], [c]);
      JoinOccurrences(parts[1..], c, if j > 0 then j - 1 else 0);
      OccurrencesAppend(parts[0] + [c], rest, c);
      OccurrencesAppend(parts[0], [c], c);
      assert Occurrences([c], c) == 1;
    }
  }

  /** Some exported value of some record holds a line break. */
  predicate ExportedBreak(data: seq<Txn>, code: string, show: real -> string) {
    exists k, j :: 0 <= k < |data| && 0 <= j < |ExportKeys| && '\n' in Values(ExportRow(data[k], code, show))[j]
  }

  /**
   * The CSV text of n records splits into exactly n + 1 lines when no
   * exported value holds a line break, and into more when one does: the
   * source writes line breaks inside fields unescaped.
   */
  lemma CsvLineCount(data: seq<Txn>, code: string, show: real -> string)
    requires |data| > 0
    ensures |Split(ConvertToCSV(data, code, show), '\n')| == |data| + 1 <==> !ExportedBreak(data, code, show)
    ensures ExportedBreak(data, code, show) ==> |Split(ConvertToCSV(data, code, show), '\n')| > |data| + 1
  {
    var lines := CsvLines(data, code, show);
    CsvIsLines(data, code, show);
    SplitCounts(Join(lines, "\n"), '\n');
    if ExportedBreak(data, code, show) {
      var k, j :| 0 <= k < |data| && 0 <= j < |ExportKeys| && '\n' in Values(ExportRow(data[k], code, show))[j];
      BreakInLine(Values(ExportRow(data[k], code, show)), j);
      JoinOccurrences(lines, '\n', k + 1);
    } else {
      UnbrokenLines(data, code, show);
      SplitJoin(lines, '\n');
    }
  }

  /** A line break in a value is a line break in its quoted line. */
  lemma BreakInLine(vs: seq<string>, j: nat)
    requires j < |vs| && '\n' in vs[j]
    ensures '\n' in QuotedLine(vs)
  {
    var qs := seq(|vs|, i requires 0 <= i < |vs| => Quote(vs[i]));
    assert qs[j] == "\"" + vs[j] + "\"";
    JoinContains(qs, ",", j, '\n');
  }

  lemma UnbrokenLines(data: seq<Txn>, code: string, show: real -> string)
    requires !ExportedBreak(data, code, show)
    ensures forall k :: 0 <= k < |CsvLines(data, code, show)| ==> '\n' !in CsvLines(data, code, show)[k]
  {
    var lines := CsvLines(data, code, show);
    HeaderUnbroken();
    forall k | 0 <= k < |lines| ensures '\n' !in lines[k] {
      if k > 0 {
        QuotedLineAvoids(Values(ExportRow(data[k - 1], code, show)), '\n');
        assert lines[k] == CsvRow(ExportRow(data[k - 1], code, show));
      }
    }
  }

  // ---------------------------------------------------------------------
  // Reading a CSV data line back

  /** The index of the first `c` in `s`, or `|s|` when there is none. */
  function Find(s: string, c: char): (i: nat)
    ensures i <= |s|
    ensures i < |s| ==> s[i] == c
    ensures forall k :: 0 <= k < i ==> s[k] != c
    decreases |s|
  {
    if s == [] then 0 else if s[0] == c then 0 else 1 + Find(s[1..], c)
  }

  /**
   * Reads a line of double-quoted cells separated by commas; a quote inside
   * a cell ends it, as RFC 4180 reads an undoubled quote.
   */
  function ParseCells(s: string): Option<seq<string>>
    decreases |s|, 1
  {
    if |s| == 0 || s[0] != '"' then None
    else
      var i := Find(s[1..], '"');
      if i == |s| - 1 then None else CellThen(s[1..i + 1], s[i + 2..])
  }

  /** A cell just read, then what follows its closing quote: the end, or a comma and more cells. */
  function CellThen(cell: string, after: string): Option<seq<string>>
    decreases |after|, 0
  {
    if after == "" then Some([cell])
    else if after[0] != ',' then None
    else match ParseCells(after[1..])
      case None => None
      case Some(cells) => Some([cell] + cells)
  }

  lemma {:induction false} FindAfter(a: string, c: char, b: string)
    requires c !in a
    ensures Find(a + [c] + b, c) == |a|
  {
    var s := a + [c] + b;
    assert s[|a|] == c;
    assert forall k :: 0 <= k < |a| ==> s[k] == a[k];
  }

  /** A line of one quoted cell free of quotes reads as that cell. */
  lemma {:induction false} ParseLastCell(v: string)
    requires '"' !in v
    ensures ParseCells(Quote(v)) == Some([v])
  {
    var s := Quote(v);
    assert s[1..] == v + ['"'] + "";
    FindAfter(v, '"', "");
    assert s[1..|v| + 1] == v;
    assert s[|v| + 2..] == "";
  }

  /** A quoted cell free of quotes, then a comma: the cell, then what the rest reads as. */
  lemma {:induction false} ParseCellThenComma(v: string, rest: string)
    requires '"' !in v
    ensures ParseCells(Quote(v) + "," + rest).None? <==> ParseCells(rest).None?
    ensures ParseCells(Quote(v) + "," + rest).Some? ==>
      ParseCells(Quote(v) + "," + rest).value == [v] + ParseCells(rest).value
  {
    var s := Quote(v) + "," + rest;
    assert s[1..] == v + ['"'] + ("," + rest);
    FindAfter(v, '"', "," + rest);
    assert s[1..|v| + 1] == v;
    assert s[|v| + 3..] == rest;
    ParseCellsThenComma(s, |v|);
  }

  /** One step of reading: a quoted cell ending at `i + 1`, then a comma and the rest. */
  lemma ParseCellsThenComma(s: string, i: nat)
    requires |s| > i + 2 && s[0] == '"' && Find(s[1..], '"') == i && s[i + 2] == ','
    ensures ParseCells(s).None? <==> ParseCells(s[i + 3..]).None?
    ensures ParseCells(s).Some? ==> ParseCells(s).value == [s[1..i + 1]] + ParseCells(s[i + 3..]).value
  {
    var after := s[i + 2..];
    assert ParseCells(s) == CellThen(s[1..i + 1], after);
    assert after[1..] == s[i + 3..];
  }

  /** A quoted line is its first cell quoted, then a comma and the quoted rest. */
  lemma QuotedLineCons(vs: seq<string>)
    requires |vs| >= 1
    ensures |vs| == 1 ==> QuotedLine(vs) == Quote(vs[0])
    ensures |vs| > 1 ==> QuotedLine(vs) == Quote(vs[0]) + "," + QuotedLine(vs[1..])
  {
    var qs := seq(|vs|, k requires 0 <= k < |vs| => Quote(vs[k]));
    assert qs[1..] == seq(|vs| - 1, k requires 0 <= k < |vs| - 1 => Quote(vs[1..][k]));
  }

  lemma {:induction false} ParseQuotedCells(vs: seq<string>)
    requires |vs| >= 1
    requires forall k :: 0 <= k < |vs| ==> '"' !in vs[k]
    ensures ParseCells(QuotedLine(vs)) == Some(vs)
    decreases |vs|
  {
    QuotedLineCons(vs);
    if |vs| == 1 {
      ParseLastCell(vs[0]);
      assert vs == [vs[0]];
    } else {
      ParseQuotedCells(vs[1..]);
      ParseCellThenComma(vs[0], QuotedLine(vs[1..]));
      assert [vs[0]] + vs[1..] == vs;
    }
  }

  /**
   * Reading a data line back gives the record's values, provided no value
   * holds a double quote (the source does not double them).
   */
  lemma CsvRowReadsBack(r: ExportRecord)
    requires forall k :: 0 <= k < |Values(r)| ==> '"' !in Values(r)[k]
    ensures ParseCells(CsvRow(r)) == Some(Values(r))
  {
    ParseQuotedCells(Values(r));
  }

  /** Every cell a line reads as is free of double quotes: a quote always ends a cell. */
  lemma {:induction false} ParsedCellsHaveNoQuote(s: string)
    ensures ParseCells(s).Some? ==>
      forall k :: 0 <= k < |ParseCells(s).value| ==> '"' !in ParseCells(s).value[k]
    decreases |s|
  {
    if |s| > 0 && s[0] == '"' {
      var i := Find(s[1..], '"');
      if i != |s| - 1 {
        var cell := s[1..i + 1];
        assert forall k :: 0 <= k < |cell| ==> cell[k] == s[1..][k];
        assert '"' !in cell;
        var after := s[i + 2..];
        assert ParseCells(s) == CellThen(cell, after);
        if after != "" && after[0] == ',' {
          var more := ParseCells(after[1..]);
          ParsedCellsHaveNoQuote(after[1..]);
          if more.Some? {
            var cells := [cell] + more.value;
            assert ParseCells(s) == Some(cells);
            assert forall k :: 0 < k < |cells| ==> cells[k] == more.value[k - 1];
          }
        }
      }
    }
  }

  /**
   * A data line reads back as the record's five values exactly when none of
   * them holds a double quote: a description such as `a"b` or `a","b` makes
   * the line read as something else, since the source does not double quotes.
   */
  lemma QuoteInValueIsMisread(r: ExportRecord)
    ensures ParseCells(CsvRow(r)) == Some(Values(r)) <==>
      forall k :: 0 <= k < |Values(r)| ==> '"' !in Values(r)[k]
  {
    if forall k :: 0 <= k < |Values(r)| ==> '"' !in Values(r)[k] {
      CsvRowReadsBack(r);
    } else {
      ParsedCellsHaveNoQuote(CsvRow(r));
    }
  }

  /** No double quote in anything a record's cells are made of. */
  predicate NoQuotes(data: seq<Txn>, code: string, show: real -> string) {
    && '"' !in code
    && forall k :: 0 <= k < |data| ==>
         && '"' !in show(data[k].amount) && '"' !in show(data[k].currentBalance)
         && '"' !in data[k].description && '"' !in data[k].mode && '"' !in data[k].date
  }

  /**
   * What the exported CSV says about record k: line k + 1 reads back as five
   * cells giving the record's credit/debit flag and amount, its balance, its
   * description, its mode and the first ten characters of its date.
   */
  lemma CsvLineSaysRecord(data: seq<Txn>, code: string, show: real -> string, k: nat)
    requires k < |data|
    requires NoLineBreaks(data, code, show) && NoQuotes(data, code, show)
    ensures var lines := Split(ConvertToCSV(data, code, show), '\n');
      && |lines| == |data| + 1
      && var cells := ParseCells(lines[k + 1]);
      && cells.Some? && |cells.value| == 5
      && DecodeAmount(cells.value[0], code) == Some((data[k].increment, show(data[k].amount)))
      && DecodeBalance(cells.value[1], code) == Some(show(data[k].currentBalance))
      && cells.value[2] == data[k].description
      && cells.value[3] == data[k].mode
      && cells.value[4] == Take(data[k].date, 10)
  {
    var lines := Split(ConvertToCSV(data, code, show), '\n');
    var r := ExportRow(data[k], code, show);
    CsvMatchesTable(data, code, show);
    assert lines[k + 1] == CsvRow(r);
    ValuesQuoteFree(data[k], code, show);
    CsvRowReadsBack(r);
    assert ParseCells(lines[k + 1]) == Some([r.amount, r.currentbalance, r.description, r.mode, r.date]);
    ExportRowDecodes(data, code, show, k);
    assert TransformForExport(data, code, show)[k] == r;
  }

  lemma ValuesQuoteFree(t: Txn, code: string, show: real -> string)
    requires '"' !in code && '"' !in show(t.amount) && '"' !in show(t.currentBalance)
    requires '"' !in t.description && '"' !in t.mode && '"' !in t.date
    ensures forall j :: 0 <= j < |Values(ExportRow(t, code, show))| ==> '"' !in Values(ExportRow(t, code, show))[j]
  {
    var r := ExportRow(t, code, show);
    assert '"' !in r.amount by {
      assert r.amount == ((if t.increment then "+" else "-") + show(t.amount)) + (" " + code);
    }
    assert '"' !in r.currentbalance by {
      assert r.currentbalance == show(t.currentBalance) + (" " + code);
    }
    assert '"' !in r.date;
  }
}
