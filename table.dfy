/**
 * The table renderer of the command-line client (`printTable`): column
 * widths, the header and its rule, one line per row, and the count footer.
 * Output is the sequence of messages the renderer logs, one per
 * `console.log` call, without colouring.
 */
module Table {
  import opened Wrappers
  import opened Text

  /** A row: field key to value; a key that is absent reads as `undefined`. */
  type Row = map<string, string>

  /** A column's optional `format(value, row)`. */
  type Formatter = (Option<string>, Row) -> string

  datatype Column = Column(key: string, heading: string, format: Option<Formatter>)

  const MAX_WIDTH: nat := 50
  const SEPARATOR: string := "  "
  const RULE_CHAR: char := '─'
  const NO_RESULTS: string := "No results found."
  const RESULTS_SUFFIX: string := " result(s)"

  /** `row[key]`, with `undefined` as None. */
  function Lookup(row: Row, key: string): (v: Option<string>)
    ensures v.Some? <==> key in row
    ensures v.Some? ==> v.value == row[key]
  {
    if key in row then Some(row[key]) else None
  }

  /**
   * The text of a cell before it is cut and padded: the column's format
   * applied to the value and the row, or the value itself, or "" when the
   * key is absent.  Width computation and data lines both use it.
   */
  function Rendered(col: Column, row: Row): (r: string)
    ensures col.format.None? && col.key in row ==> r == row[col.key]
    ensures col.format.None? && col.key !in row ==> r == ""
  {
    match col.format
    case Some(f) => f(Lookup(row, col.key), row)
    case None => Lookup(row, col.key).GetOr("")
  }

  /** The longest of the heading and the rendered values of the column, before the cap. */
  function Longest(col: Column, rows: seq<Row>): (w: nat)
    ensures w >= |col.heading|
    ensures forall i :: 0 <= i < |rows| ==> |Rendered(col, rows[i])| <= w
  {
    if rows == [] then |col.heading|
    else Max(Longest(col, rows[..|rows| - 1]), |Rendered(col, rows[|rows| - 1])|)
  }

  /** The longest is one of the lengths it is taken over. */
  lemma {:induction false} LongestAttained(col: Column, rows: seq<Row>)
    ensures Longest(col, rows) == |col.heading| || exists i :: 0 <= i < |rows| && Longest(col, rows) == |Rendered(col, rows[i])|
  {
    if rows != [] {
      var init := rows[..|rows| - 1];
      LongestAttained(col, init);
      if Longest(col, rows) != |Rendered(col, rows[|rows| - 1])| && Longest(col, init) != |col.heading| {
        var i :| 0 <= i < |init| && Longest(col, init) == |Rendered(col, init[i])|;
        assert init[i] == rows[i];
      }
    }
  }

  /**
   * A column's width: the longest of its heading and its rendered values,
   * capped at MAX_WIDTH.  The last three clauses together determine it: it
   * bounds every capped length from above and is one of them.
   */
  function ColumnWidth(col: Column, rows: seq<Row>): (w: nat)
    ensures w <= MAX_WIDTH
    ensures w >= Min(|col.heading|, MAX_WIDTH)
    ensures forall i :: 0 <= i < |rows| ==> w >= Min(|Rendered(col, rows[i])|, MAX_WIDTH)
    ensures w == Min(|col.heading|, MAX_WIDTH) || exists i :: 0 <= i < |rows| && w == Min(|Rendered(col, rows[i])|, MAX_WIDTH)
  {
    LongestAttained(col, rows);
    Min(Longest(col, rows), MAX_WIDTH)
  }

  /**
   * The `widths` object: one entry per column key, filled column by column,
   * so that a later column with the same key replaces an earlier one's width.
   */
  function Widths(columns: seq<Column>, rows: seq<Row>): (m: map<string, nat>)
    ensures forall j :: 0 <= j < |columns| ==> columns[j].key in m
    ensures forall k :: k in m ==> m[k] <= MAX_WIDTH
  {
    if columns == [] then map[]
    else
      var last := columns[|columns| - 1];
      Widths(columns[..|columns| - 1], rows)[last.key := ColumnWidth(last, rows)]
  }

  /** The index of the last column with the given key, or -1 if there is none. */
  function LastWithKey(columns: seq<Column>, key: string): (i: int)
    ensures -1 <= i < |columns|
    ensures i >= 0 ==> columns[i].key == key
    ensures forall k :: i < k < |columns| ==> columns[k].key != key
  {
    if columns == [] then -1
    else if columns[|columns| - 1].key == key then |columns| - 1
    else LastWithKey(columns[..|columns| - 1], key)
  }

  predicate KeysDistinct(columns: seq<Column>)
  {
    forall i, j :: 0 <= i < j < |columns| ==> columns[i].key != columns[j].key
  }

  /** Every column has an entry in `widths`. */
  predicate Covers(columns: seq<Column>, widths: map<string, nat>)
  {
    forall j :: 0 <= j < |columns| ==> columns[j].key in widths
  }

  /** The width each column is drawn with, in column order. */
  function DrawnWidths(columns: seq<Column>, widths: map<string, nat>): (ws: seq<nat>)
    requires Covers(columns, widths)
    ensures |ws| == |columns|
    ensures forall j :: 0 <= j < |columns| ==> ws[j] == widths[columns[j].key]
  {
    seq(|columns|, j requires 0 <= j < |columns| => widths[columns[j].key])
  }

  /** `label.padEnd(width)` for each column. */
  function HeaderSegments(columns: seq<Column>, widths: map<string, nat>): (segs: seq<string>)
    requires Covers(columns, widths)
    ensures |segs| == |columns|
  {
    seq(|columns|, j requires 0 <= j < |columns| => PadEnd(columns[j].heading, widths[columns[j].key]))
  }

  function Header(columns: seq<Column>, widths: map<string, nat>): string
    requires Covers(columns, widths)
  {
    Join(HeaderSegments(columns, widths), SEPARATOR)
  }

  /** The rule under a header: as many RULE_CHAR as the header is long. */
  function Rule(header: string): string
  {
    Repeat(RULE_CHAR, |header|)
  }

  /**
   * `val.substring(0, width).padEnd(width)`: exactly `width` characters, the
   * value cut to the width or filled with spaces up to it.
   */
  function Cell(val: string, width: nat): (r: string)
    ensures |r| == width
    ensures |val| <= width ==> r == val + Repeat(' ', width - |val|)
    ensures |val| >= width ==> r == val[..width]
  {
    PadEnd(Prefix(val, width), width)
  }

  function Cells(row: Row, columns: seq<Column>, widths: map<string, nat>): (cells: seq<string>)
    requires Covers(columns, widths)
    ensures |cells| == |columns|
  {
    seq(|columns|, j requires 0 <= j < |columns| => Cell(Rendered(columns[j], row), widths[columns[j].key]))
  }

  function DataLine(row: Row, columns: seq<Column>, widths: map<string, nat>): string
    requires Covers(columns, widths)
  {
    Join(Cells(row, columns, widths), SEPARATOR)
  }

  function DataLines(rows: seq<Row>, columns: seq<Column>, widths: map<string, nat>): (lines: seq<string>)
    requires Covers(columns, widths)
    ensures |lines| == |rows|
  {
    seq(|rows|, i requires 0 <= i < |rows| => DataLine(rows[i], columns, widths))
  }

  /** The footer message: a blank line, then the count of rows. */
  function Footer(count: nat): string
  {
    "\n" + Decimal(count) + RESULTS_SUFFIX
  }

  /**
   * What `printTable(data, columns)` logs; `data` None is an absent
   * argument.  The lemmas below say what the lines are.
   */
  function Render(data: Option<seq<Row>>, columns: seq<Column>): seq<string>
  {
    if data.None? || |data.value| == 0 then [NO_RESULTS] else TableLines(data.value, columns)
  }

  /** The lines of a table with at least one row. */
  function TableLines(rows: seq<Row>, columns: seq<Column>): seq<string>
  {
    var widths := Widths(columns, rows);
    var header := Header(columns, widths);
    [header, Rule(header)] + DataLines(rows, columns, widths) + [Footer(|rows|)]
  }

  /**
   * One step of the width computation: the column's entry is reset to its
   * heading's length, widened by each row's rendered value, then capped.
   */
  method MeasureColumn(widths: map<string, nat>, col: Column, rows: seq<Row>) returns (widths': map<string, nat>)
    ensures widths' == widths[col.key := ColumnWidth(col, rows)]
  {
    widths' := widths[col.key := |col.heading|];
    var r := 0;
    while r < |rows|
      invariant 0 <= r <= |rows|
      invariant widths' == widths[col.key := Longest(col, rows[..r])]
    {
      var val := Rendered(col, rows[r]);
      assert rows[..r + 1][..r] == rows[..r];
      assert Longest(col, rows[..r + 1]) == Max(Longest(col, rows[..r]), |val|);
      if |val| > widths'[col.key] {
        widths' := widths'[col.key := |val|];
      }
      r := r + 1;
    }
    assert rows[..r] == rows;
    widths' := widths'[col.key := Min(widths'[col.key], MAX_WIDTH)];
  }

  /** The width computation of `printTable`: every column in turn updates `widths`. */
  method ComputeWidths(rows: seq<Row>, columns: seq<Column>) returns (widths: map<string, nat>)
    ensures widths == Widths(columns, rows)
  {
    widths := map[];
    var c := 0;
    while c < |columns|
      invariant 0 <= c <= |columns|
      invariant widths == Widths(columns[..c], rows)
    {
      widths := MeasureColumn(widths, columns[c], rows);
      assert columns[..c + 1][..c] == columns[..c];
      c := c + 1;
    }
    assert columns[..c] == columns;
  }

  /** `printTable`: the messages it logs, one row at a time. */
  method PrintTable(data: Option<seq<Row>>, columns: seq<Column>) returns (out: seq<string>)
    ensures out == Render(data, columns)
  {
    if data.None? || |data.value| == 0 {
      return [NO_RESULTS];
    }
    var rows := data.value;
    var widths := ComputeWidths(rows, columns);
    var header := Header(columns, widths);
    ghost var lines := DataLines(rows, columns, widths);
    out := [header, Rule(header)];
    var i := 0;
    while i < |rows|
      invariant 0 <= i <= |rows|
      invariant out == [header, Rule(header)] + lines[..i]
    {
      var line := DataLine(rows[i], columns, widths);
      assert lines[..i + 1] == lines[..i] + [line];
      out := out + [line];
      i := i + 1;
    }
    assert lines[..i] == lines;
    out := out + [Footer(|rows|)];
  }

  /** The widths under which every heading fits its column. */
  predicate HeadingsFit(columns: seq<Column>, widths: map<string, nat>)
    requires Covers(columns, widths)
  {
    forall j :: 0 <= j < |columns| ==> |columns[j].heading| <= widths[columns[j].key]
  }

  /** Absent or empty data, and only that, gives the single notice. */
  lemma TableEmpty(data: Option<seq<Row>>, columns: seq<Column>)
    ensures (data.None? || data.value == []) <==> Render(data, columns) == [NO_RESULTS]
  {
    if data.Some? && data.value != [] {
      assert |Render(data, columns)| == |data.value| + 3;
    }
  }

  /** An element of the middle part of a concatenation, seen from the whole. */
  lemma Between<T>(front: seq<T>, middle: seq<T>, back: seq<T>, i: nat)
    requires i < |middle|
    ensures |front| + i < |front + middle + back| && (front + middle + back)[|front| + i] == middle[i]
  {
  }

  /** A non-empty table is the header, its rule, the data lines and the footer. */
  lemma TableParts(rows: seq<Row>, columns: seq<Column>)
    requires rows != []
    ensures var header := Header(columns, Widths(columns, rows));
            Render(Some(rows), columns) == [header, Rule(header)] + DataLines(rows, columns, Widths(columns, rows)) + [Footer(|rows|)]
  {
  }

  /** Line `2 + i` of a non-empty table is row `i`'s data line. */
  lemma TableLine(rows: seq<Row>, columns: seq<Column>, i: nat)
    requires i < |rows|
    ensures var out := Render(Some(rows), columns);
            |out| == |rows| + 3 && out[2 + i] == DataLine(rows[i], columns, Widths(columns, rows))
  {
    var widths := Widths(columns, rows);
    var header := Header(columns, widths);
    TableParts(rows, columns);
    Between([header, Rule(header)], DataLines(rows, columns, widths), [Footer(|rows|)], i);
  }

  /**
   * A non-empty table has three lines more than rows: line 0 is the header,
   * line `2 + i` is row `i`'s data line, in input order.
   */
  lemma TableLayout(rows: seq<Row>, columns: seq<Column>)
    requires rows != []
    ensures |Render(Some(rows), columns)| == |rows| + 3
    ensures Render(Some(rows), columns)[0] == Header(columns, Widths(columns, rows))
    ensures forall i :: 0 <= i < |rows| ==> Render(Some(rows), columns)[2 + i] == DataLine(rows[i], columns, Widths(columns, rows))
  {
    TableParts(rows, columns);
    forall i | 0 <= i < |rows|
      ensures Render(Some(rows), columns)[2 + i] == DataLine(rows[i], columns, Widths(columns, rows))
    {
      TableLine(rows, columns, i);
    }
  }

  /**
   * Line 1 of a non-empty table is a rule of RULE_CHAR exactly as long as the
   * header, and the last line is the footer: a blank line, the row count and
   * RESULTS_SUFFIX.
   */
  lemma RuleAndFooter(rows: seq<Row>, columns: seq<Column>)
    requires rows != []
    ensures var out := Render(Some(rows), columns);
            && |out| == |rows| + 3
            && |out[1]| == |out[0]|
            && AllAre(out[1], RULE_CHAR)
            && out[|rows| + 2] == "\n" + Decimal(|rows|) + RESULTS_SUFFIX
  {
  }

  /** The number in the footer reads back as the count it was given. */
  lemma FooterCount(count: nat)
    ensures var footer := Footer(count);
            && |footer| >= 2 + |RESULTS_SUFFIX|
            && footer[0] == '\n'
            && footer[|footer| - |RESULTS_SUFFIX|..] == RESULTS_SUFFIX
            && AllDigits(footer[1..|footer| - |RESULTS_SUFFIX|])
            && ParseDecimal(footer[1..|footer| - |RESULTS_SUFFIX|]) == count
  {
    var footer := Footer(count);
    DecimalDigits(count);
    assert footer[1..|footer| - |RESULTS_SUFFIX|] == Decimal(count);
    DecimalRoundTrip(count);
  }

  /** A key's width is the width of the last column with that key. */
  lemma {:induction false} WidthsLookup(columns: seq<Column>, rows: seq<Row>, key: string)
    ensures key in Widths(columns, rows) <==> LastWithKey(columns, key) >= 0
    ensures key in Widths(columns, rows) ==>
              Widths(columns, rows)[key] == ColumnWidth(columns[LastWithKey(columns, key)], rows)
  {
    if columns != [] {
      var init := columns[..|columns| - 1];
      WidthsLookup(init, rows, key);
      var i := LastWithKey(init, key);
      if i >= 0 {
        assert init[i] == columns[i];
      }
    }
  }

  /** With distinct keys, every column is drawn with its own width. */
  lemma WidthOfColumn(columns: seq<Column>, rows: seq<Row>, j: nat)
    requires KeysDistinct(columns) && j < |columns|
    ensures Widths(columns, rows)[columns[j].key] == ColumnWidth(columns[j], rows)
  {
    WidthsLookup(columns, rows, columns[j].key);
  }

  /** The cells of a data line are exactly as wide as the columns are drawn. */
  lemma CellLengths(row: Row, columns: seq<Column>, widths: map<string, nat>)
    requires Covers(columns, widths)
    ensures Lengths(Cells(row, columns, widths)) == DrawnWidths(columns, widths)
  {
  }

  /** A data line is as long as the drawn widths joined. */
  lemma LineLength(row: Row, columns: seq<Column>, widths: map<string, nat>)
    requires Covers(columns, widths)
    ensures |DataLine(row, columns, widths)| == JoinedLength(DrawnWidths(columns, widths), |SEPARATOR|)
  {
    CellLengths(row, columns, widths);
    JoinLength(Cells(row, columns, widths), SEPARATOR);
  }

  /**
   * Cell `j` of a data line starts after the drawn widths of the columns
   * before it and a separator after each, and is the rendered value cut or
   * padded to the column's width.
   */
  lemma LineCell(row: Row, columns: seq<Column>, widths: map<string, nat>, j: nat)
    requires Covers(columns, widths) && j < |columns|
    ensures var ws := DrawnWidths(columns, widths);
            var s := Offset(ws, |SEPARATOR|, j);
            && s + ws[j] <= |DataLine(row, columns, widths)|
            && DataLine(row, columns, widths)[s..s + ws[j]] == Cell(Rendered(columns[j], row), ws[j])
  {
    CellLengths(row, columns, widths);
    JoinPartAt(Cells(row, columns, widths), DrawnWidths(columns, widths), SEPARATOR, j);
  }

  /**
   * Line `2 + i` of a non-empty table holds, at the offset of column `j`,
   * row `i`'s rendered value for that column cut or padded to its width.
   */
  lemma TableCell(rows: seq<Row>, columns: seq<Column>, i: nat, j: nat)
    requires i < |rows| && j < |columns|
    ensures var out := Render(Some(rows), columns);
            var ws := DrawnWidths(columns, Widths(columns, rows));
            var s := Offset(ws, |SEPARATOR|, j);
            && |out| == |rows| + 3
            && s + ws[j] <= |out[2 + i]|
            && out[2 + i][s..s + ws[j]] == Cell(Rendered(columns[j], rows[i]), ws[j])
  {
    var widths := Widths(columns, rows);
    var ws := DrawnWidths(columns, widths);
    var line := DataLine(rows[i], columns, widths);
    LineCell(rows[i], columns, widths, j);
    TableLine(rows, columns, i);
    SliceOfLine(Render(Some(rows), columns), 2 + i, line, Offset(ws, |SEPARATOR|, j), ws[j],
                Cell(Rendered(columns[j], rows[i]), ws[j]));
  }

  /** A slice of a line carries over to the output holding that line. */
  lemma SliceOfLine(out: seq<string>, k: nat, line: string, s: nat, n: nat, piece: string)
    requires k < |out| && out[k] == line && s + n <= |line| && line[s..s + n] == piece
    ensures s + n <= |out[k]| && out[k][s..s + n] == piece
  {
  }

  /** Every cell but the last is followed by the separator. */
  lemma LineSeparator(row: Row, columns: seq<Column>, widths: map<string, nat>, j: nat)
    requires Covers(columns, widths) && j + 1 < |columns|
    ensures var ws := DrawnWidths(columns, widths);
            var e := Offset(ws, |SEPARATOR|, j) + ws[j];
            && e + |SEPARATOR| <= |DataLine(row, columns, widths)|
            && DataLine(row, columns, widths)[e..e + |SEPARATOR|] == SEPARATOR
  {
    CellLengths(row, columns, widths);
    JoinSeparatorAt(Cells(row, columns, widths), DrawnWidths(columns, widths), SEPARATOR, j);
  }

  /**
   * With distinct keys a cell shows its whole rendered value, padded, unless
   * the value is longer than MAX_WIDTH; then it shows the first MAX_WIDTH
   * characters.  Values are cut, never wrapped.
   */
  lemma CellContent(rows: seq<Row>, columns: seq<Column>, i: nat, j: nat)
    requires KeysDistinct(columns) && i < |rows| && j < |columns|
    ensures var w := Widths(columns, rows)[columns[j].key];
            var v := Rendered(columns[j], rows[i]);
            && (|v| <= MAX_WIDTH ==> |v| <= w && Cell(v, w) == v + Repeat(' ', w - |v|))
            && (|v| > MAX_WIDTH ==> w == MAX_WIDTH && Cell(v, w) == v[..MAX_WIDTH])
  {
    WidthOfColumn(columns, rows, j);
  }

  /** A header segment is the heading padded to the width, or the whole heading if it is longer. */
  lemma HeaderSegmentLengths(columns: seq<Column>, widths: map<string, nat>)
    requires Covers(columns, widths)
    ensures forall j :: 0 <= j < |columns| ==>
              |HeaderSegments(columns, widths)[j]| == Max(|columns[j].heading|, widths[columns[j].key])
    ensures HeadingsFit(columns, widths) <==> Lengths(HeaderSegments(columns, widths)) == DrawnWidths(columns, widths)
  {
    var hs := Lengths(HeaderSegments(columns, widths));
    var ws := DrawnWidths(columns, widths);
    if hs == ws {
      forall j | 0 <= j < |columns|
        ensures |columns[j].heading| <= widths[columns[j].key]
      {
        assert hs[j] == ws[j];
      }
    }
  }

  /**
   * Header segment `j` is the heading padded to the column's width; when
   * every heading fits, it starts where cell `j` starts in every data line.
   */
  lemma HeaderSegment(columns: seq<Column>, widths: map<string, nat>, j: nat)
    requires Covers(columns, widths) && j < |columns|
    ensures var header := Header(columns, widths);
            var segs := HeaderSegments(columns, widths);
            var s := Start(segs, SEPARATOR, j);
            && s + |segs[j]| <= |header|
            && header[s..s + |segs[j]|] == PadEnd(columns[j].heading, widths[columns[j].key])
            && (HeadingsFit(columns, widths) ==> s == Offset(DrawnWidths(columns, widths), |SEPARATOR|, j))
  {
    var segs := HeaderSegments(columns, widths);
    HeaderSegmentLengths(columns, widths);
    StartIsOffset(segs, SEPARATOR, j);
    JoinSegment(segs, SEPARATOR, j);
  }

  /**
   * The header is never shorter than a data line, and exactly as long if
   * and only if every heading fits its drawn width.
   */
  lemma {:induction false} HeaderAlignment(row: Row, columns: seq<Column>, widths: map<string, nat>)
    requires Covers(columns, widths)
    ensures |Header(columns, widths)| >= |DataLine(row, columns, widths)|
    ensures |Header(columns, widths)| == |DataLine(row, columns, widths)| <==> HeadingsFit(columns, widths)
  {
    var segs := HeaderSegments(columns, widths);
    var hs, ws := Lengths(segs), DrawnWidths(columns, widths);
    HeaderSegmentLengths(columns, widths);
    LineLength(row, columns, widths);
    JoinLength(segs, SEPARATOR);
    LongerSegmentsLongerJoin(hs, ws, |SEPARATOR|);
    if !HeadingsFit(columns, widths) {
      var j :| 0 <= j < |columns| && |columns[j].heading| > widths[columns[j].key];
      assert hs[j] > ws[j];
    }
  }

  /**
   * With distinct keys, every heading fits exactly when none is longer than
   * MAX_WIDTH; then the header and every data line are as long as the sum
   * of the widths plus one separator between each two columns.
   */
  lemma {:induction false} AlignedTable(rows: seq<Row>, columns: seq<Column>)
    requires KeysDistinct(columns)
    ensures HeadingsFit(columns, Widths(columns, rows)) <==> forall j :: 0 <= j < |columns| ==> |columns[j].heading| <= MAX_WIDTH
    ensures (forall j :: 0 <= j < |columns| ==> |columns[j].heading| <= MAX_WIDTH) && columns != [] ==>
              var widths := Widths(columns, rows);
              var total := Sum(DrawnWidths(columns, widths)) + (|columns| - 1) * |SEPARATOR|;
              && |Header(columns, widths)| == total
              && forall i :: 0 <= i < |rows| ==> |DataLine(rows[i], columns, widths)| == total
  {
    var widths := Widths(columns, rows);
    forall j | 0 <= j < |columns|
      ensures widths[columns[j].key] == ColumnWidth(columns[j], rows)
    {
      WidthOfColumn(columns, rows, j);
    }
    if columns != [] {
      JoinedLengthIsSum(DrawnWidths(columns, widths), |SEPARATOR|);
      HeaderAlignment(map[], columns, widths);
      LineLength(map[], columns, widths);
      forall i | 0 <= i < |rows|
        ensures |DataLine(rows[i], columns, widths)| == |DataLine(map[], columns, widths)|
      {
        LineLength(rows[i], columns, widths);
      }
    }
  }

  /**
   * Columns sharing a key share the last one's width: a longer heading
   * earlier then overflows its column and the header is longer than the data.
   */
  lemma SharedKeyMisaligns()
    ensures var columns := [Column("a", "Amount", None), Column("a", "A", None)];
            var row: Row := map["a" := "7"];
            var widths := Widths(columns, [row]);
            widths["a"] == 1 && |Header(columns, widths)| > |DataLine(row, columns, widths)|
  {
    var columns := [Column("a", "Amount", None), Column("a", "A", None)];
    var row: Row := map["a" := "7"];
    var widths := Widths(columns, [row]);
    WidthsLookup(columns, [row], "a");
    assert Rendered(columns[1], row) == "7";
    assert Longest(columns[1], [row]) == 1 by {
      assert [row][..0] == [];
    }
    HeaderAlignment(row, columns, widths);
    assert !HeadingsFit(columns, widths);
  }
}
