/**
 * A worked listing: the `currencies list` command given a response with the
 * single record of the US dollar.  Each step of `printTable` is pinned down
 * on it, ending with the exact lines it logs.
 */
module UsdExample {
  import opened Wrappers
  import opened Text
  import opened Table
  import opened Projection
  import opened Listing

  const USD: Record :=
    Record(Some("USD"), Some(map["name" := "US Dollar", "code" := "USD", "currency_type" := "fiat", "symbol" := "$"]))

  /** The row the `currencies list` command projects from USD. */
  const USD_ROW: Row := map["id" := "USD", "name" := "US Dollar", "code" := "USD", "type" := "fiat", "symbol" := "$"]

  /** USD projected on the first two fields. */
  lemma UsdProjectedTwo()
    ensures Project(USD, Fields(Currencies)[..2]) == map["id" := "USD", "name" := "US Dollar", "code" := "USD"]
  {
    var fields := Fields(Currencies);
    assert Project(USD, fields[..0]) == map["id" := "USD"];
    assert fields[..2][..1] == fields[..1];
    assert Project(USD, fields[..1]) == map["id" := "USD", "name" := "US Dollar"];
  }

  /** USD projected on the first three fields. */
  lemma UsdProjectedThree()
    ensures Project(USD, Fields(Currencies)[..3])
         == map["id" := "USD", "name" := "US Dollar", "code" := "USD", "type" := "fiat"]
  {
    var fields := Fields(Currencies);
    UsdProjectedTwo();
    assert fields[..3][..2] == fields[..2];
  }

  lemma UsdProjectedFour()
    ensures Project(USD, Fields(Currencies)) == USD_ROW
  {
    var fields := Fields(Currencies);
    UsdProjectedThree();
    assert fields[..3] == fields[..|fields| - 1];
  }

  lemma UsdProjected()
    ensures ProjectAll([USD], Fields(Currencies)) == [USD_ROW]
  {
    UsdProjectedFour();
  }

  /** Code, Name, Symbol and Type are 4, 9, 6 and 4 wide: the name is the only value longer than its heading. */
  lemma UsdWidths()
    ensures DrawnWidths(Columns(Currencies), Widths(Columns(Currencies), [USD_ROW])) == [4, 9, 6, 4]
  {
    var columns, rows := Columns(Currencies), [USD_ROW];
    assert Rendered(columns[0], USD_ROW) == "USD";
    assert Rendered(columns[1], USD_ROW) == "US Dollar";
    assert Rendered(columns[2], USD_ROW) == "$";
    assert Rendered(columns[3], USD_ROW) == "fiat";
    forall c | 0 <= c < 4
      ensures Longest(columns[c], rows) == Max(|columns[c].heading|, |Rendered(columns[c], USD_ROW)|)
    {
      assert rows[..0] == [];
    }
    assert KeysDistinct(columns);
    WidthOfColumn(columns, rows, 0);
    WidthOfColumn(columns, rows, 1);
    WidthOfColumn(columns, rows, 2);
    WidthOfColumn(columns, rows, 3);
  }

  /** Four parts joined. */
  lemma Join4(a: string, b: string, c: string, d: string, sep: string)
    ensures Join([a, b, c, d], sep) == a + sep + b + sep + c + sep + d
  {
    var parts := [a, b, c, d];
    assert Join(parts[3..], sep) == d by {
      assert parts[3..] == [d];
    }
    assert Join(parts[2..], sep) == c + sep + d by {
      assert parts[2..][1..] == parts[3..];
    }
    assert Join(parts[1..], sep) == b + sep + c + sep + d by {
      assert parts[1..][1..] == parts[2..];
    }
  }

  lemma HeaderText()
    ensures "Code" + SEPARATOR + "Name     " + SEPARATOR + "Symbol" + SEPARATOR + "Type" == "Code  Name       Symbol  Type"
  {
  }

  lemma LineText()
    ensures "USD " + SEPARATOR + "US Dollar" + SEPARATOR + "$     " + SEPARATOR + "fiat" == "USD   US Dollar  $       fiat"
  {
  }

  lemma UsdHeaderSegments(widths: map<string, nat>)
    requires Covers(Columns(Currencies), widths) && DrawnWidths(Columns(Currencies), widths) == [4, 9, 6, 4]
    ensures HeaderSegments(Columns(Currencies), widths) == ["Code", "Name     ", "Symbol", "Type"]
  {
    var segs := HeaderSegments(Columns(Currencies), widths);
    assert segs[0] == PadEnd("Code", 4) == "Code";
    assert segs[1] == PadEnd("Name", 9) == "Name     " by {
      assert Repeat(' ', 5) == "     ";
    }
    assert segs[2] == PadEnd("Symbol", 6) == "Symbol";
    assert segs[3] == PadEnd("Type", 4) == "Type";
  }

  lemma UsdHeader(widths: map<string, nat>)
    requires Covers(Columns(Currencies), widths) && DrawnWidths(Columns(Currencies), widths) == [4, 9, 6, 4]
    ensures Header(Columns(Currencies), widths) == "Code  Name       Symbol  Type"
  {
    UsdHeaderSegments(widths);
    Join4("Code", "Name     ", "Symbol", "Type", SEPARATOR);
    HeaderText();
  }

  lemma UsdCells(widths: map<string, nat>)
    requires Covers(Columns(Currencies), widths) && DrawnWidths(Columns(Currencies), widths) == [4, 9, 6, 4]
    ensures Cells(USD_ROW, Columns(Currencies), widths) == ["USD ", "US Dollar", "$     ", "fiat"]
  {
    var cells := Cells(USD_ROW, Columns(Currencies), widths);
    assert cells[0] == Cell("USD", 4) == "USD ";
    assert cells[1] == Cell("US Dollar", 9) == "US Dollar";
    assert cells[2] == Cell("$", 6) == "$     " by {
      assert Repeat(' ', 5) == "     ";
    }
    assert cells[3] == Cell("fiat", 4) == "fiat";
  }

  lemma UsdLine(widths: map<string, nat>)
    requires Covers(Columns(Currencies), widths) && DrawnWidths(Columns(Currencies), widths) == [4, 9, 6, 4]
    ensures DataLine(USD_ROW, Columns(Currencies), widths) == "USD   US Dollar  $       fiat"
  {
    UsdCells(widths);
    Join4("USD ", "US Dollar", "$     ", "fiat", SEPARATOR);
    LineText();
  }

  lemma UsdFooter()
    ensures Footer(1) == "\n1 result(s)"
  {
    assert Decimal(1) == "1";
  }

  /** The table of the projected row. */
  lemma UsdTable()
    ensures Render(Some([USD_ROW]), Columns(Currencies))
         == ["Code  Name       Symbol  Type", Repeat(RULE_CHAR, 29), "USD   US Dollar  $       fiat", "\n1 result(s)"]
  {
    var columns, rows := Columns(Currencies), [USD_ROW];
    var widths := Widths(columns, rows);
    UsdWidths();
    UsdHeader(widths);
    UsdLine(widths);
    UsdFooter();
    assert DataLines(rows, columns, widths) == ["USD   US Dollar  $       fiat"];
  }

  /**
   * The lines logged for the US dollar: the header, a rule as long as it,
   * the one data line, and the count.
   */
  lemma UsdListing()
    ensures ListOutput(Currencies, Some([USD]))
         == ["Code  Name       Symbol  Type", Repeat(RULE_CHAR, 29), "USD   US Dollar  $       fiat", "\n1 result(s)"]
  {
    ListOutputRows(Currencies, [USD]);
    UsdProjected();
    UsdTable();
  }
}
