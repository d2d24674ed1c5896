/**
 * The `list` commands of the five tabular resources: the rows each one
 * projects from a response and the columns it renders them with, and what
 * follows for the lines they log.
 */
module Listing {
  import opened Wrappers
  import opened Text
  import opened Table
  import opened Projection

  datatype Resource = Banks | Currencies | Countries | PaymentMethods | Organizations

  /** The keys each `list` command projects, and the attribute behind each. */
  function Fields(res: Resource): (fields: seq<Field>)
    ensures fields != [] && fields[0] == Field("name", "name")
    ensures FieldKeysDistinct(fields)
    ensures forall f :: 0 <= f < |fields| ==> fields[f].key != ID_KEY
  {
    match res
    case Banks => [Field("name", "name"), Field("code", "code"), Field("country", "country_code")]
    case Currencies =>
      [Field("name", "name"), Field("code", "code"), Field("type", "currency_type"), Field("symbol", "symbol")]
    case Countries => [Field("name", "name"), Field("region", "region"), Field("currency", "currency_code")]
    case PaymentMethods => [Field("name", "name"), Field("category", "category")]
    case Organizations => [Field("name", "name"), Field("type", "organization_type")]
  }

  /** The columns each `list` command passes to the renderer; none has a format. */
  function Columns(res: Resource): (columns: seq<Column>)
    ensures |columns| >= 3 && columns[1] == Column("name", "Name", None)
    ensures KeysDistinct(columns)
    ensures forall j :: 0 <= j < |columns| ==> columns[j].format.None? && |columns[j].heading| <= MAX_WIDTH
  {
    match res
    case Banks =>
      [Column(ID_KEY, "ID", None), Column("name", "Name", None), Column("code", "Code", None),
       Column("country", "Country", None)]
    case Currencies =>
      [Column("code", "Code", None), Column("name", "Name", None), Column("symbol", "Symbol", None),
       Column("type", "Type", None)]
    case Countries =>
      [Column(ID_KEY, "Code", None), Column("name", "Name", None), Column("region", "Region", None),
       Column("currency", "Currency", None)]
    case PaymentMethods => [Column(ID_KEY, "ID", None), Column("name", "Name", None), Column("category", "Category", None)]
    case Organizations => [Column(ID_KEY, "ID", None), Column("name", "Name", None), Column("type", "Type", None)]
  }

  /**
   * What a `list` command logs for a response body whose `data` is `body`
   * (None when the response has none, read as an empty list).
   */
  function ListOutput(res: Resource, body: Option<seq<Record>>): (out: seq<string>)
    ensures body.None? || body.value == [] ==> out == [NO_RESULTS]
    ensures body.Some? && body.value != [] ==> |out| == |body.value| + 3
  {
    Render(Some(ProjectAll(body.GetOr([]), Fields(res))), Columns(res))
  }

  /**
   * The shape every command's columns and fields have: distinct keys, short
   * headings, no format, and every column key either the id or a projected key.
   */
  predicate WellShaped(fields: seq<Field>, columns: seq<Column>)
  {
    && KeysDistinct(columns)
    && FieldKeysDistinct(fields)
    && ID_KEY !in FieldKeys(fields)
    && forall j :: 0 <= j < |columns| ==>
         && columns[j].format.None?
         && |columns[j].heading| <= MAX_WIDTH
         && (columns[j].key == ID_KEY || exists f :: 0 <= f < |fields| && fields[f].key == columns[j].key)
  }

  lemma ResourceShape(res: Resource)
    ensures WellShaped(Fields(res), Columns(res))
  {
    var fields, columns := Fields(res), Columns(res);
    forall j | 0 <= j < |columns| && columns[j].key != ID_KEY
      ensures exists f :: 0 <= f < |fields| && fields[f].key == columns[j].key
    {
      match res
      case Currencies =>
        assert columns[j].key == fields[[1, 0, 3, 2][j]].key;
      case _ =>
        assert columns[j].key == fields[j - 1].key;
    }
    assert ID_KEY !in FieldKeys(fields);
  }

  /** A response without rows, and only such a response, logs the single notice. */
  lemma ListEmpty(res: Resource, body: Option<seq<Record>>)
    ensures (body.None? || body.value == []) <==> ListOutput(res, body) == [NO_RESULTS]
  {
    TableEmpty(Some(ProjectAll(body.GetOr([]), Fields(res))), Columns(res));
  }

  /** A projected column renders the attribute behind its key, or the placeholder. */
  lemma ProjectedValue(records: seq<Record>, fields: seq<Field>, col: Column, i: nat, f: nat)
    requires FieldKeysDistinct(fields) && i < |records| && f < |fields|
    requires col.key == fields[f].key && col.format.None?
    ensures Rendered(col, ProjectAll(records, fields)[i]) == AttributeOr(records[i], fields[f].attribute)
  {
    var row := Project(records[i], fields);
    assert ProjectAll(records, fields)[i] == row;
    ProjectAt(records[i], fields, f);
    assert Lookup(row, col.key) == Some(AttributeOr(records[i], fields[f].attribute));
  }

  /**
   * The cell of a projected column shows the attribute, or the placeholder
   * when it is missing or empty, padded and uncut unless it is longer than
   * MAX_WIDTH; a missing attribute shows as the placeholder, which always
   * fits, so its cell is the placeholder followed by spaces.
   */
  lemma ProjectedCell(records: seq<Record>, fields: seq<Field>, columns: seq<Column>, i: nat, j: nat, f: nat)
    requires KeysDistinct(columns) && FieldKeysDistinct(fields)
    requires i < |records| && j < |columns| && f < |fields|
    requires columns[j].key == fields[f].key && columns[j].format.None?
    ensures var rows := ProjectAll(records, fields);
            var w := Widths(columns, rows)[columns[j].key];
            var v := Rendered(columns[j], rows[i]);
            && v == AttributeOr(records[i], fields[f].attribute)
            && (|v| <= MAX_WIDTH ==> |v| <= w && Cell(v, w) == v + Repeat(' ', w - |v|))
            && (|v| > MAX_WIDTH ==> w == MAX_WIDTH && Cell(v, w) == v[..MAX_WIDTH])
            && (!HasValue(records[i], fields[f].attribute) ==> v == PLACEHOLDER && |PLACEHOLDER| <= w)
  {
    ProjectedValue(records, fields, columns[j], i, f);
    CellContent(ProjectAll(records, fields), columns, i, j);
  }

  /**
   * The cell of the id column shows the record's id, or only spaces when the
   * record has none.
   */
  lemma IdCell(records: seq<Record>, fields: seq<Field>, columns: seq<Column>, i: nat, j: nat)
    requires WellShaped(fields, columns)
    requires i < |records| && j < |columns| && columns[j].key == ID_KEY
    ensures var rows := ProjectAll(records, fields);
            var w := Widths(columns, rows)[ID_KEY];
            && (records[i].id.None? ==> Rendered(columns[j], rows[i]) == "" && Cell("", w) == Repeat(' ', w))
            && (records[i].id.Some? ==> Rendered(columns[j], rows[i]) == records[i].id.value)
  {
    var rows := ProjectAll(records, fields);
    assert rows[i] == Project(records[i], fields);
  }

  /** A listing of some records is the table of their projected rows. */
  lemma ListOutputRows(res: Resource, records: seq<Record>)
    ensures ListOutput(res, Some(records)) == Render(Some(ProjectAll(records, Fields(res))), Columns(res))
  {
  }

  /** Each projected column of a listing renders the attribute behind it, or the placeholder. */
  lemma ListValue(res: Resource, records: seq<Record>, i: nat, j: nat)
    requires i < |records| && j < |Columns(res)|
    ensures var rows := ProjectAll(records, Fields(res));
            forall f :: 0 <= f < |Fields(res)| && Fields(res)[f].key == Columns(res)[j].key ==>
              Rendered(Columns(res)[j], rows[i]) == AttributeOr(records[i], Fields(res)[f].attribute)
  {
    var columns, fields := Columns(res), Fields(res);
    ResourceShape(res);
    forall f | 0 <= f < |fields| && fields[f].key == columns[j].key
      ensures Rendered(columns[j], ProjectAll(records, fields)[i]) == AttributeOr(records[i], fields[f].attribute)
    {
      ProjectedValue(records, fields, columns[j], i, f);
    }
  }

  /**
   * End to end: whatever attributes a record lacks, line `2 + i` of a listing
   * holds, at the offset of column `j`, that column's cell for record `i`;
   * for a projected column that is the attribute or the placeholder.
   */
  lemma ListCell(res: Resource, records: seq<Record>, i: nat, j: nat)
    requires i < |records| && j < |Columns(res)|
    ensures var out := ListOutput(res, Some(records));
            var rows := ProjectAll(records, Fields(res));
            var widths := Widths(Columns(res), rows);
            var ws := DrawnWidths(Columns(res), widths);
            var s := Offset(ws, |SEPARATOR|, j);
            && |out| == |records| + 3
            && s + ws[j] <= |out[2 + i]|
            && out[2 + i][s..s + ws[j]] == Cell(Rendered(Columns(res)[j], rows[i]), ws[j])
            && forall f :: 0 <= f < |Fields(res)| && Fields(res)[f].key == Columns(res)[j].key ==>
                 Rendered(Columns(res)[j], rows[i]) == AttributeOr(records[i], Fields(res)[f].attribute)
  {
    ListOutputRows(res, records);
    TableCell(ProjectAll(records, Fields(res)), Columns(res), i, j);
    ListValue(res, records, i, j);
  }

  /**
   * Every listing is aligned: its header, its rule and each data line have
   * the same length, the sum of the widths plus two per gap between columns.
   */
  lemma ListAligned(res: Resource, records: seq<Record>, i: nat)
    requires i < |records|
    ensures var out := ListOutput(res, Some(records));
            var ws := DrawnWidths(Columns(res), Widths(Columns(res), ProjectAll(records, Fields(res))));
            && |out| == |records| + 3
            && |out[0]| == |out[1]| == |out[2 + i]| == Sum(ws) + (|Columns(res)| - 1) * |SEPARATOR|
  {
    var columns, rows := Columns(res), ProjectAll(records, Fields(res));
    var widths := Widths(columns, rows);
    var total := Sum(DrawnWidths(columns, widths)) + (|columns| - 1) * |SEPARATOR|;
    ResourceShape(res);
    assert forall j :: 0 <= j < |columns| ==> |columns[j].heading| <= MAX_WIDTH;
    AlignedTable(rows, columns);
    assert |Header(columns, widths)| == total;
    assert |DataLine(rows[i], columns, widths)| == total;
    TableLayout(rows, columns);
    RuleAndFooter(rows, columns);
  }
}
