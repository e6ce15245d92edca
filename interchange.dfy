/**
 * Spreadsheet interchange of the Electron back end (electron/main.js):
 * export flattens estimates to one worksheet row per line item, and import
 * groups worksheet rows back into estimates.
 *
 * A worksheet is a sequence of rows; row number 1 is the first element. A row
 * is a sequence of cells; column 1 is its first element, and a column past the
 * end of the row reads as an empty cell.
 */
module Interchange {
  import opened Wrappers
  import opened Records
  import opened Cells

  type Row = seq<Cell>

  const IdCol := 1
  const ClientCol := 2
  const ProjectCol := 3
  const DescriptionCol := 4
  const QuantityCol := 5
  const UnitPriceCol := 6
  const AmountCol := 7
  const TotalCol := 8
  const CreatedCol := 9
  const UpdatedCol := 10

  /** `row.values[col]`. */
  function CellAt(r: Row, col: nat): Cell
  {
    if 1 <= col <= |r| then r[col - 1] else Blank
  }

  /** Row 1 of an exported worksheet: the column headers. */
  const Header: Row := [
    Text("ID"), Text("Client Name"), Text("Project Name"), Text("Description"),
    Text("Quantity"), Text("Unit Price"), Text("Amount"), Text("Total Amount"),
    Text("Created At"), Text("Updated At")]

  // ---------------------------------------------------------------- export

  /** The row exported for item `i` of `e`. The estimate's own cells are filled
      on the group's first row only and are '' on the others; `formatDate`
      stands for the locale's date formatting. */
  function ExportRow(e: Estimate, i: nat, formatDate: Timestamp -> string): Row
    requires i < |e.items|
  {
    var item := e.items[i];
    var first := i == 0;
    [ if first then Num(e.id as real) else Text(""),
      if first then Text(e.clientName) else Text(""),
      if first then Text(e.projectName) else Text(""),
      Text(item.description),
      Num(item.quantity),
      Num(item.unitPrice),
      Num(item.amount),
      if first then Num(e.totalAmount) else Text(""),
      if first then Text(formatDate(e.createdAt)) else Text(""),
      if first then Text(formatDate(e.updatedAt)) else Text("") ]
  }

  /** The rows of one estimate: one per item, in item order. */
  function GroupRows(e: Estimate, formatDate: Timestamp -> string): (rows: seq<Row>)
    ensures |rows| == |e.items|
  {
    seq(|e.items|, i requires 0 <= i < |e.items| => ExportRow(e, i, formatDate))
  }

  /** The data rows of an export: the groups of all estimates, in order. */
  function ExportRows(es: seq<Estimate>, formatDate: Timestamp -> string): seq<Row>
  {
    if es == [] then []
    else ExportRows(es[..|es| - 1], formatDate) + GroupRows(es[|es| - 1], formatDate)
  }

  /** The items of all estimates, counted. */
  function ItemCount(es: seq<Estimate>): nat
  {
    if es == [] then 0 else ItemCount(es[..|es| - 1]) + |es[|es| - 1].items|
  }

  /** The worksheet the export writes: the header, then the rows added by the
      nested loops over estimates and their items. */
  method Export(es: seq<Estimate>, formatDate: Timestamp -> string) returns (sheet: seq<Row>)
    ensures sheet == [Header] + ExportRows(es, formatDate)
  {
    sheet := [Header];
    for k := 0 to |es|
      invariant sheet == [Header] + ExportRows(es[..k], formatDate)
    {
      var e := es[k];
      for i := 0 to |e.items|
        invariant sheet == [Header] + ExportRows(es[..k], formatDate) + GroupRows(e, formatDate)[..i]
      {
        sheet := sheet + [ExportRow(e, i, formatDate)];
      }
      assert GroupRows(e, formatDate)[..|e.items|] == GroupRows(e, formatDate);
      assert es[..k + 1][..k] == es[..k];
    }
    assert es[..|es|] == es;
  }

  /** One row per item over all estimates; an estimate without items adds no row. */
  lemma {:induction false} ExportRowCount(es: seq<Estimate>, formatDate: Timestamp -> string)
    ensures |ExportRows(es, formatDate)| == ItemCount(es)
  {
    if es != [] {
      ExportRowCount(es[..|es| - 1], formatDate);
    }
  }

  /** The layout of one estimate's group: the estimate's cells on the first row
      only, the item's cells on every row. */
  lemma GroupLayout(e: Estimate, formatDate: Timestamp -> string, i: nat)
    requires i < |e.items|
    ensures var r := GroupRows(e, formatDate)[i];
      && CellAt(r, DescriptionCol) == Text(e.items[i].description)
      && CellAt(r, QuantityCol) == Num(e.items[i].quantity)
      && CellAt(r, UnitPriceCol) == Num(e.items[i].unitPrice)
      && CellAt(r, AmountCol) == Num(e.items[i].amount)
      && (i == 0 ==>
            && CellAt(r, IdCol) == Num(e.id as real)
            && CellAt(r, ClientCol) == Text(e.clientName)
            && CellAt(r, ProjectCol) == Text(e.projectName)
            && CellAt(r, TotalCol) == Num(e.totalAmount)
            && CellAt(r, CreatedCol) == Text(formatDate(e.createdAt))
            && CellAt(r, UpdatedCol) == Text(formatDate(e.updatedAt)))
      && (i > 0 ==>
            forall col :: col in [IdCol, ClientCol, ProjectCol, TotalCol, CreatedCol, UpdatedCol] ==>
              CellAt(r, col) == Text(""))
  {
    assert GroupRows(e, formatDate)[i] == ExportRow(e, i, formatDate);
    ItemCells(e, formatDate, i);
    SummaryCells(e, formatDate, i);
  }

  /** The item's cells of an exported row. */
  lemma ItemCells(e: Estimate, formatDate: Timestamp -> string, i: nat)
    requires i < |e.items|
    ensures var r := ExportRow(e, i, formatDate);
      && CellAt(r, DescriptionCol) == Text(e.items[i].description)
      && CellAt(r, QuantityCol) == Num(e.items[i].quantity)
      && CellAt(r, UnitPriceCol) == Num(e.items[i].unitPrice)
      && CellAt(r, AmountCol) == Num(e.items[i].amount)
  {
  }

  /** The estimate's cells of an exported row: set on the first row, '' on the others. */
  lemma SummaryCells(e: Estimate, formatDate: Timestamp -> string, i: nat)
    requires i < |e.items|
    ensures var r := ExportRow(e, i, formatDate);
      && (i == 0 ==>
            && CellAt(r, IdCol) == Num(e.id as real)
            && CellAt(r, ClientCol) == Text(e.clientName)
            && CellAt(r, ProjectCol) == Text(e.projectName)
            && CellAt(r, TotalCol) == Num(e.totalAmount)
            && CellAt(r, CreatedCol) == Text(formatDate(e.createdAt))
            && CellAt(r, UpdatedCol) == Text(formatDate(e.updatedAt)))
      && (i > 0 ==>
            && CellAt(r, IdCol) == Text("") && CellAt(r, ClientCol) == Text("")
            && CellAt(r, ProjectCol) == Text("") && CellAt(r, TotalCol) == Text("")
            && CellAt(r, CreatedCol) == Text("") && CellAt(r, UpdatedCol) == Text(""))
  {
  }

  // ---------------------------------------------------------------- import

  /** An imported item. The description is the cell's value as read. */
  datatype ImportedItem = ImportedItem(description: Cell, quantity: real, unitPrice: real, amount: real)

  /** An imported estimate: a new record without id or timestamps; client and
      project are the cells' values as read. */
  datatype ImportedEstimate = ImportedEstimate(
    clientName: Cell,
    projectName: Cell,
    items: seq<ImportedItem>,
    totalAmount: real)

  function ImportedSum(items: seq<ImportedItem>): real
  {
    if items == [] then 0.0 else ImportedSum(items[..|items| - 1]) + items[|items| - 1].amount
  }

  /** A row opens a new estimate when its id, client and project cells are all truthy. */
  predicate Opens(r: Row)
  {
    Truthy(CellAt(r, IdCol)) && Truthy(CellAt(r, ClientCol)) && Truthy(CellAt(r, ProjectCol))
  }

  /** A row carries an item when its description cell is truthy. */
  predicate HasItem(r: Row)
  {
    Truthy(CellAt(r, DescriptionCol))
  }

  function RowItem(r: Row): ImportedItem
  {
    ImportedItem(CellAt(r, DescriptionCol), Coerce(CellAt(r, QuantityCol)),
                 Coerce(CellAt(r, UnitPriceCol)), Coerce(CellAt(r, AmountCol)))
  }

  /** The estimate a row opens, before any item is added. */
  function Opened(r: Row): ImportedEstimate
  {
    ImportedEstimate(CellAt(r, ClientCol), CellAt(r, ProjectCol), [], 0.0)
  }

  /** The state of the scan: the estimates pushed so far and `currentEstimate`. */
  datatype Scan = Scan(done: seq<ImportedEstimate>, current: Option<ImportedEstimate>)

  const Start := Scan([], None)

  /** `done` with the open estimate, if any, pushed. */
  function Flush(s: Scan): seq<ImportedEstimate>
  {
    match s.current
    case None => s.done
    case Some(c) => s.done + [c]
  }

  /** What the row callback does with one row. */
  function Step(s: Scan, r: Row): Scan
  {
    var s' := if Opens(r) then Scan(Flush(s), Some(Opened(r))) else s;
    if s'.current.Some? && HasItem(r) then
      Scan(s'.done, Some(s'.current.value.(items := s'.current.value.items + [RowItem(r)])))
    else s'
  }

  function ScanFrom(s: Scan, rows: seq<Row>): Scan
  {
    if rows == [] then s else Step(ScanFrom(s, rows[..|rows| - 1]), rows[|rows| - 1])
  }

  /** The rows after the header. */
  function DataRows(sheet: seq<Row>): seq<Row>
  {
    if sheet == [] then [] else sheet[1..]
  }

  /** Each estimate with its total recomputed from its items. */
  function WithTotals(es: seq<ImportedEstimate>): (r: seq<ImportedEstimate>)
  {
    seq(|es|, k requires 0 <= k < |es| => es[k].(totalAmount := ImportedSum(es[k].items)))
  }

  /** The estimates the import returns for a worksheet: every total is the sum
      of that estimate's item amounts. */
  function ImportRows(sheet: seq<Row>): (r: seq<ImportedEstimate>)
    ensures forall k :: 0 <= k < |r| ==> r[k].totalAmount == ImportedSum(r[k].items)
  {
    WithTotals(Flush(ScanFrom(Start, DataRows(sheet))))
  }

  /** Scanning one more row is one more step. */
  lemma ScanFromSnoc(rows: seq<Row>, k: nat)
    requires k < |rows|
    ensures ScanFrom(Start, rows[..k + 1]) == Step(ScanFrom(Start, rows[..k]), rows[k])
  {
    assert rows[..k + 1][..k] == rows[..k];
  }

  /** The import: skip the header, scan the rows with a `current` accumulator,
      push the last open estimate, then recompute every total. */
  method Import(sheet: seq<Row>) returns (estimates: seq<ImportedEstimate>)
    ensures estimates == ImportRows(sheet)
  {
    var rows := DataRows(sheet);
    estimates := [];
    var current: Option<ImportedEstimate> := None;
    for k := 0 to |rows|
      invariant Scan(estimates, current) == ScanFrom(Start, rows[..k])
    {
      var row := rows[k];
      ghost var before := Scan(estimates, current);
      if Opens(row) {
        if current.Some? {
          estimates := estimates + [current.value];
        }
        current := Some(Opened(row));
      }
      if current.Some? && HasItem(row) {
        current := Some(current.value.(items := current.value.items + [RowItem(row)]));
      }
      assert Scan(estimates, current) == Step(before, row);
      ScanFromSnoc(rows, k);
    }
    assert rows[..|rows|] == rows;
    if current.Some? {
      estimates := estimates + [current.value];
    }
    ghost var pushed := estimates;
    for j := 0 to |estimates|
      invariant |estimates| == |pushed|
      invariant forall k :: 0 <= k < j ==> estimates[k] == pushed[k].(totalAmount := ImportedSum(pushed[k].items))
      invariant forall k :: j <= k < |estimates| ==> estimates[k] == pushed[k]
    {
      estimates := estimates[j := estimates[j].(totalAmount := ImportedSum(estimates[j].items))];
    }
  }
}
