/**
 * What the import's row grouping amounts to, and the round trip of export
 * followed by import (electron/main.js).
 *
 * The data rows of a worksheet split, in exactly one way, into a prefix in which no row
 * opens an estimate, followed by groups, each an opening row and the
 * non-opening rows after it. The import returns one estimate per group, in
 * order, holding the items of that group's rows with a truthy description;
 * the prefix is dropped.
 */
module RoundTrip {
  import opened Wrappers
  import opened Records
  import opened Cells
  import opened Interchange

  predicate NoneOpen(rows: seq<Row>)
  {
    forall i :: 0 <= i < |rows| ==> !Opens(rows[i])
  }

  /** An opening row followed by rows that do not open. */
  predicate IsGroup(g: seq<Row>)
  {
    |g| > 0 && Opens(g[0]) && NoneOpen(g[1..])
  }

  function Concat(gs: seq<seq<Row>>): seq<Row>
  {
    if gs == [] then [] else Concat(gs[..|gs| - 1]) + gs[|gs| - 1]
  }

  /** The items of the rows with a truthy description, in row order. */
  function ItemsIn(rows: seq<Row>): seq<ImportedItem>
  {
    if rows == [] then []
    else ItemsIn(rows[..|rows| - 1]) + (if HasItem(rows[|rows| - 1]) then [RowItem(rows[|rows| - 1])] else [])
  }

  /** The estimate a group stands for while it is still open. */
  function OpenGroup(g: seq<Row>): ImportedEstimate
  {
    Opened(if g == [] then [] else g[0]).(items := ItemsIn(g))
  }

  /** The estimate the import returns for a group. */
  function GroupOf(g: seq<Row>): ImportedEstimate
  {
    OpenGroup(g).(totalAmount := ImportedSum(ItemsIn(g)))
  }

  lemma {:induction false} ScanAppend(s: Scan, a: seq<Row>, b: seq<Row>)
    ensures ScanFrom(s, a + b) == ScanFrom(ScanFrom(s, a), b)
  {
    if b == [] {
      assert a + b == a;
    } else {
      assert (a + b)[..|a + b| - 1] == a + b[..|b| - 1];
      ScanAppend(s, a, b[..|b| - 1]);
    }
  }

  lemma {:induction false} ItemsInAppend(a: seq<Row>, b: seq<Row>)
    ensures ItemsIn(a + b) == ItemsIn(a) + ItemsIn(b)
  {
    if b == [] {
      assert a + b == a;
    } else {
      assert (a + b)[..|a + b| - 1] == a + b[..|b| - 1];
      ItemsInAppend(a, b[..|b| - 1]);
    }
  }

  /** Rows that open nothing only add their items to the open estimate; with
      no estimate open they are dropped. */
  lemma {:induction false} ScanNoneOpen(s: Scan, rows: seq<Row>)
    requires NoneOpen(rows)
    ensures ScanFrom(s, rows) ==
      match s.current
      case None => s
      case Some(c) => Scan(s.done, Some(c.(items := c.items + ItemsIn(rows))))
  {
    if rows != [] {
      var init, r := rows[..|rows| - 1], rows[|rows| - 1];
      assert NoneOpen(init);
      ScanNoneOpen(s, init);
      assert !Opens(r);
      var extra := if HasItem(r) then [RowItem(r)] else [];
      assert ItemsIn(rows) == ItemsIn(init) + extra;
      assert ScanFrom(s, rows) == Step(ScanFrom(s, init), r);
      if s.current.Some? {
        var c := s.current.value;
        var c' := c.(items := c.items + ItemsIn(init));
        assert ScanFrom(s, init) == Scan(s.done, Some(c'));
        if HasItem(r) {
          assert c'.items + extra == c.items + ItemsIn(rows);
        } else {
          assert c'.items == c.items + ItemsIn(rows);
        }
      }
    } else if s.current.Some? {
      var c := s.current.value;
      assert c.items + ItemsIn(rows) == c.items;
      assert c.(items := c.items) == c;
    }
  }

  /** A group pushes the estimate open before it and leaves its own open. */
  lemma ScanGroup(s: Scan, g: seq<Row>)
    requires IsGroup(g)
    ensures ScanFrom(s, g) == Scan(Flush(s), Some(OpenGroup(g)))
  {
    var head, rest := [g[0]], g[1..];
    assert g == head + rest;
    ScanAppend(s, head, rest);
    assert head[..0] == [];
    assert ItemsIn(head) == (if HasItem(g[0]) then [RowItem(g[0])] else []);
    assert ScanFrom(s, head) == Scan(Flush(s), Some(Opened(g[0]).(items := ItemsIn(head))));
    ScanNoneOpen(ScanFrom(s, head), rest);
    ItemsInAppend(head, rest);
  }

  function OpenGroups(gs: seq<seq<Row>>): seq<ImportedEstimate>
  {
    seq(|gs|, k requires 0 <= k < |gs| => OpenGroup(gs[k]))
  }

  lemma {:induction false} ScanGroups(pre: seq<Row>, gs: seq<seq<Row>>)
    requires NoneOpen(pre)
    requires forall k :: 0 <= k < |gs| ==> IsGroup(gs[k])
    ensures Flush(ScanFrom(Start, pre + Concat(gs))) == OpenGroups(gs)
  {
    if gs == [] {
      assert pre + Concat(gs) == pre;
      ScanNoneOpen(Start, pre);
    } else {
      var init, g := gs[..|gs| - 1], gs[|gs| - 1];
      assert pre + Concat(gs) == (pre + Concat(init)) + g;
      ScanGroups(pre, init);
      ScanAppend(Start, pre + Concat(init), g);
      ScanGroup(ScanFrom(Start, pre + Concat(init)), g);
      assert OpenGroups(gs) == OpenGroups(init) + [OpenGroup(g)];
    }
  }

  /** For a worksheet laid out as header, prefix and groups, the import returns
      one estimate per group, in order, and drops the prefix. */
  lemma ImportGroups(header: Row, pre: seq<Row>, gs: seq<seq<Row>>)
    requires NoneOpen(pre)
    requires forall k :: 0 <= k < |gs| ==> IsGroup(gs[k])
    ensures ImportRows([header] + (pre + Concat(gs))) == seq(|gs|, k requires 0 <= k < |gs| => GroupOf(gs[k]))
  {
    var rows := pre + Concat(gs);
    var sheet := [header] + rows;
    assert DataRows(sheet) == rows by { assert sheet[1..] == rows; }
    ScanGroups(pre, gs);
    assert Flush(ScanFrom(Start, rows)) == OpenGroups(gs);
    TotalsOfOpenGroups(gs);
    assert ImportRows(sheet) == WithTotals(Flush(ScanFrom(Start, rows)));
  }

  lemma TotalsOfOpenGroups(gs: seq<seq<Row>>)
    ensures WithTotals(OpenGroups(gs)) == seq(|gs|, k requires 0 <= k < |gs| => GroupOf(gs[k]))
  {
  }

  /** Rows before the first opening row are dropped, items and all. */
  lemma DroppedBeforeFirstGroup(header: Row, pre: seq<Row>, rest: seq<Row>)
    requires NoneOpen(pre)
    ensures ImportRows([header] + pre + rest) == ImportRows([header] + rest)
  {
    assert DataRows([header] + pre + rest) == pre + rest;
    assert DataRows([header] + rest) == rest;
    ScanAppend(Start, pre, rest);
    ScanNoneOpen(Start, pre);
  }

  // ------------------------------------------------- every worksheet splits

  datatype Segmentation = Segmentation(pre: seq<Row>, groups: seq<seq<Row>>)

  /** `sp` splits `rows` into a non-opening prefix and groups. */
  predicate Segments(sp: Segmentation, rows: seq<Row>)
  {
    && sp.pre + Concat(sp.groups) == rows
    && NoneOpen(sp.pre)
    && forall k :: 0 <= k < |sp.groups| ==> IsGroup(sp.groups[k])
  }

  /** Splits rows at the rows that open an estimate. */
  function Split(rows: seq<Row>): (sp: Segmentation)
    ensures sp.pre + Concat(sp.groups) == rows
    ensures NoneOpen(sp.pre)
    ensures forall k :: 0 <= k < |sp.groups| ==> IsGroup(sp.groups[k])
  {
    if rows == [] then Segmentation([], [])
    else
      var init, r := rows[..|rows| - 1], rows[|rows| - 1];
      var sp := Split(init);
      assert rows == init + [r];
      assert Segments(sp, init);
      var sp' := Extend(sp, r);
      ExtendSegments(sp, init, r);
      assert Segments(sp', rows);
      sp'
  }

  /** The split of `rows + [r]` from a split of `rows`: an opening row starts
      a new group; any other row joins the last group, or the prefix when
      there is no group yet. */
  function Extend(sp: Segmentation, r: Row): Segmentation
  {
    if Opens(r) then Segmentation(sp.pre, sp.groups + [[r]])
    else if sp.groups == [] then Segmentation(sp.pre + [r], [])
    else
      var n := |sp.groups|;
      Segmentation(sp.pre, sp.groups[..n - 1] + [sp.groups[n - 1] + [r]])
  }

  lemma ExtendSegments(sp: Segmentation, rows: seq<Row>, r: Row)
    requires Segments(sp, rows)
    ensures Segments(Extend(sp, r), rows + [r])
  {
    var gs := Extend(sp, r).groups;
    if Opens(r) {
      assert gs[..|gs| - 1] == sp.groups;
      assert [r][1..] == [];
    } else if sp.groups == [] {
      assert Concat(gs) == [];
    } else {
      ExtendLastGroup(sp.groups, r);
    }
  }

  lemma ExtendLastGroup(groups: seq<seq<Row>>, r: Row)
    requires |groups| > 0 && !Opens(r)
    requires forall k :: 0 <= k < |groups| ==> IsGroup(groups[k])
    ensures var n := |groups|;
      var gs := groups[..n - 1] + [groups[n - 1] + [r]];
      && Concat(gs) == Concat(groups) + [r]
      && forall k :: 0 <= k < |gs| ==> IsGroup(gs[k])
  {
    var n := |groups|;
    var last := groups[n - 1] + [r];
    var gs := groups[..n - 1] + [last];
    assert gs[..n - 1] == groups[..n - 1];
    assert groups[..n - 1] == groups[..|groups| - 1];
    assert Concat(groups) == Concat(groups[..n - 1]) + groups[n - 1];
    assert last[1..] == groups[n - 1][1..] + [r];
    assert IsGroup(last);
  }

  /** Rows none of which opens an estimate split into a prefix alone. */
  lemma {:induction false} SplitNoneOpen(rows: seq<Row>)
    requires NoneOpen(rows)
    ensures Split(rows) == Segmentation(rows, [])
  {
    if rows != [] {
      var init := rows[..|rows| - 1];
      assert NoneOpen(init) by {
        forall i | 0 <= i < |init| ensures !Opens(init[i]) { assert init[i] == rows[i]; }
      }
      SplitNoneOpen(init);
      assert init + [rows[|rows| - 1]] == rows;
    }
  }

  /** The split is the only one: every segmentation of the rows is `Split`'s. */
  lemma {:induction false} SplitUnique(sp: Segmentation, rows: seq<Row>)
    requires Segments(sp, rows)
    ensures Split(rows) == sp
    decreases |rows|
  {
    if sp.groups == [] {
      assert sp.pre == rows;
      SplitNoneOpen(rows);
    } else {
      var n := |sp.groups|;
      assert Concat(sp.groups) == Concat(sp.groups[..n - 1]) + sp.groups[n - 1];
      var init, r := rows[..|rows| - 1], rows[|rows| - 1];
      assert rows == init + [r];
      var sp' := Shrink(sp, init, r);
      SplitUnique(sp', init);
    }
  }

  /** A segmentation of `init + [r]` with a group is `Extend` of one of `init`. */
  lemma Shrink(sp: Segmentation, init: seq<Row>, r: Row) returns (sp': Segmentation)
    requires Segments(sp, init + [r]) && sp.groups != []
    ensures Segments(sp', init) && Extend(sp', r) == sp
  {
    var n := |sp.groups|;
    var g, front := sp.groups[n - 1], sp.groups[..n - 1];
    assert Concat(sp.groups) == Concat(front) + g;
    Unsnoc(init, r, sp.pre + Concat(front), g);
    if |g| == 1 {
      sp' := Segmentation(sp.pre, front);
      assert g == [r];
      assert sp.groups == front + [[r]];
    } else {
      sp' := ShrinkGroup(sp, init, r);
    }
  }

  lemma Unsnoc(x: seq<Row>, r: Row, y: seq<Row>, g: seq<Row>)
    requires x + [r] == y + g && |g| > 0
    ensures g[|g| - 1] == r && x == y + g[..|g| - 1]
  {
    assert (x + [r])[..|x|] == x;
    assert (y + g)[..|x|] == y + g[..|g| - 1];
    assert (y + g)[|x|] == g[|g| - 1];
  }

  /** The case of `Shrink` whose last group has more rows than the last one. */
  lemma ShrinkGroup(sp: Segmentation, init: seq<Row>, r: Row) returns (sp': Segmentation)
    requires Segments(sp, init + [r]) && sp.groups != []
    requires |sp.groups[|sp.groups| - 1]| > 1
    ensures Segments(sp', init) && Extend(sp', r) == sp
  {
    var n := |sp.groups|;
    var g, front := sp.groups[n - 1], sp.groups[..n - 1];
    assert Concat(sp.groups) == Concat(front) + g;
    Unsnoc(init, r, sp.pre + Concat(front), g);
    var g' := g[..|g| - 1];
    assert g == g' + [r];
    assert !Opens(r) by { assert g[1..][|g| - 2] == r; }
    assert IsGroup(g') by {
      forall i | 0 <= i < |g'| - 1 ensures !Opens(g'[1..][i]) { assert g'[1..][i] == g[1..][i]; }
    }
    var gs' := front + [g'];
    assert gs'[..n - 1] == front;
    sp' := Segmentation(sp.pre, gs');
    assert sp.groups == gs'[..n - 1] + [gs'[n - 1] + [r]];
  }

  /** The import of any worksheet: one estimate per group of its data rows. */
  lemma ImportAnySheet(sheet: seq<Row>)
    ensures var gs := Split(DataRows(sheet)).groups;
      ImportRows(sheet) == seq(|gs|, k requires 0 <= k < |gs| => GroupOf(gs[k]))
  {
    if sheet != [] {
      var sp := Split(DataRows(sheet));
      assert sheet == [sheet[0]] + sp.pre + Concat(sp.groups);
      ImportGroups(sheet[0], sp.pre, sp.groups);
    }
  }

  // ------------------------------------------------------------ round trip

  /** What the round trip needs of an estimate: at least one item, a truthy
      id, non-empty names and non-empty item descriptions. */
  predicate Exportable(e: Estimate)
  {
    && |e.items| > 0
    && e.id != 0
    && e.clientName != ""
    && e.projectName != ""
    && Described(e)
  }

  function ReimportedItem(x: Item): ImportedItem
  {
    ImportedItem(Text(x.description), x.quantity, x.unitPrice, x.amount)
  }

  function ReimportedItems(items: seq<Item>): seq<ImportedItem>
  {
    seq(|items|, i requires 0 <= i < |items| => ReimportedItem(items[i]))
  }

  /** What importing an exported estimate gives back: its names, its items in
      order, and the sum of their amounts as total. */
  function Reimported(e: Estimate): ImportedEstimate
  {
    ImportedEstimate(Text(e.clientName), Text(e.projectName), ReimportedItems(e.items), AmountSum(e.items))
  }

  /** A row whose item cells hold an item's fields as text and numbers
      imports that item, and carries it exactly when its description is non-empty. */
  lemma RowOfItem(r: Row, x: Item)
    requires CellAt(r, DescriptionCol) == Text(x.description)
    requires CellAt(r, QuantityCol) == Num(x.quantity)
    requires CellAt(r, UnitPriceCol) == Num(x.unitPrice)
    requires CellAt(r, AmountCol) == Num(x.amount)
    ensures RowItem(r) == ReimportedItem(x)
    ensures HasItem(r) <==> x.description != ""
  {
  }

  /** An exported row carries an item exactly when the item has a description,
      and that item reads back unchanged. */
  lemma ExportedItemRow(e: Estimate, formatDate: Timestamp -> string, i: nat)
    requires i < |e.items|
    ensures HasItem(GroupRows(e, formatDate)[i]) <==> e.items[i].description != ""
    ensures RowItem(GroupRows(e, formatDate)[i]) == ReimportedItem(e.items[i])
  {
    var r := GroupRows(e, formatDate)[i];
    assert r == ExportRow(e, i, formatDate);
    ItemCells(e, formatDate, i);
    RowOfItem(r, e.items[i]);
  }

  /** An exported row opens an estimate exactly when it is the first row of
      its group and the id, client and project are truthy. */
  lemma ExportedRowOpens(e: Estimate, formatDate: Timestamp -> string, i: nat)
    requires i < |e.items|
    ensures Opens(GroupRows(e, formatDate)[i]) <==>
      i == 0 && e.id != 0 && e.clientName != "" && e.projectName != ""
  {
    assert GroupRows(e, formatDate)[i] == ExportRow(e, i, formatDate);
    SummaryCells(e, formatDate, i);
  }

  /** Each row carries the matching item. */
  predicate Carries(rows: seq<Row>, items: seq<Item>)
  {
    |rows| == |items| &&
    forall i :: 0 <= i < |rows| ==> HasItem(rows[i]) && RowItem(rows[i]) == ReimportedItem(items[i])
  }

  lemma CarriesPrefix(rows: seq<Row>, items: seq<Item>, n: nat)
    requires Carries(rows, items) && n <= |rows|
    ensures Carries(rows[..n], items[..n])
  {
  }

  /** Rows that each carry the matching item import as those items, in order. */
  lemma {:induction false} ItemsOfRows(rows: seq<Row>, items: seq<Item>)
    requires Carries(rows, items)
    ensures ItemsIn(rows) == ReimportedItems(items)
  {
    if rows != [] {
      var n := |rows| - 1;
      CarriesPrefix(rows, items, n);
      ItemsOfRows(rows[..n], items[..n]);
      ReimportedSnoc(items);
    }
  }

  lemma ReimportedSnoc(items: seq<Item>)
    requires items != []
    ensures ReimportedItems(items) == ReimportedItems(items[..|items| - 1]) + [ReimportedItem(items[|items| - 1])]
  {
  }


  lemma {:induction false} ReimportedSum(items: seq<Item>)
    ensures ImportedSum(ReimportedItems(items)) == AmountSum(items)
  {
    if items != [] {
      var init := items[..|items| - 1];
      assert ReimportedItems(items)[..|items| - 1] == ReimportedItems(init);
      ReimportedSum(init);
    }
  }

  /** An exportable estimate's rows form one group that imports as Reimported(e). */
  lemma ExportedGroup(e: Estimate, formatDate: Timestamp -> string)
    requires Exportable(e)
    ensures IsGroup(GroupRows(e, formatDate))
    ensures GroupOf(GroupRows(e, formatDate)) == Reimported(e)
  {
    var rows := GroupRows(e, formatDate);
    var its := ItemsIn(rows);
    ExportedIsGroup(e, formatDate);
    GroupItems(e, formatDate);
    ReimportedSum(e.items);
    ExportedOpened(e, formatDate);
    assert GroupOf(rows) == ImportedEstimate(Text(e.clientName), Text(e.projectName), its, ImportedSum(its));
  }

  /** The first row of an estimate's group opens an estimate with its names. */
  lemma ExportedOpened(e: Estimate, formatDate: Timestamp -> string)
    requires |e.items| > 0
    ensures Opened(GroupRows(e, formatDate)[0]) == ImportedEstimate(Text(e.clientName), Text(e.projectName), [], 0.0)
  {
    assert GroupRows(e, formatDate)[0] == ExportRow(e, 0, formatDate);
    SummaryCells(e, formatDate, 0);
  }

  lemma ExportedIsGroup(e: Estimate, formatDate: Timestamp -> string)
    requires Exportable(e)
    ensures IsGroup(GroupRows(e, formatDate))
  {
    var rows := GroupRows(e, formatDate);
    ExportedRowOpens(e, formatDate, 0);
    forall i | 0 <= i < |rows[1..]|
      ensures !Opens(rows[1..][i])
    {
      assert rows[1..][i] == rows[i + 1];
      ExportedRowOpens(e, formatDate, i + 1);
    }
  }

  lemma {:induction false} ExportRowsAreGroups(es: seq<Estimate>, formatDate: Timestamp -> string)
    ensures ExportRows(es, formatDate) == Concat(seq(|es|, k requires 0 <= k < |es| => GroupRows(es[k], formatDate)))
  {
    if es != [] {
      var gs := seq(|es|, k requires 0 <= k < |es| => GroupRows(es[k], formatDate));
      var init := es[..|es| - 1];
      assert gs[..|gs| - 1] == seq(|init|, k requires 0 <= k < |init| => GroupRows(init[k], formatDate));
      ExportRowsAreGroups(init, formatDate);
    }
  }

  lemma ExportedGroupsImport(es: seq<Estimate>, formatDate: Timestamp -> string, gs: seq<seq<Row>>)
    requires forall k :: 0 <= k < |es| ==> Exportable(es[k])
    requires gs == seq(|es|, k requires 0 <= k < |es| => GroupRows(es[k], formatDate))
    ensures ImportRows([Header] + ([] + Concat(gs))) == seq(|es|, k requires 0 <= k < |es| => Reimported(es[k]))
  {
    forall k | 0 <= k < |gs|
      ensures IsGroup(gs[k]) && GroupOf(gs[k]) == Reimported(es[k])
    {
      ExportedGroup(es[k], formatDate);
    }
    ImportGroups(Header, [], gs);
  }

  /** Importing the export of estimates that satisfy Exportable gives back as
      many estimates, in the same order, each with its client and project
      names and its items (description, quantity, unit price, amount) in order,
      and its total recomputed as the sum of the item amounts. */
  lemma RoundTripExport(es: seq<Estimate>, formatDate: Timestamp -> string)
    requires forall k :: 0 <= k < |es| ==> Exportable(es[k])
    ensures ImportRows([Header] + ExportRows(es, formatDate)) ==
      seq(|es|, k requires 0 <= k < |es| => Reimported(es[k]))
  {
    var gs := seq(|es|, k requires 0 <= k < |es| => GroupRows(es[k], formatDate));
    ExportRowsAreGroups(es, formatDate);
    assert ExportRows(es, formatDate) == [] + Concat(gs);
    ExportedGroupsImport(es, formatDate, gs);
  }

  /** The descriptions of an estimate's items are all non-empty. */
  predicate Described(e: Estimate)
  {
    forall i :: 0 <= i < |e.items| ==> e.items[i].description != ""
  }

  /** Why the round trip needs a client name: the rows of an estimate whose
      client name is empty open nothing, so its items are imported into the
      estimate exported before it. */
  lemma UnnamedClientMerges(e1: Estimate, e2: Estimate, formatDate: Timestamp -> string)
    requires Exportable(e1) && Described(e2) && e2.clientName == ""
    ensures ImportRows([Header] + ExportRows([e1, e2], formatDate)) ==
      [ImportedEstimate(Text(e1.clientName), Text(e1.projectName),
         ReimportedItems(e1.items + e2.items), AmountSum(e1.items + e2.items))]
  {
    ExportPair(e1, e2, formatDate);
    MergedIsGroup(e1, e2, formatDate);
    MergedGroup(e1, e2, formatDate);
    SingleGroup(Header, GroupRows(e1, formatDate) + GroupRows(e2, formatDate));
  }

  /** A worksheet whose data rows form one group imports as that group's estimate. */
  lemma SingleGroup(header: Row, g: seq<Row>)
    requires IsGroup(g)
    ensures ImportRows([header] + g) == [GroupOf(g)]
  {
    var gs := [g];
    assert Concat(gs) == g by { assert gs[..0] == []; }
    ImportGroups(header, [], gs);
    assert [header] + ([] + Concat(gs)) == [header] + g;
  }

  lemma MergedGroup(e1: Estimate, e2: Estimate, formatDate: Timestamp -> string)
    requires Exportable(e1) && Described(e2)
    ensures GroupOf(GroupRows(e1, formatDate) + GroupRows(e2, formatDate)) ==
      ImportedEstimate(Text(e1.clientName), Text(e1.projectName),
        ReimportedItems(e1.items + e2.items), AmountSum(e1.items + e2.items))
  {
    var g := GroupRows(e1, formatDate) + GroupRows(e2, formatDate);
    var all := e1.items + e2.items;
    assert g[0] == ExportRow(e1, 0, formatDate);
    assert Opened(g[0]) == ImportedEstimate(Text(e1.clientName), Text(e1.projectName), [], 0.0);
    MergedItems(e1, e2, formatDate);
    ReimportedSum(all);
    assert ImportedSum(ItemsIn(g)) == AmountSum(all);
  }

  lemma ExportPair(e1: Estimate, e2: Estimate, formatDate: Timestamp -> string)
    ensures ExportRows([e1, e2], formatDate) == GroupRows(e1, formatDate) + GroupRows(e2, formatDate)
  {
    assert [e1, e2][..1] == [e1] && [e1][..0] == [];
    assert ExportRows([e1], formatDate) == GroupRows(e1, formatDate) by { assert ExportRows([], formatDate) == []; }
  }

  lemma MergedIsGroup(e1: Estimate, e2: Estimate, formatDate: Timestamp -> string)
    requires Exportable(e1) && e2.clientName == ""
    ensures IsGroup(GroupRows(e1, formatDate) + GroupRows(e2, formatDate))
  {
    var g1, g2 := GroupRows(e1, formatDate), GroupRows(e2, formatDate);
    var g := g1 + g2;
    ExportedGroup(e1, formatDate);
    forall i | 0 <= i < |g[1..]|
      ensures !Opens(g[1..][i])
    {
      if i + 1 < |g1| {
        assert g[1..][i] == g1[i + 1];
        ExportedRowOpens(e1, formatDate, i + 1);
      } else {
        var j := i + 1 - |g1|;
        assert g[1..][i] == g2[j];
        ExportedRowOpens(e2, formatDate, j);
      }
    }
  }

  lemma MergedItems(e1: Estimate, e2: Estimate, formatDate: Timestamp -> string)
    requires Described(e1) && Described(e2)
    ensures ItemsIn(GroupRows(e1, formatDate) + GroupRows(e2, formatDate)) == ReimportedItems(e1.items + e2.items)
  {
    var g1, g2 := GroupRows(e1, formatDate), GroupRows(e2, formatDate);
    ItemsInAppend(g1, g2);
    GroupItems(e1, formatDate);
    GroupItems(e2, formatDate);
    ReimportedAppend(e1.items, e2.items);
  }

  /** The item cells of an estimate's rows read back as its items, in order. */
  lemma GroupItems(e: Estimate, formatDate: Timestamp -> string)
    requires Described(e)
    ensures ItemsIn(GroupRows(e, formatDate)) == ReimportedItems(e.items)
  {
    var g := GroupRows(e, formatDate);
    forall i | 0 <= i < |g|
      ensures HasItem(g[i]) && RowItem(g[i]) == ReimportedItem(e.items[i])
    {
      ExportedItemRow(e, formatDate, i);
    }
    ItemsOfRows(g, e.items);
  }


  lemma ReimportedAppend(a: seq<Item>, b: seq<Item>)
    ensures ReimportedItems(a + b) == ReimportedItems(a) + ReimportedItems(b)
  {
  }

  const ExampleRow1: Row := [Num(1.0), Text("A"), Text("P"), Text("X"), Num(2.0), Num(3.0), Num(6.0)]
  const ExampleRow2: Row := [Text(""), Text(""), Text(""), Text("Y"), Num(1.0), Num(5.0), Num(5.0)]
  const ExampleRow3: Row := [Num(2.0), Text("B"), Text("Q"), Text("Z"), Num(1.0), Num(1.0), Num(1.0)]

  lemma ExampleGroups()
    ensures IsGroup([ExampleRow1, ExampleRow2]) && IsGroup([ExampleRow3])
    ensures ItemsIn([ExampleRow1, ExampleRow2]) ==
      [ImportedItem(Text("X"), 2.0, 3.0, 6.0), ImportedItem(Text("Y"), 1.0, 5.0, 5.0)]
    ensures ItemsIn([ExampleRow3]) == [ImportedItem(Text("Z"), 1.0, 1.0, 1.0)]
  {
    var g1 := [ExampleRow1, ExampleRow2];
    assert Opens(ExampleRow1) && !Opens(ExampleRow2) && Opens(ExampleRow3);
    assert g1[1..] == [ExampleRow2];
    assert RowItem(ExampleRow1) == ImportedItem(Text("X"), 2.0, 3.0, 6.0);
    assert RowItem(ExampleRow2) == ImportedItem(Text("Y"), 1.0, 5.0, 5.0);
    assert RowItem(ExampleRow3) == ImportedItem(Text("Z"), 1.0, 1.0, 1.0);
    assert g1[..1] == [ExampleRow1];
    assert ItemsIn([ExampleRow1]) == [RowItem(ExampleRow1)] by { assert [ExampleRow1][..0] == []; }
    assert ItemsIn(g1) == ItemsIn(g1[..1]) + [RowItem(ExampleRow2)];
    assert ItemsIn([ExampleRow3]) == [RowItem(ExampleRow3)] by { assert [ExampleRow3][..0] == []; }
  }

  /** Rows (1, A, P, X, 2, 3, 6), ('', '', '', Y, 1, 5, 5)
      and (2, B, Q, Z, 1, 1, 1) import as two estimates, the first with items
      X and Y and total 11, the second with item Z and total 1. */
  lemma ImportExample(header: Row)
    ensures ImportRows([header, ExampleRow1, ExampleRow2, ExampleRow3]) == [
        ImportedEstimate(Text("A"), Text("P"),
          [ImportedItem(Text("X"), 2.0, 3.0, 6.0), ImportedItem(Text("Y"), 1.0, 5.0, 5.0)], 11.0),
        ImportedEstimate(Text("B"), Text("Q"), [ImportedItem(Text("Z"), 1.0, 1.0, 1.0)], 1.0)]
  {
    var gs := [ExampleGroup1, ExampleGroup2];
    ExampleGroups();
    ExampleLayout();
    ImportGroups(header, [], gs);
    assert [header] + ([] + Concat(gs)) == [header, ExampleRow1, ExampleRow2, ExampleRow3];
    ExampleFirst();
    ExampleSecond();
  }

  const ExampleGroup1: seq<Row> := [ExampleRow1, ExampleRow2]
  const ExampleGroup2: seq<Row> := [ExampleRow3]

  lemma ExampleLayout()
    ensures Concat([ExampleGroup1, ExampleGroup2]) == [ExampleRow1, ExampleRow2, ExampleRow3]
  {
    var gs := [ExampleGroup1, ExampleGroup2];
    assert gs[..1] == [ExampleGroup1];
    assert Concat([ExampleGroup1]) == ExampleGroup1 by { assert [ExampleGroup1][..0] == gs[..0]; }
  }

  lemma ExampleFirst()
    ensures GroupOf(ExampleGroup1) == ImportedEstimate(Text("A"), Text("P"),
      [ImportedItem(Text("X"), 2.0, 3.0, 6.0), ImportedItem(Text("Y"), 1.0, 5.0, 5.0)], 11.0)
  {
    ExampleGroups();
    var its := ItemsIn(ExampleGroup1);
    assert its[..1] == [its[0]];
    assert ImportedSum(its[..1]) == 6.0 by { assert its[..1][..0] == []; }
  }

  lemma ExampleSecond()
    ensures GroupOf(ExampleGroup2) == ImportedEstimate(Text("B"), Text("Q"),
      [ImportedItem(Text("Z"), 1.0, 1.0, 1.0)], 1.0)
  {
    ExampleGroups();
    var its := ItemsIn(ExampleGroup2);
    assert ImportedSum(its) == 1.0 by { assert its[..0] == []; }
  }
}
