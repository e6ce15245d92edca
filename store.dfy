/**
 * The estimate store of the back ends (electron/main.js, src-tauri/src/main.rs):
 * the `estimates` table keyed by id, the `estimate_items` table whose rows
 * carry the id of their estimate, and the AUTOINCREMENT counter.
 *
 * `foreignKeys` says whether the engine enforces the declared foreign key
 * `estimate_items.estimateId -> estimates.id ON DELETE CASCADE`. When it does,
 * deleting an estimate deletes its items and inserting an item under an id
 * with no estimate fails; when it does not, neither happens.
 *
 * `fault` parameters stand for storage failures the model cannot predict:
 * `Some(s)` makes statement number `s` of the call fail (statements are
 * counted from 0 in the order the handler runs them). A failing statement
 * ends the call with an error, and the writes of the statements before it
 * stay, since no transaction encloses them.
 */
module Store {
  import opened Wrappers
  import opened Records

  /** A row of `estimates`, without its key. */
  datatype EstimateRow = EstimateRow(
    clientName: string,
    projectName: string,
    totalAmount: real,
    createdAt: Timestamp,
    updatedAt: Timestamp)

  /** A row of `estimate_items`. */
  datatype ItemRow = ItemRow(estimateId: int, item: Item)

  datatype StoreError = StorageFailure | ForeignKeyViolation

  /** The rows inserted for `items` under `id`, in submitted order. */
  function RowsFor(id: int, items: seq<Item>): seq<ItemRow>
  {
    seq(|items|, k requires 0 <= k < |items| => ItemRow(id, items[k]))
  }

  /** `SELECT ... FROM estimate_items WHERE estimateId = ?`: the items of
      estimate `id`, in table order. */
  function ItemsOf(rows: seq<ItemRow>, id: int): seq<Item>
  {
    if rows == [] then []
    else
      var last := rows[|rows| - 1];
      ItemsOf(rows[..|rows| - 1], id) + (if last.estimateId == id then [last.item] else [])
  }

  /** `DELETE FROM estimate_items WHERE estimateId = ?`. */
  function WithoutEstimate(rows: seq<ItemRow>, id: int): seq<ItemRow>
  {
    if rows == [] then []
    else
      var last := rows[|rows| - 1];
      WithoutEstimate(rows[..|rows| - 1], id) + (if last.estimateId != id then [last] else [])
  }

  /** The delete keeps exactly the rows of other estimates. */
  lemma {:induction false} WithoutMembers(rows: seq<ItemRow>, id: int)
    ensures forall x :: x in WithoutEstimate(rows, id) <==> x in rows && x.estimateId != id
  {
    if rows != [] {
      var init, last := rows[..|rows| - 1], rows[|rows| - 1];
      WithoutMembers(init, id);
      assert rows == init + [last];
    }
  }

  lemma {:induction false} ItemsOfAppend(a: seq<ItemRow>, b: seq<ItemRow>, id: int)
    ensures ItemsOf(a + b, id) == ItemsOf(a, id) + ItemsOf(b, id)
  {
    if b == [] {
      assert a + b == a;
    } else {
      assert (a + b)[..|a + b| - 1] == a + b[..|b| - 1];
      ItemsOfAppend(a, b[..|b| - 1], id);
    }
  }

  /** Rows inserted under `id` are exactly the items of `id` among them. */
  lemma {:induction false} ItemsOfRowsFor(id: int, items: seq<Item>, other: int)
    ensures ItemsOf(RowsFor(id, items), other) == if other == id then items else []
  {
    if items != [] {
      var init := items[..|items| - 1];
      assert RowsFor(id, items)[..|items| - 1] == RowsFor(id, init);
      ItemsOfRowsFor(id, init, other);
    }
  }

  /** After deleting the items of `id`, `id` has none and every other estimate
      keeps its own. */
  lemma {:induction false} ItemsOfWithout(rows: seq<ItemRow>, id: int, other: int)
    ensures ItemsOf(WithoutEstimate(rows, id), other) == if other == id then [] else ItemsOf(rows, other)
  {
    if rows != [] {
      var init, last := rows[..|rows| - 1], rows[|rows| - 1];
      ItemsOfWithout(init, id, other);
      ItemsOfAppend(WithoutEstimate(init, id), if last.estimateId != id then [last] else [], other);
      assert [last][..0] == [];
    }
  }

  /** Deleting the items of an id no row carries changes nothing. */
  lemma {:induction false} WithoutAbsent(rows: seq<ItemRow>, id: int)
    requires forall i :: 0 <= i < |rows| ==> rows[i].estimateId != id
    ensures WithoutEstimate(rows, id) == rows
  {
    if rows != [] {
      var init := rows[..|rows| - 1];
      assert forall i :: 0 <= i < |init| ==> init[i] == rows[i];
      WithoutAbsent(init, id);
      assert rows == init + [rows[|rows| - 1]];
    }
  }

  /** An id no row carries has no items. */
  lemma {:induction false} ItemsOfAbsent(rows: seq<ItemRow>, id: int)
    requires forall i :: 0 <= i < |rows| ==> rows[i].estimateId != id
    ensures ItemsOf(rows, id) == []
  {
    if rows != [] {
      var init := rows[..|rows| - 1];
      assert forall i :: 0 <= i < |init| ==> init[i] == rows[i];
      ItemsOfAbsent(init, id);
    }
  }

  /** When every row belongs to one of `keys`, no row carries an id outside them. */
  lemma NotCarried(rows: seq<ItemRow>, keys: set<int>, id: int)
    requires forall x :: x in rows ==> x.estimateId in keys
    requires id !in keys
    ensures forall i :: 0 <= i < |rows| ==> rows[i].estimateId != id
  {
    forall i | 0 <= i < |rows| ensures rows[i].estimateId != id {
      assert rows[i] in rows;
    }
  }

  /** Deleting the items of `id` and inserting `items` under it replaces the
      items of `id` and keeps those of every other estimate. */
  lemma ReplacedItems(rows: seq<ItemRow>, id: int, items: seq<Item>, other: int)
    ensures ItemsOf(WithoutEstimate(rows, id) + RowsFor(id, items), other) ==
      if other == id then items else ItemsOf(rows, other)
  {
    ItemsOfAppend(WithoutEstimate(rows, id), RowsFor(id, items), other);
    ItemsOfWithout(rows, id, other);
    ItemsOfRowsFor(id, items, other);
  }

  /** The number of item inserts, out of `n`, that succeed when they are
      statements `base`, `base + 1`, ... of the call and the parent row exists
      (or is not checked) as `parentOk` says. */
  function Inserted(parentOk: bool, n: nat, fault: Option<nat>, base: nat): (w: nat)
    ensures w <= n
  {
    if !parentOk && n > 0 then 0
    else if fault.Some? && base <= fault.value < base + n then fault.value - base
    else n
  }

  // ------------------------------------------------------------- listing

  /** `ORDER BY updatedAt DESC`. */
  predicate SortedByUpdated(list: seq<Estimate>)
  {
    forall i, j :: 0 <= i < j < |list| ==> list[i].updatedAt >= list[j].updatedAt
  }

  predicate DistinctIds(list: seq<Estimate>)
  {
    forall i, j :: 0 <= i < j < |list| ==> list[i].id != list[j].id
  }

  function IdsOf(list: seq<Estimate>): set<int>
  {
    set i | 0 <= i < |list| :: list[i].id
  }

  /** Where `e` goes in a list sorted by `updatedAt` descending: after every
      estimate updated at the same time or later. */
  function InsertPos(list: seq<Estimate>, e: Estimate): (p: nat)
    ensures p <= |list|
    ensures forall i :: 0 <= i < p ==> list[i].updatedAt >= e.updatedAt
    ensures p < |list| ==> list[p].updatedAt < e.updatedAt
  {
    if list == [] || list[0].updatedAt < e.updatedAt then 0 else 1 + InsertPos(list[1..], e)
  }

  /** `list` with `e` inserted so that it stays sorted. */
  function InsertByUpdated(list: seq<Estimate>, e: Estimate): (r: seq<Estimate>)
    requires SortedByUpdated(list)
    ensures SortedByUpdated(r)
    ensures multiset(r) == multiset(list) + multiset{e}
    ensures IdsOf(r) == IdsOf(list) + {e.id}
    ensures e.id !in IdsOf(list) && DistinctIds(list) ==> DistinctIds(r)
  {
    var p := InsertPos(list, e);
    InsertedAt(list, e, p);
    list[..p] + [e] + list[p..]
  }

  lemma InsertedAt(list: seq<Estimate>, e: Estimate, p: nat)
    requires SortedByUpdated(list) && p == InsertPos(list, e)
    ensures var r := list[..p] + [e] + list[p..];
      && SortedByUpdated(r)
      && multiset(r) == multiset(list) + multiset{e}
      && IdsOf(r) == IdsOf(list) + {e.id}
      && (e.id !in IdsOf(list) && DistinctIds(list) ==> DistinctIds(r))
  {
    InsertMultiset(list, e, p);
    InsertSorted(list, e, p);
    InsertIds(list, e, p);
    if e.id !in IdsOf(list) && DistinctIds(list) {
      InsertDistinct(list, e, p);
    }
  }

  lemma InsertMultiset(list: seq<Estimate>, e: Estimate, p: nat)
    requires p <= |list|
    ensures multiset(list[..p] + [e] + list[p..]) == multiset(list) + multiset{e}
  {
    assert list == list[..p] + list[p..];
  }

  lemma InsertLayout(list: seq<Estimate>, e: Estimate, p: nat)
    requires p <= |list|
    ensures var r := list[..p] + [e] + list[p..];
      && |r| == |list| + 1
      && (forall i :: 0 <= i < p ==> r[i] == list[i])
      && r[p] == e
      && (forall i :: p < i < |r| ==> r[i] == list[i - 1])
  {
  }

  lemma InsertSorted(list: seq<Estimate>, e: Estimate, p: nat)
    requires SortedByUpdated(list) && p == InsertPos(list, e)
    ensures SortedByUpdated(list[..p] + [e] + list[p..])
  {
    var r := list[..p] + [e] + list[p..];
    InsertLayout(list, e, p);
    forall i, j | 0 <= i < j < |r| ensures r[i].updatedAt >= r[j].updatedAt {
      if j < p {
      } else if j == p {
      } else if i == p {
        assert list[p].updatedAt < e.updatedAt;
        assert list[p].updatedAt >= list[j - 1].updatedAt || j - 1 == p;
      } else if i < p {
        assert list[i].updatedAt >= e.updatedAt;
      }
    }
  }

  lemma InsertIds(list: seq<Estimate>, e: Estimate, p: nat)
    requires p <= |list|
    ensures IdsOf(list[..p] + [e] + list[p..]) == IdsOf(list) + {e.id}
  {
    var r := list[..p] + [e] + list[p..];
    InsertLayout(list, e, p);
    forall x | x in IdsOf(list) ensures x in IdsOf(r) {
      var i :| 0 <= i < |list| && list[i].id == x;
      assert r[if i < p then i else i + 1] == list[i];
    }
    forall x | x in IdsOf(r) ensures x in IdsOf(list) + {e.id} {
      var i :| 0 <= i < |r| && r[i].id == x;
      if i < p {
        assert list[i].id == x;
      } else if i > p {
        assert list[i - 1].id == x;
      }
    }
  }

  lemma InsertDistinct(list: seq<Estimate>, e: Estimate, p: nat)
    requires p <= |list| && DistinctIds(list) && e.id !in IdsOf(list)
    ensures DistinctIds(list[..p] + [e] + list[p..])
  {
    var r := list[..p] + [e] + list[p..];
    InsertLayout(list, e, p);
    forall i, j | 0 <= i < j < |r| ensures r[i].id != r[j].id {
      if i == p {
        assert r[j] == list[j - 1];
        assert list[j - 1].id in IdsOf(list);
      } else if j == p {
        assert list[i].id in IdsOf(list);
      } else {
        var i', j' := if i < p then i else i - 1, if j < p then j else j - 1;
        assert r[i] == list[i'] && r[j] == list[j'] && i' < j';
      }
    }
  }

  /** The estimate the list operation returns for a row and its items. */
  function Assemble(id: int, row: EstimateRow, items: seq<Item>): Estimate
  {
    Estimate(id, row.clientName, row.projectName, items, row.totalAmount, row.createdAt, row.updatedAt)
  }

  class EstimateStore {
    const foreignKeys: bool
    var estimates: map<int, EstimateRow>
    var items: seq<ItemRow>
    var nextId: int

    /** Every id was handed out by the counter; with the foreign key enforced,
        every item row belongs to an estimate. */
    ghost predicate Valid()
      reads this
    {
      && 1 <= nextId
      && (forall id :: id in estimates ==> 1 <= id < nextId)
      && (foreignKeys ==> forall x :: x in items ==> x.estimateId in estimates)
    }

    /** The listing `get-estimates` returns: every estimate exactly once, with
        exactly the items whose `estimateId` is its id, most recently updated first. */
    ghost predicate IsListing(list: seq<Estimate>)
      reads this
    {
      && SortedByUpdated(list)
      && DistinctIds(list)
      && IdsOf(list) == estimates.Keys
      && forall i :: 0 <= i < |list| ==>
           list[i].id in estimates && list[i] == Assemble(list[i].id, estimates[list[i].id], ItemsOf(items, list[i].id))
    }

    constructor (foreignKeys: bool)
      ensures Valid()
      ensures this.foreignKeys == foreignKeys
      ensures estimates == map[] && items == [] && nextId == 1
    {
      this.foreignKeys := foreignKeys;
      estimates := map[];
      items := [];
      nextId := 1;
    }

    /** The items of estimate `id`, collected row by row. */
    method ItemsFor(id: int) returns (found: seq<Item>)
      ensures found == ItemsOf(items, id)
    {
      found := [];
      for k := 0 to |items|
        invariant found == ItemsOf(items[..k], id)
      {
        assert items[..k + 1][..k] == items[..k];
        if items[k].estimateId == id {
          found := found + [items[k].item];
        }
      }
      assert items[..|items|] == items;
    }

    /** An estimate as the list operation returns it: a stored row with the
        items whose `estimateId` is its id. */
    ghost predicate Listed(e: Estimate)
      reads this
    {
      e.id in estimates && e == Assemble(e.id, estimates[e.id], ItemsOf(items, e.id))
    }

    ghost function KeysBelow(n: int): set<int>
      reads this
    {
      set x | x in estimates && x < n
    }

    lemma KeysBelowStep(n: int)
      ensures KeysBelow(n + 1) == KeysBelow(n) + (if n in estimates then {n} else {})
    {
    }

    lemma KeysBelowAll()
      requires Valid()
      ensures KeysBelow(nextId) == estimates.Keys
    {
    }

    /** Inserting a listed estimate with a new id keeps a partial listing one. */
    lemma InsertListed(list: seq<Estimate>, e: Estimate)
      requires SortedByUpdated(list) && DistinctIds(list) && e.id !in IdsOf(list)
      requires forall i :: 0 <= i < |list| ==> Listed(list[i])
      requires Listed(e)
      ensures var r := InsertByUpdated(list, e);
        && SortedByUpdated(r) && DistinctIds(r) && IdsOf(r) == IdsOf(list) + {e.id}
        && forall i :: 0 <= i < |r| ==> Listed(r[i])
    {
      var r := InsertByUpdated(list, e);
      forall i | 0 <= i < |r| ensures Listed(r[i]) {
        assert r[i] in multiset(list) + multiset{e};
        if r[i] != e {
          assert r[i] in list;
        }
      }
    }

    /** The estimate updated strictly later than every other comes first in
        any listing, as it does after an update stamps it with the latest time. */
    lemma LatestFirst(list: seq<Estimate>, id: int)
      requires IsListing(list) && id in estimates
      requires forall other :: other in estimates && other != id ==>
        estimates[other].updatedAt < estimates[id].updatedAt
      ensures |list| > 0 && list[0].id == id
    {
      assert id in IdsOf(list);
      var k :| 0 <= k < |list| && list[k].id == id;
      assert list[0].updatedAt >= list[k].updatedAt;
    }

    /** `get-estimates`: all estimates, most recently updated first, each with
        its items. A failing read ends it with an error. */
    method List(readFails: bool) returns (r: Result<seq<Estimate>, StoreError>)
      requires Valid()
      ensures r.Err? <==> readFails
      ensures r.Ok? ==> IsListing(r.value)
    {
      if readFails {
        return Err(StorageFailure);
      }
      var list: seq<Estimate> := [];
      var id := 1;
      while id < nextId
        invariant 1 <= id <= nextId
        invariant SortedByUpdated(list) && DistinctIds(list)
        invariant IdsOf(list) == KeysBelow(id)
        invariant forall i :: 0 <= i < |list| ==> Listed(list[i])
      {
        if id in estimates {
          var found := ItemsFor(id);
          var e := Assemble(id, estimates[id], found);
          InsertListed(list, e);
          list := InsertByUpdated(list, e);
        }
        KeysBelowStep(id);
        id := id + 1;
      }
      KeysBelowAll();
      return Ok(list);
    }

    /** Inserts item rows under `estimateId`, one statement per item, counted
        from `base`. The first failing insert ends the loop. */
    method InsertItems(estimateId: int, submitted: seq<Item>, fault: Option<nat>, base: nat)
      returns (failure: Option<StoreError>)
      requires Valid()
      modifies this`items
      ensures Valid()
      ensures var parentOk := !foreignKeys || estimateId in estimates;
        var w := Inserted(parentOk, |submitted|, fault, base);
        && items == old(items) + RowsFor(estimateId, submitted[..w])
        && failure == if w == |submitted| then None
                      else if parentOk then Some(StorageFailure) else Some(ForeignKeyViolation)
    {
      var k := 0;
      while k < |submitted|
        invariant 0 <= k <= |submitted|
        invariant k <= Inserted(!foreignKeys || estimateId in estimates, |submitted|, fault, base)
        invariant items == old(items) + RowsFor(estimateId, submitted[..k])
        invariant Valid()
      {
        if foreignKeys && estimateId !in estimates {
          return Some(ForeignKeyViolation);
        }
        if fault == Some(base + k) {
          return Some(StorageFailure);
        }
        items := items + [ItemRow(estimateId, submitted[k])];
        k := k + 1;
        assert RowsFor(estimateId, submitted[..k]) == RowsFor(estimateId, submitted[..k - 1]) + [ItemRow(estimateId, submitted[k - 1])];
      }
      assert submitted[..k] == submitted;
      return None;
    }

    /** `save-estimate`: statement 0 inserts the estimate row under a fresh id
        with both timestamps `now`; statement 1 + k inserts item k. Returns the
        new id. */
    method Save(input: EstimateInput, now: Timestamp, fault: Option<nat>) returns (r: Result<int, StoreError>)
      requires Valid()
      modifies this
      ensures Valid()
      ensures fault == Some(0) ==>
        && r == Err(StorageFailure)
        && estimates == old(estimates) && items == old(items) && nextId == old(nextId)
      ensures fault != Some(0) ==>
        var id := old(nextId);
        var w := Inserted(true, |input.items|, fault, 1);
        && nextId == id + 1
        && estimates == old(estimates)[id := EstimateRow(input.clientName, input.projectName, input.totalAmount, now, now)]
        && items == old(items) + RowsFor(id, input.items[..w])
        && r == if w == |input.items| then Ok(id) else Err(StorageFailure)
      ensures r.Ok? ==> r.value !in old(estimates) && r.value in estimates
      ensures r.Ok? && foreignKeys ==> ItemsOf(items, r.value) == input.items
    {
      if fault == Some(0) {
        return Err(StorageFailure);
      }
      var id := nextId;
      estimates := estimates[id := EstimateRow(input.clientName, input.projectName, input.totalAmount, now, now)];
      nextId := nextId + 1;
      ghost var before := items;
      var failure := InsertItems(id, input.items, fault, 1);
      r := if failure.None? then Ok(id) else Err(StorageFailure);
      if r.Ok? && foreignKeys {
        NotCarried(before, old(estimates).Keys, id);
        ItemsOfAbsent(before, id);
        ItemsOfAppend(before, RowsFor(id, input.items), id);
        ItemsOfRowsFor(id, input.items, id);
        assert input.items[..|input.items|] == input.items;
      }
    }

    /** `update-estimate`: statement 0 overwrites client, project, total and
        `updatedAt` of the row with the estimate's id, if there is one;
        statement 1 deletes every item row of that id; statement 2 + k inserts
        item k under that id. The item set is replaced, never merged. */
    method Update(e: Estimate, now: Timestamp, fault: Option<nat>) returns (failure: Option<StoreError>)
      requires Valid()
      modifies this
      ensures Valid() && nextId == old(nextId)
      ensures fault == Some(0) ==>
        failure == Some(StorageFailure) && estimates == old(estimates) && items == old(items)
      ensures fault != Some(0) ==>
        estimates == if e.id in old(estimates)
          then old(estimates)[e.id := old(estimates)[e.id].(clientName := e.clientName,
                 projectName := e.projectName, totalAmount := e.totalAmount, updatedAt := now)]
          else old(estimates)
      ensures fault == Some(1) ==> failure == Some(StorageFailure) && items == old(items)
      ensures fault != Some(0) && fault != Some(1) ==>
        var parentOk := !foreignKeys || e.id in old(estimates);
        var w := Inserted(parentOk, |e.items|, fault, 2);
        && items == WithoutEstimate(old(items), e.id) + RowsFor(e.id, e.items[..w])
        && failure == if w == |e.items| then None
                      else if parentOk then Some(StorageFailure) else Some(ForeignKeyViolation)
      ensures estimates.Keys == old(estimates).Keys
      ensures forall id :: id in estimates ==> estimates[id].createdAt == old(estimates)[id].createdAt
      ensures failure.None? ==> ItemsOf(items, e.id) == e.items
      ensures failure.None? ==> forall other :: other != e.id ==> ItemsOf(items, other) == ItemsOf(old(items), other)
    {
      if fault == Some(0) {
        return Some(StorageFailure);
      }
      if e.id in estimates {
        estimates := estimates[e.id := estimates[e.id].(clientName := e.clientName,
          projectName := e.projectName, totalAmount := e.totalAmount, updatedAt := now)];
      }
      if fault == Some(1) {
        return Some(StorageFailure);
      }
      ghost var before := items;
      items := WithoutEstimate(items, e.id);
      WithoutMembers(before, e.id);
      failure := InsertItems(e.id, e.items, fault, 2);
      if failure.None? {
        assert e.items[..Inserted(!foreignKeys || e.id in old(estimates), |e.items|, fault, 2)] == e.items;
        forall other
          ensures ItemsOf(items, other) == if other == e.id then e.items else ItemsOf(before, other)
        {
          ReplacedItems(before, e.id, e.items, other);
        }
      }
    }

    /** `delete-estimate`: statement 0 deletes the row with that id; with the
        foreign key enforced the cascade deletes its items. An unknown id is
        not an error. */
    method Delete(id: int, fault: Option<nat>) returns (failure: Option<StoreError>)
      requires Valid()
      modifies this
      ensures Valid() && nextId == old(nextId)
      ensures failure.Some? <==> fault == Some(0)
      ensures fault == Some(0) ==> estimates == old(estimates) && items == old(items)
      ensures fault != Some(0) ==>
        && estimates == old(estimates) - {id}
        && items == if foreignKeys then WithoutEstimate(old(items), id) else old(items)
      ensures fault != Some(0) && foreignKeys ==> ItemsOf(items, id) == []
      ensures fault != Some(0) && id !in old(estimates) ==>
        estimates == old(estimates) && items == old(items)
    {
      if fault == Some(0) {
        return Some(StorageFailure);
      }
      ghost var before := items;
      estimates := estimates - {id};
      if foreignKeys {
        items := WithoutEstimate(items, id);
        WithoutMembers(before, id);
        ItemsOfWithout(before, id, id);
        if id !in old(estimates) {
          NotCarried(before, old(estimates).Keys, id);
          WithoutAbsent(before, id);
        }
      }
      return None;
    }
  }
}
