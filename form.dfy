/**
 * The item-list editing of the estimate form (src/components/EstimateForm.tsx)
 * and the estimate it submits.
 */
module EstimateForm {
  import opened Wrappers
  import opened Records

  /** The item a new row starts with. */
  const DefaultItem := Item("", 1.0, 0.0, 0.0)

  /** The form starts with one default item. */
  const InitialItems: seq<Item> := [DefaultItem]

  /** `addItem`: appends a default item and keeps the others. */
  function AddItem(items: seq<Item>): (r: seq<Item>)
    ensures |r| == |items| + 1
    ensures r[..|items|] == items && r[|items|] == DefaultItem
    ensures AmountSum(r) == AmountSum(items)
  {
    var r := items + [DefaultItem];
    assert r[..|items|] == items;
    r
  }

  /** `removeItem`: drops the item at `index` when more than one is left;
      otherwise, or when no item has that index, the list is unchanged. */
  function RemoveItem(items: seq<Item>, index: int): (r: seq<Item>)
    ensures |items| > 1 && 0 <= index < |items| ==>
      && |r| == |items| - 1
      && (forall j :: 0 <= j < index ==> r[j] == items[j])
      && (forall j :: index <= j < |r| ==> r[j] == items[j + 1])
      && AmountSum(r) == AmountSum(items) - items[index].amount
    ensures !(|items| > 1 && 0 <= index < |items|) ==> r == items
    ensures |items| >= 1 ==> |r| >= 1
  {
    if |items| > 1 && 0 <= index < |items| then
      RemovedSum(items, index);
      items[..index] + items[index + 1..]
    else
      items
  }

  lemma RemovedSum(items: seq<Item>, index: nat)
    requires index < |items|
    ensures AmountSum(items[..index] + items[index + 1..]) == AmountSum(items) - items[index].amount
  {
    var before, rest, after := items[..index], items[index..], items[index + 1..];
    assert items == before + rest;
    assert rest == [items[index]] + after;
    AmountSumAppend(before, rest);
    AmountSumAppend([items[index]], after);
    AmountSumAppend(before, after);
    assert AmountSum([items[index]]) == items[index].amount by { assert [items[index]][..0] == []; }
  }

  /** Removing the item just added gives the list back. */
  lemma RemoveAfterAdd(items: seq<Item>)
    requires |items| >= 1
    ensures RemoveItem(AddItem(items), |items|) == items
  {
    assert AddItem(items)[..|items|] + AddItem(items)[|items| + 1..] == items;
  }

  /** An add or remove button press. */
  datatype ListEdit = Add | Remove(index: int)

  /** The item list after the button presses in `steps`, in order. */
  function Replay(start: seq<Item>, steps: seq<ListEdit>): seq<Item>
  {
    if steps == [] then start
    else
      var prev := Replay(start, steps[..|steps| - 1]);
      match steps[|steps| - 1]
      case Add => AddItem(prev)
      case Remove(i) => RemoveItem(prev, i)
  }

  /** Starting from its one default item, the form's list is never empty,
      whatever items are added and removed. */
  lemma {:induction false} NeverEmpty(steps: seq<ListEdit>)
    ensures |Replay(InitialItems, steps)| >= 1
  {
    if steps != [] {
      NeverEmpty(steps[..|steps| - 1]);
    }
  }

  /** The field `updateItem` sets, with its new value. A numeric value is the
      `Number(value)` of what was typed. */
  datatype Edit =
    | SetDescription(text: string)
    | SetQuantity(quantity: real)
    | SetUnitPrice(unitPrice: real)
    | SetAmount(amount: real)

  /** `updateItem`: copies the list, replaces the item at `index` with the
      field set, and, for quantity or unit price, sets its amount to quantity
      times unit price using the new value. */
  method UpdateItem(items: seq<Item>, index: nat, edit: Edit) returns (r: seq<Item>)
    requires index < |items|
    ensures |r| == |items|
    ensures forall j :: 0 <= j < |items| && j != index ==> r[j] == items[j]
    ensures var prev := items[index];
      match edit
      case SetDescription(text) => r[index] == prev.(description := text)
      case SetQuantity(q) => r[index] == prev.(quantity := q, amount := q * prev.unitPrice)
      case SetUnitPrice(p) => r[index] == prev.(unitPrice := p, amount := prev.quantity * p)
      case SetAmount(a) => r[index] == prev.(amount := a)
    ensures AmountSum(r) == AmountSum(items) - items[index].amount + r[index].amount
  {
    var newItems := new Item[|items|](j requires 0 <= j < |items| => items[j]);
    var item := newItems[index];
    var updated := match edit
      case SetDescription(text) => item.(description := text)
      case SetQuantity(q) => item.(quantity := q)
      case SetUnitPrice(p) => item.(unitPrice := p)
      case SetAmount(a) => item.(amount := a);
    if edit.SetQuantity? || edit.SetUnitPrice? {
      updated := updated.(amount := updated.quantity * updated.unitPrice);
    }
    newItems[index] := updated;
    r := newItems[..];
    assert r == items[index := updated];
    AmountSumUpdate(items, index, updated);
  }

  /** What the form submits. */
  datatype Submission = SaveNew(input: EstimateInput) | UpdateExisting(estimate: Estimate)

  /** `handleSubmit`: the total is the sum of the item amounts. When an
      estimate is being edited, the submission keeps its id and `createdAt`
      and replaces names, items and total; otherwise a new estimate without id
      or timestamps is submitted. */
  function Submit(selected: Option<Estimate>, clientName: string, projectName: string,
                  items: seq<Item>, now: Timestamp): (s: Submission)
    ensures selected.None? ==> s == SaveNew(EstimateInput(clientName, projectName, items, AmountSum(items)))
    ensures selected.Some? ==>
      && s.UpdateExisting?
      && s.estimate.id == selected.value.id
      && s.estimate.createdAt == selected.value.createdAt
      && s.estimate.clientName == clientName && s.estimate.projectName == projectName
      && s.estimate.items == items && s.estimate.totalAmount == AmountSum(items)
      && s.estimate.updatedAt == now
  {
    match selected
    case None => SaveNew(EstimateInput(clientName, projectName, items, AmountSum(items)))
    case Some(e) =>
      UpdateExisting(e.(clientName := clientName, projectName := projectName, items := items,
                        totalAmount := AmountSum(items), updatedAt := now))
  }

  /** Submitting an edited estimate unchanged, when its total already is the
      sum of its items, changes nothing but `updatedAt`. */
  lemma ResubmitUnchanged(e: Estimate, now: Timestamp)
    requires e.totalAmount == AmountSum(e.items)
    ensures Submit(Some(e), e.clientName, e.projectName, e.items, now) == UpdateExisting(e.(updatedAt := now))
  {
  }
}
