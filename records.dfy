/**
 * The record shapes the back ends and the form exchange: an estimate with its
 * line items, and the estimate the form submits before the store has given it
 * an id and timestamps.
 */
module Records {

  /** An instant. The back ends store timestamps as ISO-8601 text in one
      fixed format, whose text order is the order of the instants. */
  type Timestamp = int

  /** One priced line of an estimate. Money and quantities are exact reals. */
  datatype Item = Item(description: string, quantity: real, unitPrice: real, amount: real)

  /** An estimate as the store lists it. */
  datatype Estimate = Estimate(
    id: int,
    clientName: string,
    projectName: string,
    items: seq<Item>,
    totalAmount: real,
    createdAt: Timestamp,
    updatedAt: Timestamp)

  /** What the form submits for a new estimate: an Estimate without id and timestamps. */
  datatype EstimateInput = EstimateInput(
    clientName: string,
    projectName: string,
    items: seq<Item>,
    totalAmount: real)

  /** The sum of the items' amounts, accumulated from the left as
      `items.reduce((sum, item) => sum + item.amount, 0)` does. */
  function AmountSum(items: seq<Item>): real
  {
    if items == [] then 0.0 else AmountSum(items[..|items| - 1]) + items[|items| - 1].amount
  }

  /** The sum over a concatenation is the sum of the sums. */
  lemma {:induction false} AmountSumAppend(a: seq<Item>, b: seq<Item>)
    ensures AmountSum(a + b) == AmountSum(a) + AmountSum(b)
  {
    if b != [] {
      assert (a + b)[..|a + b| - 1] == a + b[..|b| - 1];
      AmountSumAppend(a, b[..|b| - 1]);
    } else {
      assert a + b == a;
    }
  }

  /** Changing one item changes the sum by the difference of that item's amounts. */
  lemma {:induction false} AmountSumUpdate(items: seq<Item>, k: nat, x: Item)
    requires k < |items|
    ensures AmountSum(items[k := x]) == AmountSum(items) - items[k].amount + x.amount
  {
    var before, after := items[..k], items[k + 1..];
    assert items == before + [items[k]] + after;
    assert items[k := x] == before + [x] + after;
    AmountSumAppend(before + [items[k]], after);
    AmountSumAppend(before + [x], after);
    AmountSumAppend(before, [items[k]]);
    AmountSumAppend(before, [x]);
    assert AmountSum([x]) == x.amount by { assert [x][..0] == []; }
    assert AmountSum([items[k]]) == items[k].amount by { assert [items[k]][..0] == []; }
  }
}
