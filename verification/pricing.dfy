/** The order total shown under "Total do pedido": the base price plus the
    price of every chosen extra, times the base quantity. The screen computes
    the extras' price with a left-to-right reduce starting from 0; the model
    keeps that shape and proves it equal to the plain sum. */
module Pricing {
  import opened FoodTypes
  import opened Quantities

  /** What one extra line adds to the order. */
  function LineTotal(e: Extra): int {
    e.value * e.quantity
  }

  /** The sum of every extra's value times its quantity; 0 for no extras. */
  function ExtrasSum(extras: seq<Extra>): int {
    if |extras| == 0 then 0 else LineTotal(extras[0]) + ExtrasSum(extras[1..])
  }

  /** The reduce step by step: `acc` is the running sum carried from the left. */
  function ReduceLines(acc: int, extras: seq<Extra>): int
    decreases |extras|
  {
    if |extras| == 0 then acc else ReduceLines(acc + LineTotal(extras[0]), extras[1..])
  }

  lemma {:induction false} ReduceLinesIsSum(acc: int, extras: seq<Extra>)
    ensures ReduceLines(acc, extras) == acc + ExtrasSum(extras)
    decreases |extras|
  {
    if |extras| > 0 {
      ReduceLinesIsSum(acc + LineTotal(extras[0]), extras[1..]);
    }
  }

  /** The numeric cart total, before it is formatted as currency. */
  function CartTotal(price: int, extras: seq<Extra>, foodQuantity: int): (r: int)
    ensures r == (price + ExtrasSum(extras)) * foodQuantity
  {
    ReduceLinesIsSum(0, extras);
    (price + ReduceLines(0, extras)) * foodQuantity
  }

  lemma {:induction false} ExtrasSumAppend(a: seq<Extra>, b: seq<Extra>)
    ensures ExtrasSum(a + b) == ExtrasSum(a) + ExtrasSum(b)
  {
    if |a| == 0 {
      assert a + b == b;
    } else {
      assert (a + b)[1..] == a[1..] + b;
      ExtrasSumAppend(a[1..], b);
    }
  }

  /** Changing one line's quantity changes the sum by exactly that line's difference. */
  lemma {:induction false} ExtrasSumUpdate(a: seq<Extra>, b: seq<Extra>, i: int, q: int)
    requires 0 <= i < |a| && UpdatedAt(a, b, i, q)
    ensures ExtrasSum(b) == ExtrasSum(a) - LineTotal(a[i]) + LineTotal(b[i])
    decreases |a|
  {
    if i > 0 {
      assert UpdatedAt(a[1..], b[1..], i - 1, q);
      ExtrasSumUpdate(a[1..], b[1..], i - 1, q);
    } else {
      assert a[1..] == b[1..];
    }
  }

  /** One more of an extra costs its value once more. */
  lemma LineTotalUp(e: Extra)
    ensures LineTotal(e.(quantity := e.quantity + 1)) == LineTotal(e) + e.value
  {
  }

  /** One fewer of an extra costs its value once less. */
  lemma LineTotalDown(e: Extra)
    ensures LineTotal(e.(quantity := e.quantity - 1)) == LineTotal(e) - e.value
  {
  }

  /** Extras as freshly loaded, all at quantity 0, add nothing to the total. */
  lemma {:induction false} ZeroQuantitiesAddNothing(extras: seq<Extra>)
    requires forall i :: 0 <= i < |extras| ==> extras[i].quantity == 0
    ensures ExtrasSum(extras) == 0
  {
    if |extras| > 0 {
      ZeroQuantitiesAddNothing(extras[1..]);
    }
  }

  /** One more of line `i` makes the extras cost that line's value more. */
  lemma ExtrasSumUp(a: seq<Extra>, b: seq<Extra>, i: int)
    requires 0 <= i < |a| && UpdatedAt(a, b, i, a[i].quantity + 1)
    ensures ExtrasSum(b) == ExtrasSum(a) + a[i].value
  {
    ExtrasSumUpdate(a, b, i, a[i].quantity + 1);
    LineTotalUp(a[i]);
  }

  /** One fewer of line `i` makes the extras cost that line's value less. */
  lemma ExtrasSumDown(a: seq<Extra>, b: seq<Extra>, i: int)
    requires 0 <= i < |a| && UpdatedAt(a, b, i, a[i].quantity - 1)
    ensures ExtrasSum(b) == ExtrasSum(a) - a[i].value
  {
    ExtrasSumUpdate(a, b, i, a[i].quantity - 1);
    LineTotalDown(a[i]);
  }

  /** "+" on a listed extra adds that extra's value to the extras' price. */
  lemma IncrementExtraAddsValue(extras: seq<Extra>, id: int, i: int)
    requires IsFirstMatch(extras, id, i)
    ensures ExtrasSum(IncrementExtra(extras, id)) == ExtrasSum(extras) + extras[i].value
  {
    ExtrasSumUp(extras, IncrementExtra(extras, id), i);
  }

  /** "-" on a listed extra with a positive quantity takes that extra's value off the extras' price. */
  lemma DecrementExtraSubtractsValue(extras: seq<Extra>, id: int, i: int)
    requires IsFirstMatch(extras, id, i) && extras[i].quantity > 0
    ensures ExtrasSum(DecrementExtra(extras, id)) == ExtrasSum(extras) - extras[i].value
  {
    ExtrasSumDown(extras, DecrementExtra(extras, id), i);
  }

  /** "+" on a listed extra raises the total by that extra's value once per base item. */
  lemma IncrementExtraRaisesTotal(price: int, extras: seq<Extra>, id: int, i: int, foodQuantity: int)
    requires IsFirstMatch(extras, id, i)
    ensures CartTotal(price, IncrementExtra(extras, id), foodQuantity)
         == CartTotal(price, extras, foodQuantity) + extras[i].value * foodQuantity
  {
    IncrementExtraAddsValue(extras, id, i);
    CartTotalShift(price, extras, IncrementExtra(extras, id), extras[i].value, foodQuantity);
  }

  /** "-" on a listed extra with a positive quantity lowers the total by that extra's value once per base item. */
  lemma DecrementExtraLowersTotal(price: int, extras: seq<Extra>, id: int, i: int, foodQuantity: int)
    requires IsFirstMatch(extras, id, i) && extras[i].quantity > 0
    ensures CartTotal(price, DecrementExtra(extras, id), foodQuantity)
         == CartTotal(price, extras, foodQuantity) - extras[i].value * foodQuantity
  {
    DecrementExtraSubtractsValue(extras, id, i);
    CartTotalShift(price, DecrementExtra(extras, id), extras, extras[i].value, foodQuantity);
  }

  /** Extras that cost `v` more make the total `v` more per base item. */
  lemma CartTotalShift(price: int, a: seq<Extra>, b: seq<Extra>, v: int, foodQuantity: int)
    requires ExtrasSum(b) == ExtrasSum(a) + v
    ensures CartTotal(price, b, foodQuantity) == CartTotal(price, a, foodQuantity) + v * foodQuantity
  {
    Scale(price + ExtrasSum(b), price + ExtrasSum(a), v, foodQuantity);
  }

  lemma Scale(x: int, a: int, v: int, q: int)
    requires x == a + v
    ensures x * q == a * q + v * q
  {
  }

  /** A price of 10.00 with one 2.00 extra chosen three times, ordered twice, totals 32.00. */
  lemma WorkedTotal()
    ensures CartTotal(1000, [Extra(1, "cheese", 200, 3)], 2) == 3200
  {
  }
}
