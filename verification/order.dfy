/** The payload posted when the user finishes the order: the food's fields,
    its id copied into `productId`, the chosen base quantity, the extras the
    user actually chose (quantity above zero) and the computed total. */
module OrderSnapshot {
  import opened FoodTypes
  import opened Pricing

  /** The order payload. The food's own id is dropped in favour of `productId`. */
  datatype Order = Order(
    productId: int,
    name: string,
    description: string,
    price: int,
    imageUrl: string,
    thumbnailUrl: string,
    foodQuantity: int,
    extras: seq<Extra>,
    total: int)

  /** `a` can be obtained from `b` by deleting entries, order kept. */
  predicate Subsequence<T(==)>(a: seq<T>, b: seq<T>)
    decreases |b|
  {
    if |a| == 0 then true
    else if |b| == 0 then false
    else if a[0] == b[0] then Subsequence(a[1..], b[1..])
    else Subsequence(a, b[1..])
  }

  /** `r` holds every extra of `extras` with a quantity above zero as many times
      as `extras` does, and nothing else. */
  ghost predicate SameCopiesOfPositive(r: seq<Extra>, extras: seq<Extra>) {
    forall e {:trigger multiset(r)[e]} :: multiset(r)[e] == if e.quantity > 0 then multiset(extras)[e] else 0
  }

  /** The extras with a quantity above zero, in their original relative order. */
  function PositiveExtras(extras: seq<Extra>): (r: seq<Extra>)
    ensures forall k :: 0 <= k < |r| ==> r[k].quantity > 0
    ensures forall e :: e in r <==> e in extras && e.quantity > 0
    ensures SameCopiesOfPositive(r, extras)
    ensures Subsequence(r, extras)
    ensures |r| <= |extras|
    decreases |extras|
  {
    if |extras| == 0 then []
    else
      var rest := PositiveExtras(extras[1..]);
      var x := extras[0];
      assert extras == [x] + extras[1..];
      PositiveExtrasStep(x, extras[1..], rest);
      if x.quantity > 0 then [x] + rest else rest
  }

  /** One step of the filter: what holds of the filtered tail holds of the
      filtered list once its head is put back in front. */
  lemma PositiveExtrasStep(x: Extra, tail: seq<Extra>, rest: seq<Extra>)
    requires forall k :: 0 <= k < |rest| ==> rest[k].quantity > 0
    requires forall e :: e in rest <==> e in tail && e.quantity > 0
    requires SameCopiesOfPositive(rest, tail)
    requires Subsequence(rest, tail)
    requires |rest| <= |tail|
    ensures var r := if x.quantity > 0 then [x] + rest else rest;
            (forall k :: 0 <= k < |r| ==> r[k].quantity > 0) &&
            (forall e :: e in r <==> e in [x] + tail && e.quantity > 0) &&
            SameCopiesOfPositive(r, [x] + tail) &&
            Subsequence(r, [x] + tail) &&
            |r| <= |[x] + tail|
  {
    var extras := [x] + tail;
    assert extras[1..] == tail;
    assert multiset(extras) == multiset{x} + multiset(tail);
    if x.quantity > 0 {
      assert ([x] + rest)[1..] == rest;
      assert multiset([x] + rest) == multiset{x} + multiset(rest);
    } else {
      assert forall e: Extra :: e.quantity > 0 ==> multiset{x}[e] == 0;
      assert rest == [] || rest[0] != x;
    }
  }

  /** Filtering a concatenation filters each part: together with the one-element
      case this pins the filter down completely. */
  lemma {:induction false} PositiveExtrasAppend(a: seq<Extra>, b: seq<Extra>)
    ensures PositiveExtras(a + b) == PositiveExtras(a) + PositiveExtras(b)
    decreases |a|
  {
    if |a| == 0 {
      assert a + b == b;
    } else {
      assert (a + b)[1..] == a[1..] + b;
      PositiveExtrasAppend(a[1..], b);
    }
  }

  /** Filtering an already filtered list changes nothing. */
  lemma {:induction false} PositiveExtrasIdempotent(extras: seq<Extra>)
    ensures PositiveExtras(PositiveExtras(extras)) == PositiveExtras(extras)
    decreases |extras|
  {
    if |extras| > 0 {
      PositiveExtrasIdempotent(extras[1..]);
      var rest := PositiveExtras(extras[1..]);
      if extras[0].quantity > 0 {
        assert ([extras[0]] + rest)[1..] == rest;
      }
    }
  }

  /** A list whose quantities are all positive passes the filter unchanged. */
  lemma {:induction false} PositiveExtrasKeepsAllPositive(extras: seq<Extra>)
    requires forall i :: 0 <= i < |extras| ==> extras[i].quantity > 0
    ensures PositiveExtras(extras) == extras
    decreases |extras|
  {
    if |extras| > 0 {
      PositiveExtrasKeepsAllPositive(extras[1..]);
      assert [extras[0]] + extras[1..] == extras;
    }
  }

  /** Dropping lines with quantity zero does not change what the extras cost. */
  lemma {:induction false} PositiveExtrasKeepsSum(extras: seq<Extra>)
    requires NonNegative(extras)
    ensures ExtrasSum(PositiveExtras(extras)) == ExtrasSum(extras)
    decreases |extras|
  {
    if |extras| > 0 {
      PositiveExtrasKeepsSum(extras[1..]);
      var rest := PositiveExtras(extras[1..]);
      if extras[0].quantity > 0 {
        assert ([extras[0]] + rest)[1..] == rest;
      } else {
        assert extras[0].quantity == 0;
        assert LineTotal(extras[0]) == 0;
      }
    }
  }

  /** The order for `food` with the current extras and base quantity. */
  function BuildOrder(food: Food, extras: seq<Extra>, foodQuantity: int): (o: Order)
    ensures o.productId == food.id
    ensures o.foodQuantity == foodQuantity
    ensures o.price == food.price && o.name == food.name && o.description == food.description
    ensures o.imageUrl == food.imageUrl && o.thumbnailUrl == food.thumbnailUrl
    ensures forall e :: e in o.extras <==> e in extras && e.quantity > 0
    ensures SameCopiesOfPositive(o.extras, extras)
    ensures Subsequence(o.extras, extras)
    ensures o.total == (food.price + ExtrasSum(extras)) * foodQuantity
  {
    var total := CartTotal(food.price, extras, foodQuantity);
    var kept := PositiveExtras(extras);
    var o := Order(food.id, food.name, food.description, food.price, food.imageUrl,
                   food.thumbnailUrl, foodQuantity, kept, total);
    assert o.extras == kept;
    o
  }

  /** The posted total agrees with the posted extras alone: nothing the filter
      dropped was being charged for. */
  lemma OrderTotalMatchesItsLines(food: Food, extras: seq<Extra>, foodQuantity: int)
    requires NonNegative(extras)
    ensures var o := BuildOrder(food, extras, foodQuantity);
            o.total == (o.price + ExtrasSum(o.extras)) * o.foodQuantity
  {
    var o := BuildOrder(food, extras, foodQuantity);
    assert o.extras == PositiveExtras(extras);
    PositiveExtrasKeepsSum(extras);
    assert ExtrasSum(o.extras) == ExtrasSum(extras);
  }

  /** Extras 1 (none chosen) and 2 (two chosen): only extra 2 is posted. */
  lemma WorkedFilter()
    ensures PositiveExtras([Extra(1, "egg", 100, 0), Extra(2, "ham", 300, 2)])
         == [Extra(2, "ham", 300, 2)]
  {
  }
}
