/** Quantity reconciliation: the +/- buttons of each extra and of the base
    food item. Each extra handler locates its entry with a first-match search
    by id and replaces the list by one in which only that entry changed. */
module Quantities {
  import opened FoodTypes

  /** `i` is the position a first-match search for `id` reports. */
  predicate IsFirstMatch(extras: seq<Extra>, id: int, i: int) {
    0 <= i < |extras| && extras[i].id == id &&
    forall j :: 0 <= j < i ==> extras[j].id != id
  }

  /** No extra carries `id`. */
  predicate Absent(extras: seq<Extra>, id: int) {
    forall j :: 0 <= j < |extras| ==> extras[j].id != id
  }

  /** `b` is `a` with the quantity of entry `i` set to `q`, and nothing else changed. */
  predicate UpdatedAt(a: seq<Extra>, b: seq<Extra>, i: int, q: int)
    requires 0 <= i < |a|
  {
    |b| == |a| && b[i] == a[i].(quantity := q) &&
    forall j :: 0 <= j < |a| && j != i ==> b[j] == a[j]
  }

  /** The index of the first extra whose id is `id`, or -1 when there is none. */
  function FindIndex(extras: seq<Extra>, id: int): (r: int)
    ensures r == -1 || IsFirstMatch(extras, id, r)
    ensures r == -1 <==> Absent(extras, id)
  {
    if |extras| == 0 then -1
    else if extras[0].id == id then 0
    else
      var k := FindIndex(extras[1..], id);
      if k < 0 then -1
      else
        assert forall j :: 1 <= j < k + 1 ==> extras[j] == extras[1..][j - 1];
        k + 1
  }

  lemma FirstMatchUnique(extras: seq<Extra>, id: int, i: int, j: int)
    requires IsFirstMatch(extras, id, i) && IsFirstMatch(extras, id, j)
    ensures i == j
  {
  }

  /** The search only looks at ids, so lists with the same ids give the same answer. */
  lemma FindIndexSameIds(a: seq<Extra>, b: seq<Extra>, id: int)
    requires SameIds(a, b)
    ensures FindIndex(a, id) == FindIndex(b, id)
  {
  }

  /** The "+" button of extra `id`. */
  function IncrementExtra(extras: seq<Extra>, id: int): (r: seq<Extra>)
    ensures SameIds(extras, r)
    ensures Absent(extras, id) ==> r == extras
    ensures forall i :: IsFirstMatch(extras, id, i) ==>
              UpdatedAt(extras, r, i, extras[i].quantity + 1)
    ensures NonNegative(extras) ==> NonNegative(r)
  {
    var i := FindIndex(extras, id);
    if i < 0 then extras
    else
      var r := extras[i := extras[i].(quantity := extras[i].quantity + 1)];
      assert forall k :: IsFirstMatch(extras, id, k) ==> k == i by {
        forall k | IsFirstMatch(extras, id, k) ensures k == i {
          FirstMatchUnique(extras, id, i, k);
        }
      }
      r
  }

  /** The "-" button of extra `id`: nothing happens when the quantity is already at or below zero. */
  function DecrementExtra(extras: seq<Extra>, id: int): (r: seq<Extra>)
    ensures SameIds(extras, r)
    ensures Absent(extras, id) ==> r == extras
    ensures forall i :: IsFirstMatch(extras, id, i) ==>
              if extras[i].quantity <= 0 then r == extras
              else UpdatedAt(extras, r, i, extras[i].quantity - 1)
    ensures NonNegative(extras) ==> NonNegative(r)
  {
    var i := FindIndex(extras, id);
    if i < 0 || extras[i].quantity <= 0 then extras
    else
      var r := extras[i := extras[i].(quantity := extras[i].quantity - 1)];
      assert forall k :: IsFirstMatch(extras, id, k) ==> k == i by {
        forall k | IsFirstMatch(extras, id, k) ensures k == i {
          FirstMatchUnique(extras, id, i, k);
        }
      }
      r
  }

  /** With no negative quantity present, "-" undoes "+" for every id. */
  lemma DecrementUndoesIncrement(extras: seq<Extra>, id: int)
    requires NonNegative(extras)
    ensures DecrementExtra(IncrementExtra(extras, id), id) == extras
  {
    var up := IncrementExtra(extras, id);
    FindIndexSameIds(extras, up, id);
    var i := FindIndex(extras, id);
    if i >= 0 {
      var down := DecrementExtra(up, id);
      assert UpdatedAt(extras, up, i, extras[i].quantity + 1);
      assert IsFirstMatch(up, id, i);
      assert UpdatedAt(up, down, i, extras[i].quantity);
      assert down == extras;
    }
  }

  /** An extra whose quantity went below zero is stuck there: "+" then "-" does not return. */
  lemma NegativeQuantityBreaksRoundTrip()
    ensures var extras := [Extra(7, "bacon", 150, -1)];
            DecrementExtra(IncrementExtra(extras, 7), 7) != extras
  {
  }

  /** "+" undoes "-" whenever "-" actually changed something. */
  lemma IncrementUndoesDecrement(extras: seq<Extra>, id: int, i: int)
    requires IsFirstMatch(extras, id, i) && extras[i].quantity > 0
    ensures IncrementExtra(DecrementExtra(extras, id), id) == extras
  {
    var down := DecrementExtra(extras, id);
    assert IsFirstMatch(down, id, i);
    var up := IncrementExtra(down, id);
    assert UpdatedAt(down, up, i, extras[i].quantity);
    assert up == extras;
  }

  /** Pressing "-" of extra `id` `n` times. */
  function DecrementExtraTimes(extras: seq<Extra>, id: int, n: nat): seq<Extra>
    decreases n
  {
    if n == 0 then extras else DecrementExtraTimes(DecrementExtra(extras, id), id, n - 1)
  }

  /** "-" on an extra at zero changes nothing. */
  lemma DecrementExtraAtZero(extras: seq<Extra>, id: int, i: int)
    requires IsFirstMatch(extras, id, i) && extras[i].quantity == 0
    ensures DecrementExtra(extras, id) == extras
  {
  }

  /** Once an extra is at zero, any number of "-" presses leaves the whole list as it is. */
  lemma {:induction false} DecrementExtraTimesAtZero(extras: seq<Extra>, id: int, i: int, n: nat)
    requires IsFirstMatch(extras, id, i) && extras[i].quantity == 0
    ensures DecrementExtraTimes(extras, id, n) == extras
    decreases n
  {
    if n > 0 {
      DecrementExtraAtZero(extras, id, i);
      DecrementExtraTimesAtZero(extras, id, i, n - 1);
    }
  }

  /** The "+" button of the base item: no upper bound. */
  function IncrementFood(quantity: int): (r: int)
    ensures r > quantity
    ensures DecrementFood(r) == quantity || quantity < 1
  {
    quantity + 1
  }

  /** The "-" button of the base item: it never takes the quantity below 1. */
  function DecrementFood(quantity: int): (r: int)
    ensures quantity >= 1 ==> r >= 1
    ensures r <= quantity
    ensures r == quantity <==> quantity <= 1
  {
    if quantity > 1 then quantity - 1 else quantity
  }

  /** Pressing the base item's "-" `n` times. */
  function DecrementFoodTimes(quantity: int, n: nat): int
    decreases n
  {
    if n == 0 then quantity else DecrementFoodTimes(DecrementFood(quantity), n - 1)
  }

  lemma {:induction false} DecrementFoodTimesFloors(quantity: int, n: nat)
    requires quantity >= 1
    ensures DecrementFoodTimes(quantity, n) == Max(1, quantity - n)
    decreases n
  {
    if n > 0 {
      DecrementFoodTimesFloors(DecrementFood(quantity), n - 1);
    }
  }
}
