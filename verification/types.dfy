/** Records the Food Details screen works on: the menu item, its optional
    extras, and the option type used where the screen may hold nothing yet.
    Prices are integers in the currency's minor unit (cents). */
module FoodTypes {

  datatype Option<+T> = None | Some(value: T)

  /** One optional add-on of a food item. `value` is its unit price,
      `quantity` how many the user has chosen on this visit. */
  datatype Extra = Extra(id: int, name: string, value: int, quantity: int)

  /** A menu item as fetched from the catalog, with its owned extras. */
  datatype Food = Food(
    id: int,
    name: string,
    description: string,
    price: int,
    imageUrl: string,
    thumbnailUrl: string,
    extras: seq<Extra>)

  /** No extra holds a negative quantity. */
  predicate NonNegative(extras: seq<Extra>) {
    forall i :: 0 <= i < |extras| ==> extras[i].quantity >= 0
  }

  /** `b` lists extras with the same ids as `a`, in the same positions. */
  predicate SameIds(a: seq<Extra>, b: seq<Extra>) {
    |a| == |b| && forall i :: 0 <= i < |a| ==> a[i].id == b[i].id
  }

  function Max(a: int, b: int): int {
    if a >= b then a else b
  }
}
