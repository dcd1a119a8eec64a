/** The Food Details screen as a state machine. Its state is what the screen
    holds between renders: the loaded food (nothing until the catalog
    answers), the extras with their chosen quantities, the base quantity and
    the favorite flag. Every user action and the load are events; the total,
    the order payload and the favorite request are derived from the state. */
module FoodDetails {
  import opened FoodTypes
  import opened Quantities
  import opened Pricing
  import opened OrderSnapshot
  import opened Favorites

  datatype Screen = Screen(
    food: Option<Food>,
    extras: seq<Extra>,
    foodQuantity: int,
    isFavorite: bool)

  /** The screen when it opens: no food yet, no extras, one base item, not a favorite. */
  const Initial: Screen := Screen(None, [], 1, false)

  datatype Event =
    | Loaded(loadedFood: Food, favorites: seq<Food>)
    | IncrementExtraPressed(extraId: int)
    | DecrementExtraPressed(extraId: int)
    | IncrementFoodPressed
    | DecrementFoodPressed
    | FavoritePressed

  /** The invariants the screen keeps: at least one base item, no negative extra. */
  predicate Valid(s: Screen) {
    s.foodQuantity >= 1 && NonNegative(s.extras)
  }

  /** The food's extras as the screen first shows them: everything else kept, quantity 0. */
  function FreshExtras(extras: seq<Extra>): (r: seq<Extra>)
    ensures |r| == |extras|
    ensures forall i :: 0 <= i < |r| ==> r[i] == extras[i].(quantity := 0)
    ensures NonNegative(r)
  {
    seq(|extras|, i requires 0 <= i < |extras| => extras[i].(quantity := 0))
  }

  /** The catalog and favorites answers arrive. The base quantity is not reset. */
  function Load(s: Screen, food: Food, favorites: seq<Food>): (r: Screen)
    ensures r.food == Some(food)
    ensures r.foodQuantity == s.foodQuantity
    ensures r.isFavorite <==> s.isFavorite || Listed(favorites, food.id)
    ensures SameIds(food.extras, r.extras)
    ensures forall i :: 0 <= i < |r.extras| ==> r.extras[i].quantity == 0
    ensures |r.extras| == |food.extras| &&
            forall i :: 0 <= i < |r.extras| ==> r.extras[i] == food.extras[i].(quantity := 0)
  {
    Screen(Some(food), FreshExtras(food.extras), s.foodQuantity,
           FlagAfterLoad(s.isFavorite, favorites, food.id))
  }

  function Step(s: Screen, e: Event): (r: Screen)
    ensures Valid(s) ==> Valid(r)
    ensures !e.Loaded? ==> r.food == s.food
    ensures (e.IncrementExtraPressed? || e.DecrementExtraPressed?) ==>
              SameIds(s.extras, r.extras) &&
              r.foodQuantity == s.foodQuantity && r.isFavorite == s.isFavorite
    ensures (e.IncrementFoodPressed? || e.DecrementFoodPressed?) ==>
              r.extras == s.extras && r.isFavorite == s.isFavorite
    ensures e.FavoritePressed? ==>
              r.isFavorite != s.isFavorite &&
              r.extras == s.extras && r.foodQuantity == s.foodQuantity
  {
    match e
    case Loaded(food, favorites) => Load(s, food, favorites)
    case IncrementExtraPressed(id) => s.(extras := IncrementExtra(s.extras, id))
    case DecrementExtraPressed(id) => s.(extras := DecrementExtra(s.extras, id))
    case IncrementFoodPressed => s.(foodQuantity := IncrementFood(s.foodQuantity))
    case DecrementFoodPressed => s.(foodQuantity := DecrementFood(s.foodQuantity))
    case FavoritePressed => s.(isFavorite := !s.isFavorite)
  }

  /** The screen after a sequence of events, in order. */
  function Run(s: Screen, events: seq<Event>): Screen
    decreases |events|
  {
    if |events| == 0 then s else Run(Step(s, events[0]), events[1..])
  }

  lemma {:induction false} RunPreservesValid(s: Screen, events: seq<Event>)
    requires Valid(s)
    ensures Valid(Run(s, events))
    decreases |events|
  {
    if |events| > 0 {
      RunPreservesValid(Step(s, events[0]), events[1..]);
    }
  }

  /** Whatever the user does, the screen never shows fewer than one base item
      or a negative extra. */
  lemma ReachableScreensAreValid(events: seq<Event>)
    ensures Run(Initial, events).foodQuantity >= 1
    ensures NonNegative(Run(Initial, events).extras)
  {
    RunPreservesValid(Initial, events);
  }

  /** The numeric total; nothing until the food has loaded. */
  function Total(s: Screen): (r: Option<int>)
    ensures r.Some? <==> s.food.Some?
    ensures r.Some? ==> r.value == (s.food.value.price + ExtrasSum(s.extras)) * s.foodQuantity
  {
    match s.food
    case None => None
    case Some(food) => Some(CartTotal(food.price, s.extras, s.foodQuantity))
  }

  /** The payload of "Confirmar pedido"; nothing until the food has loaded. */
  function FinishOrder(s: Screen): (r: Option<Order>)
    ensures r.Some? <==> s.food.Some?
    ensures r.Some? ==>
              r.value.productId == s.food.value.id &&
              r.value.foodQuantity == s.foodQuantity &&
              (forall e :: e in r.value.extras <==> e in s.extras && e.quantity > 0) &&
              SameCopiesOfPositive(r.value.extras, s.extras) &&
              Subsequence(r.value.extras, s.extras) &&
              Some(r.value.total) == Total(s)
    ensures r.Some? ==>
              r.value.name == s.food.value.name &&
              r.value.description == s.food.value.description &&
              r.value.price == s.food.value.price &&
              r.value.imageUrl == s.food.value.imageUrl &&
              r.value.thumbnailUrl == s.food.value.thumbnailUrl
  {
    match s.food
    case None => None
    case Some(food) => Some(BuildOrder(food, s.extras, s.foodQuantity))
  }

  /** The request a press of the heart sends; nothing until the food has loaded. */
  function FavoriteRequestOf(s: Screen): (r: Option<FavoriteRequest>)
    ensures r.Some? <==> s.food.Some?
    ensures r.Some? ==> (r.value.RemoveFavorite? <==> s.isFavorite)
    ensures r.Some? ==> r.value == ToggleRequest(s.isFavorite, s.food.value)
  {
    match s.food
    case None => None
    case Some(food) => Some(ToggleRequest(s.isFavorite, food))
  }

  /** Opening the screen and loading: the heart is on exactly when the food is
      among the favorites, and the total is the base price. */
  lemma FirstLoad(food: Food, favorites: seq<Food>)
    ensures var s := Step(Initial, Loaded(food, favorites));
            (s.isFavorite <==> Listed(favorites, food.id)) &&
            Total(s) == Some(food.price)
  {
    var s := Step(Initial, Loaded(food, favorites));
    ZeroQuantitiesAddNothing(s.extras);
  }

  /** A load at any point prices only the base item, times the quantity kept. */
  lemma LoadResetsTotal(s: Screen, food: Food, favorites: seq<Food>)
    ensures Total(Load(s, food, favorites)) == Some(food.price * s.foodQuantity)
  {
    ZeroQuantitiesAddNothing(Load(s, food, favorites).extras);
  }

  /** Two presses of the heart leave the screen as it was. */
  lemma FavoriteTwiceIsIdentity(s: Screen)
    ensures Run(s, [FavoritePressed, FavoritePressed]) == s
  {
  }

  /** On a valid screen, "+" then "-" of any extra leaves the screen as it was. */
  lemma ExtraPlusMinusIsIdentity(s: Screen, id: int)
    requires Valid(s)
    ensures Run(s, [IncrementExtraPressed(id), DecrementExtraPressed(id)]) == s
  {
    var events := [IncrementExtraPressed(id), DecrementExtraPressed(id)];
    var up := Step(s, events[0]);
    assert up == s.(extras := IncrementExtra(s.extras, id));
    var down := Step(up, events[1]);
    DecrementUndoesIncrement(s.extras, id);
    assert down == s;
    assert events[1..] == [events[1]];
    assert Run(up, events[1..]) == Run(down, []);
  }

  /** On a valid screen, "+" then "-" of the base item leaves the screen as it was. */
  lemma FoodPlusMinusIsIdentity(s: Screen)
    requires Valid(s)
    ensures Run(s, [IncrementFoodPressed, DecrementFoodPressed]) == s
  {
  }

  /** On a valid screen the posted total is the price of the posted lines alone. */
  lemma OrderChargesOnlyPostedExtras(s: Screen)
    requires Valid(s) && s.food.Some?
    ensures var o := FinishOrder(s).value;
            o.total == (o.price + ExtrasSum(o.extras)) * o.foodQuantity
  {
    assert FinishOrder(s).value == BuildOrder(s.food.value, s.extras, s.foodQuantity);
    OrderTotalMatchesItsLines(s.food.value, s.extras, s.foodQuantity);
  }
}
