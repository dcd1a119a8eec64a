# Food Details order logic, in Dafny

This project models the order-building logic of the Food Details screen of a
food-ordering mobile app. On this screen the user picks a quantity for the
menu item ("base quantity") and for each optional extra. The screen shows a
running total, lets the user mark the item as a favorite, and finally posts
an order. The React handlers and memos of the screen become pure functions
over an immutable `Screen` record:

- `FoodTypes` (types.dfy): the `Extra` and `Food` records and `Option`.
- `Quantities` (quantities.dfy): the +/- buttons of each extra and of the
  base item. An extra is found with a first-match search by id. An unknown id
  changes nothing. "-" on an extra stops at 0. "-" on the base item stops at 1.
- `Pricing` (pricing.dfy): the cart total
  `(price + Σ value × quantity) × baseQuantity`. It is computed the way the
  screen does it, with a left-to-right reduce from 0, and proved equal to the
  plain sum.
- `OrderSnapshot` (order.dfy): the order payload. It keeps only the extras
  with a quantity above zero, in their original order. The food id goes into
  `productId`, and the payload also carries the base quantity and the total.
- `Favorites` (favorites.dfy): the favorite flag set at load time by looking
  the food's id up in the favorites list, and the add/remove request one
  press of the heart sends.
- `FoodDetails` (food_details.dfy): the screen as a state machine. Its events
  are the load and every button press. The total, the order and the favorite
  request are derived from the state. The lemmas here cover every reachable
  screen: base quantity ≥ 1, extras never negative, and "+" followed by "-"
  or two heart presses leave the screen unchanged.

Money is modelled as integers in the currency's minor unit (cents). The
source uses JavaScript doubles.

Three behaviours come from the code rather than from a reading of the
screen's intent. The model keeps them as written:

- Loading can only turn the favorite flag on. If the favorites list lacks the
  food, the flag keeps its previous value. From a freshly opened screen this
  amounts to membership (`FoodDetails.FirstLoad`). A second load, after the
  route parameters change, could leave a stale `true` (`Favorites.FlagAfterLoad`).
- Loading resets every extra to quantity 0 but does not reset the base quantity.
- The payload's extras are a sequence here. The source spreads the filtered
  array into an object keyed by index (`{ ...extrasFiltered }`), so the
  service receives `{"0": …, "1": …}` rather than a list.

## Model

| member | source | states |
|---|---|---|
| Quantities.FindIndex | src/pages/FoodDetails/index.tsx:116-119 | returns -1 exactly when no extra has the id; otherwise the index of the first extra with that id |
| Quantities.FindIndexSameIds | src/pages/FoodDetails/index.tsx:116 | the search depends only on the ids, so two lists with the same ids in the same positions give the same index |
| Quantities.IncrementExtra | src/pages/FoodDetails/index.tsx:115-127 | an unknown id leaves the list unchanged; otherwise the first extra with the id gains exactly 1 and length, order, ids and every other entry stay as they were; no quantity becomes negative |
| Quantities.DecrementExtra | src/pages/FoodDetails/index.tsx:129-145 | an unknown id, or a first match with quantity ≤ 0, leaves the list unchanged; otherwise that entry loses exactly 1 and nothing else changes; non-negative lists stay non-negative |
| Quantities.DecrementUndoesIncrement | src/pages/FoodDetails/index.tsx:115-145 | on a list with no negative quantity, "+" then "-" of any id (present or not) restores the original list |
| Quantities.NegativeQuantityBreaksRoundTrip | src/pages/FoodDetails/index.tsx:136-138 | the round trip needs non-negative quantities: at -1, "+" reaches 0 and "-" then does nothing |
| Quantities.IncrementUndoesDecrement | src/pages/FoodDetails/index.tsx:115-145 | when "-" actually lowered an extra, "+" restores the original list |
| Quantities.DecrementExtraTimesAtZero | src/pages/FoodDetails/index.tsx:135-138 | once the matching extra is at 0, any number of "-" presses leaves the whole list unchanged |
| Quantities.IncrementFood | src/pages/FoodDetails/index.tsx:147-149 | the base quantity always grows (no upper bound), and "-" afterwards undoes it for any quantity ≥ 1 |
| Quantities.DecrementFood | src/pages/FoodDetails/index.tsx:151-153 | never lowers a quantity ≥ 1 below 1; never raises it; leaves it unchanged exactly when it is ≤ 1 |
| Quantities.DecrementFoodTimesFloors | src/pages/FoodDetails/index.tsx:151-153 | n presses of "-" from q ≥ 1 give max(1, q - n) |
| Pricing.ReduceLinesIsSum | src/pages/FoodDetails/index.tsx:169-172 | the left-to-right reduce of value × quantity from an accumulator equals the accumulator plus the sum over the list |
| Pricing.CartTotal | src/pages/FoodDetails/index.tsx:168-177 | the numeric total equals (price + Σ value × quantity) × base quantity, the sum over no extras being 0 |
| Pricing.ExtrasSumAppend | src/pages/FoodDetails/index.tsx:169-172 | the extras' price of two lists together is the sum of their prices |
| Pricing.ExtrasSumUpdate | src/pages/FoodDetails/index.tsx:169-172 | changing one line's quantity changes the extras' price by exactly that line's difference |
| Pricing.IncrementExtraAddsValue | src/pages/FoodDetails/index.tsx:115-127 | "+" on a listed extra raises the extras' price by exactly that extra's value |
| Pricing.DecrementExtraSubtractsValue | src/pages/FoodDetails/index.tsx:129-145 | "-" on a listed extra with a positive quantity lowers the extras' price by exactly that extra's value |
| Pricing.ZeroQuantitiesAddNothing | src/pages/FoodDetails/index.tsx:97-100 | extras as freshly loaded, all at quantity 0, add nothing to the price |
| Pricing.IncrementExtraRaisesTotal | src/pages/FoodDetails/index.tsx:115-127 | "+" on a listed extra raises the total by that extra's value times the base quantity |
| Pricing.DecrementExtraLowersTotal | src/pages/FoodDetails/index.tsx:129-145 | "-" on a listed extra with a positive quantity lowers the total by that extra's value times the base quantity |
| Pricing.WorkedTotal | src/pages/FoodDetails/index.tsx:168-177 | price 10.00 plus one 2.00 extra chosen three times, ordered twice, totals 32.00 |
| OrderSnapshot.PositiveExtras | src/pages/FoodDetails/index.tsx:180 | every kept extra has quantity > 0; an extra is kept exactly when it is in the list with quantity > 0; each extra with quantity > 0 is kept as many times as it occurs and no other extra is kept; the kept extras are a subsequence (original relative order) |
| OrderSnapshot.PositiveExtrasAppend | src/pages/FoodDetails/index.tsx:180 | filtering a concatenation is the concatenation of the filtered parts |
| OrderSnapshot.PositiveExtrasIdempotent | src/pages/FoodDetails/index.tsx:180 | filtering twice is filtering once |
| OrderSnapshot.PositiveExtrasKeepsAllPositive | src/pages/FoodDetails/index.tsx:180 | a list whose quantities are all positive passes the filter unchanged |
| OrderSnapshot.PositiveExtrasKeepsSum | src/pages/FoodDetails/index.tsx:180-186 | with no negative quantity, the filtered extras cost the same as all extras |
| OrderSnapshot.BuildOrder | src/pages/FoodDetails/index.tsx:179-188 | the payload's productId is the food id, its base quantity the current one, its descriptive fields the food's, its extras exactly the positive ones, each as many times as it occurs, in order, its total the cart total |
| OrderSnapshot.OrderTotalMatchesItsLines | src/pages/FoodDetails/index.tsx:179-188 | with no negative quantity, the posted total is the price of the posted lines alone |
| OrderSnapshot.WorkedFilter | src/pages/FoodDetails/index.tsx:180 | extras 1 at quantity 0 and 2 at quantity 2 post only extra 2 |
| Favorites.FindFavorite | src/pages/FoodDetails/index.tsx:90-92 | finds an entry exactly when some favorite has the food's id, and what it finds has that id and is in the list |
| Favorites.FlagAfterLoad | src/pages/FoodDetails/index.tsx:88-95 | after the favorites list arrives the flag is on exactly when it was on before or the list holds the food's id |
| Favorites.ToggleRequest | src/pages/FoodDetails/index.tsx:155-164 | a press removes the favorite by id exactly when the flag is on; otherwise it adds an entry carrying the food's fields without its extras, with the base quantity 1 the load marked on the food |
| FoodDetails.FreshExtras | src/pages/FoodDetails/index.tsx:97-100 | loaded extras keep every field and position but start at quantity 0 |
| FoodDetails.Load | src/pages/FoodDetails/index.tsx:83-113 | after loading, the food is held, its extras keep every field and position but are all at 0, the base quantity is kept, and the flag is on exactly when it was or the favorites list holds the food |
| FoodDetails.Step | src/pages/FoodDetails/index.tsx:115-166 | every event keeps the invariants (base quantity ≥ 1, extras non-negative); extra buttons change only the extras and keep their ids; base buttons change only the base quantity; the heart flips only the flag |
| FoodDetails.RunPreservesValid | src/pages/FoodDetails/index.tsx:115-166 | any sequence of events from a valid screen ends in a valid screen |
| FoodDetails.ReachableScreensAreValid | src/pages/FoodDetails/index.tsx:72-76 | from the screen as it opens (quantity 1, no extras), every reachable screen has base quantity ≥ 1 and no negative extra |
| FoodDetails.Total | src/pages/FoodDetails/index.tsx:168-177 | no total before the food loads; afterwards (price + Σ value × quantity) × base quantity |
| FoodDetails.FinishOrder | src/pages/FoodDetails/index.tsx:179-188 | once loaded, the order carries the food id as productId, the food's name, description, price and image URLs, the current base quantity, exactly the positive extras (each as many times as it occurs) in order, and the displayed total |
| FoodDetails.FavoriteRequestOf | src/pages/FoodDetails/index.tsx:155-164 | once loaded, a press sends a removal of the food's id exactly when the flag is on, and otherwise adds an entry with the food's fields and base quantity 1 |
| FoodDetails.FirstLoad | src/pages/FoodDetails/index.tsx:83-113 | loading a freshly opened screen turns the flag on exactly when the favorites hold the food's id, and the total is the base price |
| FoodDetails.LoadResetsTotal | src/pages/FoodDetails/index.tsx:97-109 | after any load the total is the price times the kept base quantity |
| FoodDetails.FavoriteTwiceIsIdentity | src/pages/FoodDetails/index.tsx:155-166 | two presses of the heart leave the screen as it was |
| FoodDetails.ExtraPlusMinusIsIdentity | src/pages/FoodDetails/index.tsx:115-145 | on a valid screen, "+" then "-" of any extra leaves the screen as it was |
| FoodDetails.FoodPlusMinusIsIdentity | src/pages/FoodDetails/index.tsx:147-153 | on a valid screen, "+" then "-" of the base item leaves the screen as it was |
| FoodDetails.OrderChargesOnlyPostedExtras | src/pages/FoodDetails/index.tsx:179-188 | on a valid loaded screen the posted total is the price of the posted lines alone |

## Left out

- Network calls (fetching the food and the favorites, adding or removing a
  favorite, posting the order) are not modelled as I/O. The fetched data is
  an event argument (`Loaded`), and the outgoing requests are values derived
  from the state (`FavoriteRequestOf`, `FinishOrder`). Failed requests are not
  modelled; the source does not handle them either.
- `formatValue`, the currency formatting of the total, is not part of this
  model. Totals stay numeric.
- JavaScript floating-point arithmetic on prices is modelled as exact integer
  arithmetic in cents. Rounding of the double-precision sum is not modelled.
  Quantities are JavaScript numbers too, exact only below 2^53; the model's
  quantities are unbounded integers.
- Quantities.IncrementFood: "the quantity always grows" holds in the source
  only while the quantity stays below 2^53, where adding 1 to a double stops
  changing it.
- The in-place mutation and aliasing of the extra objects in the two extra
  handlers are modelled as pure sequence updates. The resulting list is the
  same.
- The `{ ...extrasFiltered }` spread that turns the order's extras into an
  index-keyed object is modelled as a sequence.
- The order payload omits `formattedPrice` as a string. Its numeric value is
  `total`. The `'food-quantity': 1` the load puts on the food record is
  overwritten in the order payload by the current base quantity. The
  favorite entry keeps it (`Favorites.FavoriteEntry.foodQuantity`).
- FoodDetails.FinishOrder: before the food loads it returns nothing. The
  source would post a payload whose food fields (product id, name,
  description, price, image URLs) are undefined. Its `'food-quantity'` would
  be the current base quantity, its extras `{}`, and its `formattedPrice`
  the formatting of NaN.
- FoodDetails.FavoriteRequestOf: before the food loads it returns nothing,
  whereas the source would send a request carrying an undefined id.
- FoodDetails.Total: before the food loads it returns nothing, whereas the
  source would display the formatting of NaN.
- React hooks and memo dependencies, rendering, the header icon, and the
  navigation calls are not modelled. Neither are the `isLoading` overlay and
  the 2-second timer before navigating to the main screen. These are UI,
  timer and navigation wiring, not order logic.
- Concurrency between pending requests and user presses is not modelled.
  Each event is atomic, and the two fetches of a load form a single event.
  This matches the screen only when each request completes before the next
  press. The heart handler reads the flag it captured and flips it only after
  its request returns, so a second press while the first request is pending
  sends the same request again (two adds, not an add then a remove).
- Quantities.DecrementExtraTimesAtZero: it covers repeated "-" only from
  quantity 0. For extras, the general statement that n presses from q give
  max(0, q - n) is proved only one press at a time (`DecrementExtra`). The
  base-item version, max(1, q - n), is proved by `DecrementFoodTimesFloors`.
