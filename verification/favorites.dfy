/** The favorite heart in the header: its initial state comes from the user's
    favorites list, and each press sends one request and flips the flag. */
module Favorites {
  import opened FoodTypes

  /** What a favorite entry carries: the food as the screen holds it, without
      its extras and display price. The load marks the held record with a base
      quantity of 1, and that mark travels with the entry. */
  datatype FavoriteEntry = FavoriteEntry(
    id: int,
    name: string,
    description: string,
    price: int,
    imageUrl: string,
    thumbnailUrl: string,
    foodQuantity: int)

  /** The base quantity the load writes on the held food record. */
  const LoadedFoodQuantity: int := 1

  /** The request a press of the heart sends. */
  datatype FavoriteRequest = RemoveFavorite(id: int) | AddFavorite(entry: FavoriteEntry)

  predicate Listed(favorites: seq<Food>, id: int) {
    exists k :: 0 <= k < |favorites| && favorites[k].id == id
  }

  /** The first favorite whose id is `id`, if any. */
  function FindFavorite(favorites: seq<Food>, id: int): (r: Option<Food>)
    ensures r.Some? <==> Listed(favorites, id)
    ensures r.Some? ==> r.value.id == id && r.value in favorites
    decreases |favorites|
  {
    if |favorites| == 0 then None
    else if favorites[0].id == id then Some(favorites[0])
    else
      var r := FindFavorite(favorites[1..], id);
      assert Listed(favorites[1..], id) ==> Listed(favorites, id) by {
        if Listed(favorites[1..], id) {
          var k :| 0 <= k < |favorites[1..]| && favorites[1..][k].id == id;
          assert favorites[k + 1].id == id;
        }
      }
      assert Listed(favorites, id) ==> Listed(favorites[1..], id) by {
        if Listed(favorites, id) {
          var k :| 0 <= k < |favorites| && favorites[k].id == id;
          assert favorites[1..][k - 1].id == id;
        }
      }
      r
  }

  /** The flag after the favorites list arrives: a match turns it on, and no
      match leaves it as it was. */
  function FlagAfterLoad(current: bool, favorites: seq<Food>, id: int): (r: bool)
    ensures r <==> current || Listed(favorites, id)
  {
    if FindFavorite(favorites, id).Some? then true else current
  }

  /** The request sent by a press of the heart while the flag is `isFavorite`. */
  function ToggleRequest(isFavorite: bool, food: Food): (r: FavoriteRequest)
    ensures r.RemoveFavorite? <==> isFavorite
    ensures r.RemoveFavorite? ==> r.id == food.id
    ensures r.AddFavorite? ==>
              r.entry.id == food.id && r.entry.name == food.name &&
              r.entry.description == food.description && r.entry.price == food.price &&
              r.entry.imageUrl == food.imageUrl && r.entry.thumbnailUrl == food.thumbnailUrl &&
              r.entry.foodQuantity == 1
  {
    if isFavorite then RemoveFavorite(food.id)
    else AddFavorite(FavoriteEntry(food.id, food.name, food.description, food.price,
                                   food.imageUrl, food.thumbnailUrl, LoadedFoodQuantity))
  }
}
