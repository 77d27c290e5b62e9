/**
 * Models/Food.swift: the kinds of food that fall in the food-catching game,
 * which of them are edible, how a kind is drawn at random, the items on
 * screen, and the game's constants.
 *
 * Models/FoodItem.swift declares the same types again with other
 * constants; the constants are therefore a parameter of the engine, with
 * one value for each file. Times are in tenths of a second. An item's
 * screen position and its UUID are not modelled, except that the UUID is
 * the field `id`, supplied by the caller.
 */
module FoodModel {
  import opened Wrappers

  /** `FoodItemType`. */
  datatype FoodItemType = Mushroom | Berries | PoisonMushroom | Bacteria | Bacteria2

  /** `isEdible`. */
  predicate IsEdible(t: FoodItemType)
  {
    match t
    case Mushroom | Berries => true
    case PoisonMushroom | Bacteria | Bacteria2 => false
  }

  /** The food the game asks for is exactly the mushrooms and the berries. */
  lemma EdibleKinds(t: FoodItemType)
    ensures IsEdible(t) <==> t == Mushroom || t == Berries
  {
  }

  /** The list `randomType` draws from. */
  const Types: seq<FoodItemType> := [Mushroom, Berries, PoisonMushroom, Bacteria, Bacteria2]

  /** `randomElement()`: none from an empty list, otherwise the element `draw` picks. */
  function RandomElement(types: seq<FoodItemType>, draw: nat): (r: Option<FoodItemType>)
    ensures r.None? <==> |types| == 0
    ensures r.Some? ==> r.value in types
  {
    if |types| == 0 then None else Some(types[draw % |types|])
  }

  /** `randomType`: the drawn element, or a mushroom if the draw found none. */
  function RandomType(draw: nat): FoodItemType
  {
    match RandomElement(Types, draw)
    case Some(t) => t
    case None => Mushroom
  }

  /**
   * The fallback of `randomType` is never used, since the list is not
   * empty; every kind can be drawn.
   */
  lemma RandomTypeDraws(draw: nat)
    ensures RandomElement(Types, draw).Some?
    ensures RandomType(draw) == Types[draw % 5]
    ensures RandomType(draw) in Types
  {
  }

  /** Each kind is drawn by its index in the list. */
  lemma EveryKindDrawn(t: FoodItemType)
    ensures RandomType(match t
      case Mushroom => 0
      case Berries => 1
      case PoisonMushroom => 2
      case Bacteria => 3
      case Bacteria2 => 4) == t
  {
  }

  /** `FoodItem`, without its position. */
  datatype FoodItem = FoodItem(id: nat, itemType: FoodItemType, isEnabled: bool)

  /** A new item: every item starts enabled. */
  function NewItem(id: nat, t: FoodItemType): (item: FoodItem)
    ensures item.isEnabled && item.id == id && item.itemType == t
  {
    FoodItem(id, t, true)
  }

  /** `FoodGameState`. */
  datatype GameState = Initial | Countdown(n: int) | Playing | Paused | Finished(success: bool)

  /**
   * The constants the engine reads: the game's length in tenths of a
   * second, the food needed to win, and the cap on items generated.
   */
  datatype FoodConstants = FoodConstants(gameDuration: int, requiredFoodCount: int, maxFallingItems: int)

  /** The values of Models/Food.swift: 30 s, 10 items, 45 items at most. */
  const FoodSwiftConstants := FoodConstants(300, 10, 45)

  /** The values of Models/FoodItem.swift: 25 s, 10 items, 40 items at most. */
  const FoodItemSwiftConstants := FoodConstants(250, 10, 40)

  /** What the engine needs of its constants: a game lasts at least a tenth of a second. */
  predicate ValidConstants(c: FoodConstants)
  {
    c.gameDuration >= 1 && c.maxFallingItems >= 0
  }

  /** Both files' constants suit the engine, and both ask for ten items. */
  lemma SwiftConstantsValid()
    ensures ValidConstants(FoodSwiftConstants) && ValidConstants(FoodItemSwiftConstants)
    ensures FoodSwiftConstants.requiredFoodCount == FoodItemSwiftConstants.requiredFoodCount == 10
  {
  }

  /** The first item with the given id, if any: `firstIndex(where: { $0.id == id })`. */
  function FindItem(items: seq<FoodItem>, id: nat): (r: Option<nat>)
    ensures r.Some? ==> r.value < |items| && items[r.value].id == id
    ensures r.Some? ==> forall j :: 0 <= j < r.value ==> items[j].id != id
    ensures r.None? ==> forall j :: 0 <= j < |items| ==> items[j].id != id
    decreases |items|
  {
    if |items| == 0 then None
    else
      var r := FindItem(items[..|items| - 1], id);
      if r.Some? then r
      else if items[|items| - 1].id == id then Some(|items| - 1)
      else None
  }

  /**
   * The last step of `tapItem`: the first item with the tapped item's id,
   * if any, is disabled; everything else is kept.
   */
  function DisableItem(items: seq<FoodItem>, id: nat): (r: seq<FoodItem>)
    ensures |r| == |items|
    ensures forall k :: 0 <= k < |items| ==> r[k].id == items[k].id && r[k].itemType == items[k].itemType
    ensures forall k :: 0 <= k < |items| ==>
      r[k].isEnabled == (items[k].isEnabled && FindItem(items, id) != Some(k))
  {
    match FindItem(items, id)
    case Some(i) => items[i := items[i].(isEnabled := false)]
    case None => items
  }

  /** After a tap, an item with the tapped id is disabled, and no item is enabled that was not before. */
  lemma DisableItemDisables(items: seq<FoodItem>, id: nat)
    ensures (exists k :: 0 <= k < |items| && items[k].id == id) ==>
      exists k :: 0 <= k < |items| && DisableItem(items, id)[k].id == id && !DisableItem(items, id)[k].isEnabled
    ensures forall k :: 0 <= k < |items| && DisableItem(items, id)[k].isEnabled ==> items[k].isEnabled
  {
    var r := FindItem(items, id);
    if r.Some? {
      assert DisableItem(items, id)[r.value].id == id;
    }
  }
}
