/** What the wellness shop and the food ordering page add on top of the
    shared cart: the category filter over their catalogues, the shop's
    reward redemption, and the restaurant tag of a food line. */
module Shops {
  import opened Common
  import opened CartLines

  /** The category a page starts on. */
  const ShopStartCategory := "all"
  const FoodStartCategory := "comfort"

  /** `filteredProducts` and `filteredRestaurants`: `all`, or the entries
      of exactly the selected category, in catalogue order. */
  function ByCategory<T(!new)>(items: seq<T>, category: T -> string, selected: string): (r: seq<T>)
    ensures Subsequence(r, items)
    ensures selected == "all" ==> r == items
    ensures selected != "all" ==> forall i :: 0 <= i < |r| ==> category(r[i]) == selected
    ensures forall i :: 0 <= i < |items| && category(items[i]) == selected ==> items[i] in r
    ensures forall x :: multiset(r)[x]
                        == (if selected == "all" || category(x) == selected then multiset(items)[x] else 0)
  {
    var keep := (x: T) => selected == "all" || category(x) == selected;
    FilterMultiset(items, keep);
    if selected == "all" then
      FilterAll(items, keep);
      Filter(items, keep)
    else Filter(items, keep)
  }

  // ---------------------------------------------------------------------
  // The wellness shop

  /** The shop's balance: a constant state that nothing updates. */
  const MoodPoints := 1247

  datatype Reward = Reward(id: string, pointsCost: int)

  const Rewards := [Reward("reward1", 200), Reward("reward2", 150),
                    Reward("reward3", 500), Reward("reward4", 100)]

  /** The redeem button is enabled exactly when the balance covers the cost. */
  predicate CanRedeem(points: int, r: Reward) {
    points >= r.pointsCost
  }

  /** With the fixed balance every listed reward can be redeemed, and a
      reward is redeemable at a balance iff it is at every higher one. */
  lemma RewardsRedeemable(r: Reward, more: int)
    ensures forall i :: 0 <= i < |Rewards| ==> CanRedeem(MoodPoints, Rewards[i])
    ensures more >= 0 && CanRedeem(MoodPoints, r) ==> CanRedeem(MoodPoints + more, r)
    ensures CanRedeem(MoodPoints, r) <==> r.pointsCost <= 1247
  {
  }

  /** `addToCart` of the shop: the product itself is the line. */
  function AddProduct<P>(c: Cart<P>, id: int, product: P): (r: Cart<P>)
    requires WellFormed(c)
    ensures WellFormed(r) && Items(r) == Items(c) + 1
    ensures Quantity(r, id) == Quantity(c, id) + 1
  {
    AddEffect(c, id, product);
    Add(c, id, product)
  }

  // ---------------------------------------------------------------------
  // The food ordering page

  /** A menu item spread into a line together with its restaurant. */
  datatype Tagged<I> = Tagged(item: I, restaurantName: string, restaurantId: int)

  /** `addToCart(item, restaurant)`: the merge is by item id alone, so an
      existing line keeps the restaurant it was first added from. */
  function AddFood<I>(c: Cart<Tagged<I>>, itemId: int, item: I, restaurantName: string, restaurantId: int)
    : (r: Cart<Tagged<I>>)
    ensures Has(c, itemId) ==>
              |r| == |c| && forall i :: 0 <= i < |c| ==> r[i].id == c[i].id && r[i].info == c[i].info
    ensures !Has(c, itemId) ==>
              r == c + [Line(itemId, Tagged(item, restaurantName, restaurantId), 1)]
  {
    var r := Add(c, itemId, Tagged(item, restaurantName, restaurantId));
    if Has(c, itemId) then
      assert r == Increment(c, itemId);
      r
    else r
  }

  /** Ordering an item with the same id from a second restaurant only
      raises the quantity of the first restaurant's line. */
  lemma SameIdOtherRestaurant<I>(c: Cart<Tagged<I>>, itemId: int, item: I, name1: string, id1: int,
                                 item2: I, name2: string, id2: int)
    requires WellFormed(c) && !Has(c, itemId)
    ensures var once := AddFood(c, itemId, item, name1, id1);
            var twice := AddFood(once, itemId, item2, name2, id2);
            && |twice| == |c| + 1
            && twice[|c|] == Line(itemId, Tagged(item, name1, id1), 2)
  {
    var once := AddFood(c, itemId, item, name1, id1);
    assert once[|c|].id == itemId;
    var twice := AddFood(once, itemId, item2, name2, id2);
    assert twice == Increment(once, itemId);
  }
}
