/** The shopping cart shared by the wellness shop and the food ordering
    page: lines merged by item id, quantities changed by a signed step and
    clamped at zero, empty lines dropped. `T` is whatever the line copies
    from the catalogue entry (the product, or the menu item tagged with its
    restaurant). */
module CartLines {
  import opened Common

  datatype Line<T> = Line(id: int, info: T, quantity: int)

  type Cart<T> = seq<Line<T>>

  /** Some line carries `id` (`cart.find(item => item.id === id)` succeeds). */
  predicate Has<T>(c: Cart<T>, id: int) {
    exists i :: 0 <= i < |c| && c[i].id == id
  }

  /** Line ids are distinct. */
  predicate DistinctIds<T>(c: Cart<T>) {
    forall i, j :: 0 <= i < j < |c| ==> c[i].id != c[j].id
  }

  /** What every cart operation keeps: distinct ids, no empty line. */
  predicate WellFormed<T>(c: Cart<T>) {
    DistinctIds(c) && forall i :: 0 <= i < |c| ==> c[i].quantity >= 1
  }

  /** The quantity shown for `id`: that of the first line carrying it, or 0. */
  function Quantity<T>(c: Cart<T>, id: int): int {
    if c == [] then 0
    else if c[0].id == id then c[0].quantity
    else Quantity(c[1..], id)
  }

  /** `cartItems`: the sum of the line quantities. */
  function Items<T>(c: Cart<T>): int {
    if c == [] then 0 else c[0].quantity + Items(c[1..])
  }

  // ---------------------------------------------------------------------
  // The operations

  /** The `map` of `addToCart` when the item is already there: every line
      with that id gets one more, keeping all its other fields. */
  function Increment<T>(c: Cart<T>, id: int): (r: Cart<T>)
    ensures |r| == |c|
    ensures forall i :: 0 <= i < |c| ==> r[i].id == c[i].id && r[i].info == c[i].info
    ensures forall i :: 0 <= i < |c| ==>
              r[i].quantity == (if c[i].id == id then c[i].quantity + 1 else c[i].quantity)
  {
    if c == [] then []
    else [if c[0].id == id then c[0].(quantity := c[0].quantity + 1) else c[0]] + Increment(c[1..], id)
  }

  /** `addToCart`: merge into the existing line, or append a line of one. */
  function Add<T>(c: Cart<T>, id: int, info: T): (r: Cart<T>)
    ensures Has(c, id) ==> |r| == |c| && forall i :: 0 <= i < |c| ==> r[i].info == c[i].info
    ensures !Has(c, id) ==> r == c + [Line(id, info, 1)]
    ensures Has(r, id)
  {
    if Has(c, id) then
      var i :| 0 <= i < |c| && c[i].id == id;
      var r := Increment(c, id);
      assert r[i].id == id;
      r
    else
      var r := c + [Line(id, info, 1)];
      assert r[|c|].id == id;
      r
  }

  /** The `map` of `updateQuantity`: the line with that id moves by
      `change`, clamped at zero by `Math.max(0, …)`. */
  function Bump<T>(c: Cart<T>, id: int, change: int): (r: Cart<T>)
    ensures |r| == |c|
    ensures forall i :: 0 <= i < |c| ==> r[i].id == c[i].id && r[i].info == c[i].info
    ensures forall i :: 0 <= i < |c| ==>
              r[i].quantity == (if c[i].id == id then Max0(c[i].quantity + change) else c[i].quantity)
  {
    if c == [] then []
    else [if c[0].id == id then c[0].(quantity := Max0(c[0].quantity + change)) else c[0]]
         + Bump(c[1..], id, change)
  }

  function Max0(n: int): (r: nat)
    ensures r >= n && (r == 0 || r == n)
  {
    if n > 0 then n else 0
  }

  /** The `filter` of `updateQuantity`: keep the lines above zero. */
  function DropEmpty<T>(c: Cart<T>): Cart<T> {
    Filter(c, Occupied)
  }

  predicate Occupied<T>(l: Line<T>) {
    l.quantity > 0
  }

  /** `updateQuantity`: move the line, then drop every line at zero. */
  function UpdateQuantity<T>(c: Cart<T>, id: int, change: int): (r: Cart<T>)
    ensures forall i :: 0 <= i < |r| ==> r[i].quantity > 0
    ensures !Has(c, id) && WellFormed(c) ==> r == c
  {
    var r := DropEmpty(Bump(c, id, change));
    if !Has(c, id) && WellFormed(c) then
      assert Bump(c, id, change) == c;
      FilterAll(c, Occupied);
      r
    else r
  }

  /** `removeFromCart`: drop the line with that id. */
  function Remove<T>(c: Cart<T>, id: int): (r: Cart<T>)
    ensures !Has(r, id)
    ensures Subsequence(r, c)
    ensures forall i :: 0 <= i < |c| && c[i].id != id ==> c[i] in r
  {
    var r := Filter(c, (l: Line<T>) => l.id != id);
    assert forall i :: 0 <= i < |r| ==> r[i].id != id;
    r
  }

  // ---------------------------------------------------------------------
  // General facts about quantities

  lemma {:induction false} QuantityAt<T>(c: Cart<T>, i: int)
    requires DistinctIds(c) && 0 <= i < |c|
    ensures Quantity(c, c[i].id) == c[i].quantity
  {
    if i > 0 {
      assert c[0].id != c[i].id;
      QuantityAt(c[1..], i - 1);
    }
  }

  lemma {:induction false} QuantityAbsent<T>(c: Cart<T>, id: int)
    requires !Has(c, id)
    ensures Quantity(c, id) == 0
  {
    if c != [] {
      QuantityAbsent(c[1..], id);
    }
  }

  /** Two carts whose lines carry the same ids and agree on the quantity
      of every line other than `id` show the same quantity for any other id. */
  lemma SameQuantities<T>(c: Cart<T>, r: Cart<T>, id: int, o: int)
    requires DistinctIds(c) && DistinctIds(r) && o != id
    requires |r| == |c| && forall i :: 0 <= i < |c| ==> r[i].id == c[i].id
    requires forall i :: 0 <= i < |c| && c[i].id != id ==> r[i].quantity == c[i].quantity
    ensures Quantity(r, o) == Quantity(c, o)
  {
    if i :| 0 <= i < |c| && c[i].id == o {
      QuantityAt(c, i);
      QuantityAt(r, i);
    } else {
      QuantityAbsent(c, o);
      QuantityAbsent(r, o);
    }
  }

  lemma {:induction false} ItemsAppend<T>(a: Cart<T>, b: Cart<T>)
    ensures Items(a + b) == Items(a) + Items(b)
  {
    if a == [] {
      assert a + b == b;
    } else {
      assert (a + b)[1..] == a[1..] + b;
      ItemsAppend(a[1..], b);
    }
  }

  /** A subsequence of a cart with distinct ids has distinct ids. */
  lemma {:induction false} SubsequenceDistinct<T>(r: Cart<T>, c: Cart<T>)
    requires Subsequence(r, c) && DistinctIds(c)
    ensures DistinctIds(r)
    ensures forall i :: 0 <= i < |r| ==> r[i] in c
    decreases |c|
  {
    if r != [] {
      if r[0] == c[0] && Subsequence(r[1..], c[1..]) {
        SubsequenceDistinct(r[1..], c[1..]);
        forall j | 0 < j < |r|
          ensures r[0].id != r[j].id
        {
          assert r[1..][j - 1] == r[j];
          var k :| 0 <= k < |c[1..]| && c[1..][k] == r[j];
          assert c[k + 1] == r[j];
        }
        assert forall i :: 0 < i < |r| ==> r[i] == r[1..][i - 1];
      } else {
        SubsequenceDistinct(r, c[1..]);
      }
    }
  }

  // ---------------------------------------------------------------------
  // What each operation does to a well-formed cart

  /** `addToCart` keeps the cart well formed, raises the added item's
      quantity and `cartItems` by exactly one, and leaves every other
      item's quantity alone. */
  lemma AddEffect<T>(c: Cart<T>, id: int, info: T)
    requires WellFormed(c)
    ensures WellFormed(Add(c, id, info))
    ensures Quantity(Add(c, id, info), id) == Quantity(c, id) + 1
    ensures forall o :: o != id ==> Quantity(Add(c, id, info), o) == Quantity(c, o)
    ensures Items(Add(c, id, info)) == Items(c) + 1
  {
    var r := Add(c, id, info);
    if Has(c, id) {
      var i :| 0 <= i < |c| && c[i].id == id;
      QuantityAt(c, i);
      QuantityAt(r, i);
      forall o | o != id
        ensures Quantity(r, o) == Quantity(c, o)
      {
        SameQuantities(c, r, id, o);
      }
      ItemsIncrement(c, id);
    } else {
      QuantityAbsent(c, id);
      QuantityAt(r, |c|);
      forall o | o != id
        ensures Quantity(r, o) == Quantity(c, o)
      {
        if i :| 0 <= i < |c| && c[i].id == o {
          QuantityAt(c, i);
          QuantityAt(r, i);
        } else {
          QuantityAbsent(c, o);
          QuantityAbsent(r, o);
        }
      }
      ItemsAppend(c, [Line(id, info, 1)]);
    }
  }

  lemma IncrementAbsent<T>(c: Cart<T>, id: int)
    requires !Has(c, id)
    ensures Increment(c, id) == c
  {
    var r := Increment(c, id);
    assert forall i :: 0 <= i < |c| ==> r[i] == c[i];
  }

  lemma BumpAbsent<T>(c: Cart<T>, id: int, change: int)
    requires !Has(c, id)
    ensures Bump(c, id, change) == c
  {
    var r := Bump(c, id, change);
    assert forall i :: 0 <= i < |c| ==> r[i] == c[i];
  }

  lemma {:induction false} ItemsIncrement<T>(c: Cart<T>, id: int)
    requires DistinctIds(c) && Has(c, id)
    ensures Items(Increment(c, id)) == Items(c) + 1
  {
    var r := Increment(c, id);
    assert r[1..] == Increment(c[1..], id);
    if c[0].id == id {
      assert !Has(c[1..], id);
      IncrementAbsent(c[1..], id);
    } else {
      Tail(c, id);
      ItemsIncrement(c[1..], id);
    }
  }

  /** `updateQuantity` keeps the cart well formed; the line moves to
      `max(0, q + change)` (gone at zero), every other line keeps its
      quantity, and `cartItems` moves by the same amount. */
  lemma UpdateEffect<T>(c: Cart<T>, id: int, change: int)
    requires WellFormed(c) && Has(c, id)
    ensures WellFormed(UpdateQuantity(c, id, change))
    ensures Quantity(UpdateQuantity(c, id, change), id) == Max0(Quantity(c, id) + change)
    ensures forall o :: o != id ==> Quantity(UpdateQuantity(c, id, change), o) == Quantity(c, o)
    ensures Items(UpdateQuantity(c, id, change))
            == Items(c) - Quantity(c, id) + Max0(Quantity(c, id) + change)
  {
    var b := Bump(c, id, change);
    var r := DropEmpty(b);
    assert DistinctIds(b);
    SubsequenceDistinct(r, b);
    UpdateOwnLine(c, id, change);
    forall o | o != id
      ensures Quantity(r, o) == Quantity(c, o)
    {
      UpdateOtherLine(c, id, change, o);
    }
    ItemsBump(c, id, change);
    ItemsDropEmpty(b);
  }

  lemma UpdateOwnLine<T>(c: Cart<T>, id: int, change: int)
    requires WellFormed(c) && Has(c, id)
    ensures Quantity(UpdateQuantity(c, id, change), id) == Max0(Quantity(c, id) + change)
  {
    var i :| 0 <= i < |c| && c[i].id == id;
    QuantityAt(c, i);
    DroppedOrKept(Bump(c, id, change), i);
  }

  /** After the empty lines are dropped, the quantity shown for a line's
      id is the line's own quantity. */
  lemma DroppedOrKept<T>(b: Cart<T>, i: int)
    requires DistinctIds(b) && 0 <= i < |b| && b[i].quantity >= 0
    ensures Quantity(DropEmpty(b), b[i].id) == b[i].quantity
  {
    if b[i].quantity > 0 {
      KeptLine(b, i);
    } else {
      DroppedLine(b, i);
    }
  }

  lemma KeptLine<T>(b: Cart<T>, i: int)
    requires DistinctIds(b) && 0 <= i < |b| && b[i].quantity > 0
    ensures Quantity(DropEmpty(b), b[i].id) == b[i].quantity
  {
    var r := DropEmpty(b);
    SubsequenceDistinct(r, b);
    assert b[i] in r;
    var j :| 0 <= j < |r| && r[j] == b[i];
    QuantityAt(r, j);
  }

  lemma DroppedLine<T>(b: Cart<T>, i: int)
    requires DistinctIds(b) && 0 <= i < |b| && b[i].quantity == 0
    ensures Quantity(DropEmpty(b), b[i].id) == 0
  {
    var r := DropEmpty(b);
    forall j | 0 <= j < |r|
      ensures r[j].id != b[i].id
    {
      assert r[j] in b && r[j].quantity > 0;
      var k :| 0 <= k < |b| && b[k] == r[j];
      assert k != i;
    }
    QuantityAbsent(r, b[i].id);
  }

  lemma UpdateOtherLine<T>(c: Cart<T>, id: int, change: int, o: int)
    requires WellFormed(c) && o != id
    ensures Quantity(UpdateQuantity(c, id, change), o) == Quantity(c, o)
  {
    var b := Bump(c, id, change);
    var r := DropEmpty(b);
    assert DistinctIds(b);
    SubsequenceDistinct(r, b);
    if k :| 0 <= k < |c| && c[k].id == o {
      QuantityAt(c, k);
      var j :| 0 <= j < |r| && r[j] == b[k];
      QuantityAt(r, j);
    } else {
      QuantityAbsent(c, o);
      forall j | 0 <= j < |r|
        ensures r[j].id != o
      {
        var k :| 0 <= k < |b| && b[k] == r[j];
      }
      QuantityAbsent(r, o);
    }
  }

  lemma {:induction false} ItemsBump<T>(c: Cart<T>, id: int, change: int)
    requires DistinctIds(c) && Has(c, id)
    ensures Items(Bump(c, id, change)) == Items(c) - Quantity(c, id) + Max0(Quantity(c, id) + change)
  {
    if c[0].id == id {
      ItemsBumpFirst(c, id, change);
    } else {
      Tail(c, id);
      ItemsBump(c[1..], id, change);
      ItemsBumpLater(c, id, change);
    }
  }

  /** Past a first line with another id, the rest of the cart is still
      distinct and still holds the id. */
  lemma Tail<T>(c: Cart<T>, id: int)
    requires DistinctIds(c) && Has(c, id) && c[0].id != id
    ensures DistinctIds(c[1..]) && Has(c[1..], id)
  {
    var i :| 0 <= i < |c| && c[i].id == id;
    assert c[1..][i - 1].id == id;
  }

  lemma ItemsBumpFirst<T>(c: Cart<T>, id: int, change: int)
    requires DistinctIds(c) && c != [] && c[0].id == id
    ensures Items(Bump(c, id, change)) == Items(c) - Quantity(c, id) + Max0(Quantity(c, id) + change)
  {
    var h := c[0].(quantity := Max0(c[0].quantity + change));
    assert !Has(c[1..], id);
    BumpAbsent(c[1..], id, change);
    assert Bump(c, id, change) == [h] + c[1..];
    ItemsCons(h, c[1..]);
  }

  lemma ItemsBumpLater<T>(c: Cart<T>, id: int, change: int)
    requires c != [] && c[0].id != id
    requires Items(Bump(c[1..], id, change))
             == Items(c[1..]) - Quantity(c[1..], id) + Max0(Quantity(c[1..], id) + change)
    ensures Items(Bump(c, id, change)) == Items(c) - Quantity(c, id) + Max0(Quantity(c, id) + change)
  {
    assert Bump(c, id, change) == [c[0]] + Bump(c[1..], id, change);
    ItemsCons(c[0], Bump(c[1..], id, change));
  }

  lemma ItemsCons<T>(h: Line<T>, t: Cart<T>)
    ensures Items([h] + t) == h.quantity + Items(t)
  {
    assert ([h] + t)[1..] == t;
  }

  /** Dropping the lines at zero does not change `cartItems`. */
  lemma {:induction false} ItemsDropEmpty<T>(c: Cart<T>)
    requires forall i :: 0 <= i < |c| ==> c[i].quantity >= 0
    ensures Items(DropEmpty(c)) == Items(c)
  {
    if c != [] {
      ItemsDropEmpty(c[1..]);
    }
  }

  /** `removeFromCart` keeps the cart well formed, takes away exactly the
      removed line's quantity, and no other line's. */
  lemma RemoveEffect<T>(c: Cart<T>, id: int)
    requires WellFormed(c)
    ensures WellFormed(Remove(c, id))
    ensures Quantity(Remove(c, id), id) == 0
    ensures forall o :: o != id ==> Quantity(Remove(c, id), o) == Quantity(c, o)
    ensures Items(Remove(c, id)) == Items(c) - Quantity(c, id)
  {
    var r := Remove(c, id);
    SubsequenceDistinct(r, c);
    QuantityAbsent(r, id);
    forall o | o != id
      ensures Quantity(r, o) == Quantity(c, o)
    {
      if k :| 0 <= k < |c| && c[k].id == o {
        QuantityAt(c, k);
        var j :| 0 <= j < |r| && r[j] == c[k];
        QuantityAt(r, j);
      } else {
        QuantityAbsent(c, o);
        assert !Has(r, o);
        QuantityAbsent(r, o);
      }
    }
    ItemsRemove(c, id);
  }

  lemma {:induction false} ItemsRemove<T>(c: Cart<T>, id: int)
    requires DistinctIds(c)
    ensures Items(Filter(c, (l: Line<T>) => l.id != id)) == Items(c) - Quantity(c, id)
  {
    if c != [] {
      ItemsRemove(c[1..], id);
      if c[0].id == id {
        assert !Has(c[1..], id);
        QuantityAbsent(c[1..], id);
      }
    }
  }

  /** Adding an item and then pressing minus on it gives back the cart. */
  lemma AddThenDecrement<T>(c: Cart<T>, id: int, info: T)
    requires WellFormed(c)
    ensures UpdateQuantity(Add(c, id, info), id, -1) == c
  {
    var a := Add(c, id, info);
    var pos := Occupied<T>;
    var b := Bump(a, id, -1);
    if Has(c, id) {
      assert b == c;
      FilterAll(c, pos);
    } else {
      assert b == c + [Line(id, info, 0)];
      FilterAppend(c, [Line(id, info, 0)], pos);
      FilterAll(c, pos);
      assert Filter([Line(id, info, 0)], pos) == [];
    }
  }
}
