/** The cart line store of `CartContext`: a sequence of flat cart lines keyed
    by product id, the four transitions the provider hands to its consumers,
    the derived total, and the `useCart` guard. Prices are whole cents. */
module CartContext {
  import opened Wrappers
  import opened Seqs

  datatype CartItem = CartItem(id: string, name: string, price: int, image: string, quantity: int)

  /** Some line of `items` carries product id `id`. */
  predicate HasLine(items: seq<CartItem>, id: string)
  {
    exists i :: 0 <= i < |items| && items[i].id == id
  }

  predicate UniqueIds(items: seq<CartItem>)
  {
    forall i, j :: 0 <= i < j < |items| ==> items[i].id != items[j].id
  }

  predicate PositiveQuantities(items: seq<CartItem>)
  {
    forall i :: 0 <= i < |items| ==> items[i].quantity >= 1
  }

  /** The invariant every transition keeps: one line per product id, and no
      line with a quantity below 1. */
  predicate Valid(items: seq<CartItem>)
  {
    UniqueIds(items) && PositiveQuantities(items)
  }

  // ---------------------------------------------------------------------
  // Transitions

  /** `addToCart(item)`: a product already in the cart has its line's
      quantity raised by one (the quantity carried by `item` is ignored);
      otherwise `item` is appended with quantity 1. */
  function AddToCart(items: seq<CartItem>, item: CartItem): (r: seq<CartItem>)
    ensures HasLine(items, item.id) ==>
      |r| == |items| &&
      forall i :: 0 <= i < |items| ==>
        r[i] == if items[i].id == item.id then items[i].(quantity := items[i].quantity + 1) else items[i]
    ensures !HasLine(items, item.id) ==> r == items + [item.(quantity := 1)]
  {
    var existing := FindIndex((l: CartItem) => l.id == item.id, items);
    if existing.Some? then
      Map((l: CartItem) => if l.id == item.id then l.(quantity := l.quantity + 1) else l, items)
    else
      items + [item.(quantity := 1)]
  }

  /** `removeFromCart(id)`: drop every line with that id, keeping the rest in order. */
  function RemoveFromCart(items: seq<CartItem>, id: string): (r: seq<CartItem>)
    ensures !HasLine(r, id)
    ensures forall l :: l in r <==> l in items && l.id != id
    ensures forall l {:trigger multiset(r)[l]} :: multiset(r)[l] == if l.id != id then multiset(items)[l] else 0
    ensures Subseq(r, items)
  {
    var r := Filter((l: CartItem) => l.id != id, items);
    assert forall i :: 0 <= i < |r| ==> r[i] in r;
    r
  }

  /** `updateQuantity(id, q)`: below 1 the request is ignored; otherwise
      every line with that id gets quantity exactly `q`. */
  function UpdateQuantity(items: seq<CartItem>, id: string, q: int): (r: seq<CartItem>)
    ensures q < 1 ==> r == items
    ensures |r| == |items|
    ensures forall i :: 0 <= i < |items| ==> r[i].id == items[i].id
    ensures q >= 1 ==> forall i :: 0 <= i < |items| ==>
      r[i] == if items[i].id == id then items[i].(quantity := q) else items[i]
  {
    if q < 1 then items
    else Map((l: CartItem) => if l.id == id then l.(quantity := q) else l, items)
  }

  /** `clearCart()`. */
  function ClearCart(items: seq<CartItem>): (r: seq<CartItem>)
    ensures |r| == 0
  {
    []
  }

  // ---------------------------------------------------------------------
  // Total

  function Subtotal(l: CartItem): int
  {
    l.price * l.quantity
  }

  /** `items.reduce((sum, item) => sum + item.price * item.quantity, acc)`:
      a left fold, as the provider's effect computes it. */
  function Reduce(items: seq<CartItem>, acc: int): int
    decreases |items|
  {
    if items == [] then acc else Reduce(items[1..], acc + Subtotal(items[0]))
  }

  /** The `total` the provider exposes: the sum of price times quantity
      over the lines, and 0 for the empty cart. */
  function Total(items: seq<CartItem>): (t: int)
    ensures t == Sum(items)
    ensures items == [] ==> t == 0
  {
    ReduceIsSum(items, 0);
    Reduce(items, 0)
  }

  /** Reference definition of the total: the sum of line subtotals. */
  function Sum(items: seq<CartItem>): int
    decreases |items|
  {
    if items == [] then 0 else Subtotal(items[0]) + Sum(items[1..])
  }

  lemma {:induction false} ReduceIsSum(items: seq<CartItem>, acc: int)
    ensures Reduce(items, acc) == acc + Sum(items)
    decreases |items|
  {
    if items != [] {
      ReduceIsSum(items[1..], acc + Subtotal(items[0]));
    }
  }

  lemma {:induction false} SumConcat(a: seq<CartItem>, b: seq<CartItem>)
    ensures Sum(a + b) == Sum(a) + Sum(b)
    decreases |a|
  {
    if a == [] {
      assert a + b == b;
    } else {
      assert (a + b)[1..] == a[1..] + b;
      SumConcat(a[1..], b);
    }
  }

  /** The total is additive over concatenation of line sequences. */
  lemma TotalConcat(a: seq<CartItem>, b: seq<CartItem>)
    ensures Total(a + b) == Total(a) + Total(b)
  {
    SumConcat(a, b);
  }

  /** Replacing one line changes the total by the difference of the two subtotals. */
  lemma SumUpdate(items: seq<CartItem>, k: nat, l: CartItem)
    requires k < |items|
    ensures Sum(items[k := l]) == Sum(items) - Subtotal(items[k]) + Subtotal(l)
  {
    assert items == items[..k] + [items[k]] + items[k + 1..];
    assert items[k := l] == items[..k] + [l] + items[k + 1..];
    SumConcat(items[..k] + [items[k]], items[k + 1..]);
    SumConcat(items[..k], [items[k]]);
    SumConcat(items[..k] + [l], items[k + 1..]);
    SumConcat(items[..k], [l]);
  }

  // ---------------------------------------------------------------------
  // Properties of the transitions

  lemma HasLineIndex(items: seq<CartItem>, k: nat)
    requires k < |items|
    ensures HasLine(items, items[k].id)
  {
  }

  /** With unique ids, a line-wise update that touches only the lines of one
      id is a single point update. */
  lemma PointUpdate(items: seq<CartItem>, r: seq<CartItem>, k: nat, l: CartItem)
    requires UniqueIds(items) && k < |items| && |r| == |items|
    requires forall i :: 0 <= i < |items| ==> r[i] == if items[i].id == items[k].id then l else items[i]
    ensures r == items[k := l]
  {
  }

  /** Adding a product keeps one line per id and every quantity at least 1. */
  lemma AddToCartValid(items: seq<CartItem>, item: CartItem)
    requires Valid(items)
    ensures Valid(AddToCart(items, item))
  {
    var r := AddToCart(items, item);
    if !HasLine(items, item.id) {
      forall i, j | 0 <= i < j < |r|
        ensures r[i].id != r[j].id
      {
        if j == |items| {
          assert r[i] == items[i];
        }
      }
    }
  }

  /** Adding a product already present raises the total by that line's stored
      price; adding a new one raises it by the new item's price. */
  lemma AddToCartTotal(items: seq<CartItem>, item: CartItem)
    requires UniqueIds(items)
    ensures !HasLine(items, item.id) ==> Total(AddToCart(items, item)) == Total(items) + item.price
    ensures forall k :: 0 <= k < |items| && items[k].id == item.id ==>
      Total(AddToCart(items, item)) == Total(items) + items[k].price
  {
    var r := AddToCart(items, item);
    if HasLine(items, item.id) {
      forall k | 0 <= k < |items| && items[k].id == item.id
        ensures Total(r) == Total(items) + items[k].price
      {
        var l := items[k].(quantity := items[k].quantity + 1);
        PointUpdate(items, r, k, l);
        SumUpdate(items, k, l);
      }
    } else {
      TotalConcat(items, [item.(quantity := 1)]);
      assert Sum([item.(quantity := 1)]) == item.price;
    }
  }

  /** Adding the same product twice to an empty cart gives one line of quantity 2. */
  lemma AddTwiceMerges(item: CartItem)
    ensures AddToCart(AddToCart([], item), item) == [item.(quantity := 2)]
  {
    var once := AddToCart([], item);
    assert once == [item.(quantity := 1)];
    HasLineIndex(once, 0);
  }

  /** Removing keeps the invariant, and is a no-op for an absent id. */
  lemma RemoveFromCartValid(items: seq<CartItem>, id: string)
    requires Valid(items)
    ensures Valid(RemoveFromCart(items, id))
  {
    var r := RemoveFromCart(items, id);
    SubseqUniqueIds(r, items);
    forall i | 0 <= i < |r|
      ensures r[i].quantity >= 1
    {
      assert r[i] in items;
    }
  }

  lemma {:induction false} SubseqUniqueIds(a: seq<CartItem>, b: seq<CartItem>)
    requires Subseq(a, b) && UniqueIds(b)
    ensures UniqueIds(a)
    decreases |b|
  {
    if a != [] && b != [] {
      if a[0] == b[0] {
        SubseqUniqueIds(a[1..], b[1..]);
        SubseqMembers(a[1..], b[1..]);
        forall j | 1 <= j < |a|
          ensures a[0].id != a[j].id
        {
          assert a[1..][j - 1] == a[j];
          assert a[j] in b[1..];
          var m :| 0 <= m < |b| - 1 && b[1..][m] == a[j];
          assert b[m + 1] == a[j];
        }
      } else {
        SubseqUniqueIds(a, b[1..]);
      }
    }
  }

  lemma RemoveAbsentIsNoOp(items: seq<CartItem>, id: string)
    requires !HasLine(items, id)
    ensures RemoveFromCart(items, id) == items
  {
    FilterKeepsAll((l: CartItem) => l.id != id, items);
  }

  /** With unique ids, removing a present line drops exactly that line... */
  lemma RemoveFromCartLine(items: seq<CartItem>, k: nat)
    requires UniqueIds(items) && k < |items|
    ensures RemoveFromCart(items, items[k].id) == items[..k] + items[k + 1..]
  {
    var id := items[k].id;
    var before, after := items[..k], items[k + 1..];
    assert items == before + ([items[k]] + after);
    RemoveConcat(before, [items[k]] + after, id);
    RemoveConcat([items[k]], after, id);
    assert !HasLine(before, id) by {
      forall i | 0 <= i < |before|
        ensures before[i].id != id
      {
        assert before[i] == items[i];
      }
    }
    assert !HasLine(after, id) by {
      forall i | 0 <= i < |after|
        ensures after[i].id != id
      {
        assert after[i] == items[k + 1 + i];
      }
    }
    RemoveAbsentIsNoOp(before, id);
    RemoveAbsentIsNoOp(after, id);
  }

  lemma RemoveConcat(a: seq<CartItem>, b: seq<CartItem>, id: string)
    ensures RemoveFromCart(a + b, id) == RemoveFromCart(a, id) + RemoveFromCart(b, id)
  {
    FilterConcat((l: CartItem) => l.id != id, a, b);
  }

  /** ... and so subtracts exactly its subtotal from the total. */
  lemma RemoveFromCartTotal(items: seq<CartItem>, k: nat)
    requires UniqueIds(items) && k < |items|
    ensures Total(RemoveFromCart(items, items[k].id)) == Total(items) - Subtotal(items[k])
  {
    var before, after := items[..k], items[k + 1..];
    RemoveFromCartLine(items, k);
    assert items == before + ([items[k]] + after);
    SumConcat(before, [items[k]] + after);
    SumConcat([items[k]], after);
    SumConcat(before, after);
    assert Sum([items[k]]) == Subtotal(items[k]);
  }

  /** Updating keeps the invariant. */
  lemma UpdateQuantityValid(items: seq<CartItem>, id: string, q: int)
    requires Valid(items)
    ensures Valid(UpdateQuantity(items, id, q))
  {
  }

  lemma UpdateAbsentIsNoOp(items: seq<CartItem>, id: string, q: int)
    requires !HasLine(items, id)
    ensures UpdateQuantity(items, id, q) == items
  {
  }

  /** With unique ids, setting a line's quantity to `q >= 1` moves the total by
      price times the change in quantity. */
  lemma UpdateQuantityTotal(items: seq<CartItem>, k: nat, q: int)
    requires UniqueIds(items) && k < |items| && q >= 1
    ensures Total(UpdateQuantity(items, items[k].id, q)) == Total(items) + items[k].price * (q - items[k].quantity)
  {
    var l := items[k].(quantity := q);
    PointUpdate(items, UpdateQuantity(items, items[k].id, q), k, l);
    SumUpdate(items, k, l);
  }

  /** The empty cart that `clearCart` leaves totals 0. */
  lemma ClearCartTotal(items: seq<CartItem>)
    ensures Total(ClearCart(items)) == 0 && Valid(ClearCart(items))
  {
  }

  // ---------------------------------------------------------------------
  // The cart page's quantity buttons

  function Max(a: int, b: int): int
  {
    if a >= b then a else b
  }

  /** The "-" button requests `max(0, quantity - 1)` for its line. */
  function DecrementRequest(l: CartItem): int
  {
    Max(0, l.quantity - 1)
  }

  /** Pressing "-" on a line at quantity 1 leaves the cart unchanged; above 1
      it lowers that line by exactly one. */
  lemma DecrementLine(items: seq<CartItem>, k: nat)
    requires Valid(items) && k < |items|
    ensures items[k].quantity == 1 ==> UpdateQuantity(items, items[k].id, DecrementRequest(items[k])) == items
    ensures items[k].quantity > 1 ==>
      UpdateQuantity(items, items[k].id, DecrementRequest(items[k])) == items[k := items[k].(quantity := items[k].quantity - 1)]
  {
    if items[k].quantity > 1 {
      var l := items[k].(quantity := items[k].quantity - 1);
      PointUpdate(items, UpdateQuantity(items, items[k].id, DecrementRequest(items[k])), k, l);
    }
  }

  // ---------------------------------------------------------------------
  // Sessions of transitions

  datatype CartAction =
    | Add(item: CartItem)
    | Remove(id: string)
    | Update(id: string, quantity: int)
    | Clear

  function Apply(items: seq<CartItem>, a: CartAction): seq<CartItem>
  {
    match a
    case Add(item) => AddToCart(items, item)
    case Remove(id) => RemoveFromCart(items, id)
    case Update(id, q) => UpdateQuantity(items, id, q)
    case Clear => ClearCart(items)
  }

  function Run(items: seq<CartItem>, actions: seq<CartAction>): seq<CartItem>
    decreases |actions|
  {
    if actions == [] then items else Run(Apply(items, actions[0]), actions[1..])
  }

  /** Any sequence of transitions from a valid cart (the empty one included)
      yields a valid cart. */
  lemma {:induction false} RunValid(items: seq<CartItem>, actions: seq<CartAction>)
    requires Valid(items)
    ensures Valid(Run(items, actions))
    decreases |actions|
  {
    if actions != [] {
      var a := actions[0];
      match a {
        case Add(item) => AddToCartValid(items, item);
        case Remove(id) => RemoveFromCartValid(items, id);
        case Update(id, q) => UpdateQuantityValid(items, id, q);
        case Clear => ClearCartTotal(items);
      }
      RunValid(Apply(items, a), actions[1..]);
    }
  }

  /** A worked session: add A twice and B once, ignore a zero quantity,
      remove A, then clear. */
  lemma Scenario(a: CartItem, b: CartItem)
    requires a.id != b.id && a.price == 1000 && b.price == 500
    ensures var s1 := AddToCart(AddToCart(AddToCart([], a), a), b);
      && s1 == [a.(quantity := 2), b.(quantity := 1)]
      && Total(s1) == 2500
      && UpdateQuantity(s1, a.id, 0) == s1
      && RemoveFromCart(s1, a.id) == [b.(quantity := 1)]
      && Total(RemoveFromCart(s1, a.id)) == 500
      && Total(ClearCart(RemoveFromCart(s1, a.id))) == 0
  {
    var s0 := AddToCart(AddToCart([], a), a);
    AddTwiceMerges(a);
    assert !HasLine(s0, b.id);
    var s1 := AddToCart(s0, b);
    assert s1 == [a.(quantity := 2), b.(quantity := 1)];
    assert Sum(s1[1..]) == 500;
    RemoveFromCartLine(s1, 0);
    assert s1[1..] == [b.(quantity := 1)];
  }

  // ---------------------------------------------------------------------
  // The provider and the `useCart` guard

  /** What the provider publishes: the lines and their derived total. */
  datatype CartValue = CartValue(items: seq<CartItem>, total: int)

  function Provide(items: seq<CartItem>): (v: CartValue)
    ensures v.items == items && v.total == Sum(items)
  {
    CartValue(items, Total(items))
  }

  const OutsideProvider := "useCart must be used within a CartProvider"

  /** `useCart()`: the provider's value, or a thrown error outside any provider. */
  function UseCart(context: Option<CartValue>): (r: Result<CartValue, string>)
    ensures r.Success? <==> context.Some?
    ensures r.Success? ==> r.value == context.value
    ensures r.Failure? ==> r.error == OutsideProvider
  {
    match context
    case None => Failure(OutsideProvider)
    case Some(v) => Success(v)
  }
}
