/**
 * The cart views of the shop: add_to_cart, view_cart and update_cart. The session's cart
 * dict is an object whose fields these views update in place; the catalog of products is
 * a map from product id to unit price in cents, passed in where a view consults it.
 */
module ShopViews {
  import opened Wrappers
  import opened Numerals
  import opened CartModel

  /** Why a view does not render: a product id that is not in the catalog (the 404 of
    * `get_object_or_404`), or a cart key `int()` cannot read (its `ValueError`). */
  datatype ViewError = NotFound(productId: int) | InvalidKey(key: string)

  /** One entry of view_cart's `cart_items`: the product, its quantity and `item_total`. */
  datatype Line = Line(productId: int, price: int, quantity: int, itemTotal: int)

  /** What view_cart renders: the lines in the cart's order and the grand total. */
  datatype CartView = CartView(lines: seq<Line>, total: int)

  /** The sum of the `item_total` of the lines. */
  function SumItems(lines: seq<Line>): int {
    if lines == [] then 0 else SumItems(lines[..|lines| - 1]) + lines[|lines| - 1].itemTotal
  }

  /**
   * `line` is what view_cart lists for key `k`: the product `int(k)` names, its catalog
   * price, the quantity stored under `k`, and `item_total = price * quantity`.
   */
  predicate IsLineFor(line: Line, k: string, quantity: map<string, int>, catalog: map<int, int>) {
    && ParseInt(k) == Some(line.productId)
    && line.productId in catalog && line.price == catalog[line.productId]
    && k in quantity && line.quantity == quantity[k]
    && line.itemTotal == line.price * line.quantity
  }

  /** A listed line's `item_total` is the amount the key adds to the grand total. */
  lemma LineAmountOfLine(line: Line, k: string, quantity: map<string, int>, catalog: map<int, int>)
    requires IsLineFor(line, k, quantity, catalog)
    ensures PriceOf(k, catalog) == Some(line.price)
    ensures LineAmount(k, quantity, Pricing(catalog)) == line.itemTotal
  {
  }

  /**
   * The lines view_cart lists for the keys `ks`, in order, add up to the cart's grand
   * total: the sum of the `item_total`s is the sum of price times quantity over the keys.
   */
  lemma {:induction false} SumItemsOfLines(ks: seq<string>, quantity: map<string, int>, catalog: map<int, int>, lines: seq<Line>)
    requires |lines| == |ks|
    requires forall j | 0 <= j < |ks| :: IsLineFor(lines[j], ks[j], quantity, catalog)
    ensures SumItems(lines) == SumLines(ks, quantity, Pricing(catalog))
  {
    if ks != [] {
      var n := |ks| - 1;
      SumItemsOfLines(ks[..n], quantity, catalog, lines[..n]);
      LineAmountOfLine(lines[n], ks[n], quantity, catalog);
    }
  }

  /** Lines for every key in order: the cart is priced and its total is the running total. */
  lemma ViewSuccess(c: Cart, catalog: map<int, int>, lines: seq<Line>)
    requires CartModel.Valid(c) && |lines| == |c.order|
    requires forall j | 0 <= j < |lines| :: IsLineFor(lines[j], c.order[j], c.quantity, catalog)
    ensures AllPriced(c, catalog)
  {
    forall k | k in c.quantity
      ensures PriceOf(k, catalog).Some?
    {
      var j :| 0 <= j < |c.order| && c.order[j] == k;
      LineAmountOfLine(lines[j], k, c.quantity, catalog);
    }
  }

  /** A key without a catalog price after priced ones: the cart is not priced, and view_cart stops there. */
  lemma ViewFailure(c: Cart, catalog: map<int, int>, lines: seq<Line>, i: nat)
    requires CartModel.Valid(c) && i < |c.order| && |lines| == i
    requires forall j | 0 <= j < i :: IsLineFor(lines[j], c.order[j], c.quantity, catalog)
    requires PriceOf(c.order[i], catalog).None?
    ensures !AllPriced(c, catalog)
    ensures forall j | 0 <= j < i :: PriceOf(c.order[j], catalog).Some?
  {
    forall j | 0 <= j < i
      ensures PriceOf(c.order[j], catalog).Some?
    {
      LineAmountOfLine(lines[j], c.order[j], c.quantity, catalog);
    }
  }

  /** One more listed line keeps the lines matched to the keys and adds its `item_total`. */
  lemma ViewStep(ks: seq<string>, quantity: map<string, int>, catalog: map<int, int>, lines: seq<Line>, line: Line)
    requires |lines| < |ks|
    requires forall j | 0 <= j < |lines| :: IsLineFor(lines[j], ks[j], quantity, catalog)
    requires IsLineFor(line, ks[|lines|], quantity, catalog)
    ensures forall j | 0 <= j < |lines| + 1 :: IsLineFor((lines + [line])[j], ks[j], quantity, catalog)
    ensures SumItems(lines + [line]) == SumItems(lines) + line.itemTotal
  {
    assert (lines + [line])[..|lines|] == lines;
  }

  /** The error view_cart stops with on a key whose product it cannot find. */
  function LookupError(k: string): ViewError {
    var p := ParseInt(k);
    if p.None? then InvalidKey(k) else NotFound(p.value)
  }

  /**
   * A key add_to_cart stored can only make view_cart fail with the 404 of its own
   * product, never with `ValueError`; a key `int()` cannot read fails with `ValueError`.
   */
  lemma LookupErrorOfKey(productId: nat, k: string)
    ensures LookupError(Key(productId)) == NotFound(productId)
    ensures ParseInt(k).None? ==> LookupError(k) == InvalidKey(k)
  {
    KeyIsProductKey(productId);
  }

  /** The cart dict of one session. */
  class SessionCart {
    /** The keys of the dict, in insertion order. */
    var order: seq<string>
    /** `cart[key]['quantity']` for each key of the dict. */
    var quantity: map<string, int>

    function State(): Cart
      reads this
    {
      Cart(order, quantity)
    }

    ghost predicate Valid()
      reads this
    {
      CartModel.Valid(State())
    }

    /** `request.session.get('cart', {})` on a session without a cart. */
    constructor ()
      ensures Valid() && ProductKeys(State())
      ensures State() == EmptyCart
    {
      order := [];
      quantity := map[];
    }

    /**
     * add_to_cart: a product that is not in the catalog is a 404 and leaves the cart as
     * it was; otherwise its quantity goes up by one, or it enters the cart with quantity 1.
     */
    method AddToCart(catalog: map<int, int>, productId: nat) returns (r: Outcome<ViewError>)
      requires Valid()
      modifies this
      ensures Valid()
      ensures r == if productId in catalog then Pass else Fail(NotFound(productId))
      ensures productId !in catalog ==> State() == old(State())
      ensures productId in catalog ==> State() == Add(old(State()), Key(productId))
      ensures productId in catalog ==>
        Quantity(State(), Key(productId)) == Quantity(old(State()), Key(productId)) + 1
      ensures forall other: nat | other != productId ::
        Quantity(State(), Key(other)) == Quantity(old(State()), Key(other))
      ensures old(ProductKeys(State())) ==> ProductKeys(State())
    {
      if productId !in catalog {
        return Fail(NotFound(productId));
      }
      ghost var before := State();
      var key := Key(productId);
      if key in quantity {
        quantity := quantity[key := quantity[key] + 1];
      } else {
        order := order + [key];
        quantity := quantity[key := 1];
      }
      r := Pass;
      assert State() == Add(before, key);
      AddProductEffect(before, productId);
    }

    /**
     * view_cart: reads the cart in insertion order, looks each key's product up in the
     * catalog and stops at the first one it cannot find. Otherwise every line's
     * `item_total` is price times quantity and the total is the sum of the lines. The
     * cart itself is not changed: this method has no `modifies` clause.
     */
    method ViewCart(catalog: map<int, int>) returns (r: Result<CartView, ViewError>)
      requires Valid()
      ensures r.Success? <==> AllPriced(State(), catalog)
      ensures r.Success? ==> |r.value.lines| == |order|
      ensures r.Success? ==> forall i | 0 <= i < |order| ::
        IsLineFor(r.value.lines[i], order[i], quantity, catalog)
      ensures r.Success? ==> r.value.total == SumItems(r.value.lines) == Total(State(), catalog)
      ensures r.Failure? ==> exists j | 0 <= j < |order| ::
        && PriceOf(order[j], catalog).None?
        && (forall i | 0 <= i < j :: PriceOf(order[i], catalog).Some?)
        && r.error == LookupError(order[j])
    {
      var keys, quantities := order, quantity;
      var lines: seq<Line> := [];
      var total := 0;
      var i := 0;
      while i < |keys|
        invariant 0 <= i <= |keys| && |lines| == i
        invariant forall j | 0 <= j < i :: IsLineFor(lines[j], keys[j], quantities, catalog)
        invariant total == SumItems(lines)
      {
        var key := keys[i];
        var id := ParseInt(key);
        if id.None? || id.value !in catalog {
          ViewFailure(State(), catalog, lines, i);
          return Failure(LookupError(key));
        }
        var price := catalog[id.value];
        var q := quantities[key];
        var line := Line(id.value, price, q, price * q);
        ViewStep(keys, quantities, catalog, lines, line);
        total := total + line.itemTotal;
        lines := lines + [line];
        i := i + 1;
      }
      ViewSuccess(State(), catalog, lines);
      SumItemsOfLines(keys, quantities, catalog, lines);
      r := Success(CartView(lines, total));
    }

    /**
     * update_cart: the `action` and `quantity` fields of the posted form decide the
     * effect on the product's key, as `Update` describes; other keys never change.
     */
    method UpdateCart(productId: nat, action: Option<string>, field: Option<string>)
      requires Valid()
      modifies this
      ensures Valid()
      ensures State() == Update(old(State()), Key(productId), action, field)
      ensures forall other: nat | other != productId ::
        Quantity(State(), Key(other)) == Quantity(old(State()), Key(other))
      ensures old(ProductKeys(State())) ==> ProductKeys(State())
    {
      ghost var before := State();
      var key := Key(productId);
      if key in quantity {
        if action == Some("remove") {
          order := Without(order, key);
          quantity := quantity - {key};
        } else if action == Some("update") {
          var requested := RequestedQuantity(field);
          if requested.Some? {
            if requested.value < 1 {
              order := Without(order, key);
              quantity := quantity - {key};
            } else {
              quantity := quantity[key := requested.value];
            }
          }
        }
      }
      assert State() == Update(before, key, action, field);
      UpdateProductEffect(before, productId, action, field);
    }
  }
}
