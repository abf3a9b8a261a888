/**
 * The session cart as a value: the dict stored under `request.session['cart']`, which maps
 * `str(product_id)` to `{'quantity': n}` and remembers its keys in insertion order.
 * The functions here say what add_to_cart and update_cart do to that dict, and what
 * view_cart's grand total is; the lemmas state the properties those operations keep.
 */
module CartModel {
  import opened Wrappers
  import opened Numerals

  /** The cart dict: its keys in insertion order, and the quantity stored under each key. */
  datatype Cart = Cart(order: seq<string>, quantity: map<string, int>)

  /** The cart `request.session.get('cart', {})` yields before anything was added. */
  const EmptyCart: Cart := Cart([], map[])

  /** The session key of a product: `str(product_id)`. */
  function Key(productId: nat): string {
    NatText(productId)
  }

  /** Each element differs from all elements before it. */
  predicate Distinct(s: seq<string>) {
    forall i | 0 <= i < |s| :: s[i] !in s[..i]
  }

  /** A sequence with one more element at the end is distinct exactly when the element is new. */
  lemma DistinctSnoc(s: seq<string>, x: string)
    ensures Distinct(s + [x]) <==> Distinct(s) && x !in s
  {
    var t := s + [x];
    assert t[..|s|] == s;
    assert forall i | 0 <= i < |s| :: t[i] == s[i] && t[..i] == s[..i];
  }

  /**
   * The shape every cart keeps: each key once in the insertion order, the order lists
   * exactly the keys of the dict, and every stored quantity is at least 1.
   */
  ghost predicate Valid(c: Cart) {
    && Distinct(c.order)
    && (forall k :: k in c.order <==> k in c.quantity)
    && (forall k | k in c.quantity :: c.quantity[k] >= 1)
  }

  /** A key that `int()` reads back as a product id whose `str` it is. */
  predicate IsProductKey(k: string) {
    var p := ParseInt(k);
    p.Some? && p.value >= 0 && Key(p.value) == k
  }

  /** Every key of the cart is the text of a product id. */
  predicate ProductKeys(c: Cart) {
    forall k | k in c.quantity :: IsProductKey(k)
  }

  /** The quantity of a key, 0 when the key is not in the cart. */
  function Quantity(c: Cart, k: string): int {
    if k in c.quantity then c.quantity[k] else 0
  }

  /** The insertion order after `del cart[k]`: the other keys, in their old order. */
  function Without(s: seq<string>, k: string): (r: seq<string>)
    ensures forall x :: x in r <==> x in s && x != k
    ensures Distinct(s) ==> Distinct(r)
    ensures k !in s ==> r == s
  {
    if s == [] then []
    else if s[|s| - 1] == k then Without(s[..|s| - 1], k)
    else
      var init, last := s[..|s| - 1], s[|s| - 1];
      var p := Without(init, k);
      assert s == init + [last];
      DistinctSnoc(init, last);
      DistinctSnoc(p, last);
      p + [last]
  }

  /** `del` keeps the other keys in their old order: the one entry of `k` is cut out. */
  lemma {:induction false} WithoutKeepsOrder(pre: seq<string>, k: string, post: seq<string>)
    requires k !in pre && k !in post
    ensures Without(pre + [k] + post, k) == pre + post
  {
    if post == [] {
      assert pre + [k] + post == pre + [k];
      WithoutSnoc(pre, k, k);
      assert pre + post == pre;
    } else {
      var init, last := post[..|post| - 1], post[|post| - 1];
      assert post == init + [last];
      assert k !in init;
      WithoutKeepsOrder(pre, k, init);
      assert pre + [k] + post == (pre + [k] + init) + [last];
      WithoutSnoc(pre + [k] + init, last, k);
      assert pre + post == (pre + init) + [last];
    }
  }

  /**
   * add_to_cart on a product known to exist: one more unit of key `k`, a new key going
   * to the end of the insertion order.
   */
  function Add(c: Cart, k: string): (r: Cart)
    ensures Valid(c) ==> Valid(r)
    ensures Quantity(r, k) == Quantity(c, k) + 1
    ensures forall x | x != k :: Quantity(r, x) == Quantity(c, x)
    ensures Valid(c) && k in c.order ==> r.order == c.order
    ensures Valid(c) && k !in c.order ==> r.order == c.order + [k]
    ensures r.quantity.Keys == c.quantity.Keys + {k}
  {
    if k in c.quantity then
      Cart(c.order, c.quantity[k := c.quantity[k] + 1])
    else
      DistinctSnoc(c.order, k);
      Cart(c.order + [k], c.quantity[k := 1])
  }

  /** `WithoutKeepsOrder` at whichever position holds `k`, in a key order without repeats. */
  lemma DeleteKeepsOrder(s: seq<string>, k: string)
    ensures Distinct(s) ==> forall i | 0 <= i < |s| && s[i] == k :: Without(s, k) == s[..i] + s[i + 1..]
  {
    if Distinct(s) {
      forall i | 0 <= i < |s| && s[i] == k
        ensures Without(s, k) == s[..i] + s[i + 1..]
      {
        var pre, post := s[..i], s[i + 1..];
        assert s == pre + [k] + post;
        assert k !in pre;
        assert k !in post by {
          forall j | 0 <= j < |post|
            ensures post[j] != k
          {
            assert post[j] == s[i + 1 + j] && s[i] in s[..i + 1 + j];
          }
        }
        WithoutKeepsOrder(pre, k, post);
      }
    }
  }

  /** `del cart[k]`: the key leaves the dict and the insertion order. */
  function Delete(c: Cart, k: string): (r: Cart)
    ensures Valid(c) ==> Valid(r)
    ensures k !in r.quantity && k !in r.order
    ensures forall x | x != k :: Quantity(r, x) == Quantity(c, x)
    ensures r.quantity.Keys == c.quantity.Keys - {k}
    ensures k !in c.order ==> r.order == c.order
    ensures Distinct(c.order) ==> forall i | 0 <= i < |c.order| && c.order[i] == k ::
      r.order == c.order[..i] + c.order[i + 1..]
  {
    DeleteKeepsOrder(c.order, k);
    Cart(Without(c.order, k), c.quantity - {k})
  }

  /** `cart[k]['quantity'] = q`: overwrite in place, the key keeps its position. */
  function SetQuantity(c: Cart, k: string, q: int): (r: Cart)
    requires k in c.quantity
    ensures Valid(c) && q >= 1 ==> Valid(r)
    ensures Quantity(r, k) == q && r.order == c.order
    ensures forall x | x != k :: Quantity(r, x) == Quantity(c, x)
    ensures r.quantity.Keys == c.quantity.Keys
  {
    Cart(c.order, c.quantity[k := q])
  }

  /**
   * `int(request.POST.get('quantity', 1))`: a missing field means 1, a present one is
   * parsed, and `None` stands for the `ValueError` of an unparsable one.
   */
  function RequestedQuantity(field: Option<string>): Option<int> {
    match field
    case None => Some(1)
    case Some(text) => ParseInt(text)
  }

  /**
   * update_cart on key `k` with the posted `action` and `quantity` fields: a key that is
   * not in the cart and an action other than "remove" or "update" change nothing;
   * "remove" deletes the key; "update" deletes it for a quantity below 1, overwrites
   * the quantity otherwise, and changes nothing when the quantity does not parse.
   */
  function Update(c: Cart, k: string, action: Option<string>, field: Option<string>): (r: Cart)
    ensures Valid(c) ==> Valid(r)
    ensures forall x | x != k :: Quantity(r, x) == Quantity(c, x)
    ensures r.quantity.Keys <= c.quantity.Keys
  {
    if k !in c.quantity then c
    else if action == Some("remove") then Delete(c, k)
    else if action == Some("update") then
      match RequestedQuantity(field)
      case None => c
      case Some(q) => if q < 1 then Delete(c, k) else SetQuantity(c, k, q)
    else c
  }

  /** `n` successive add_to_cart calls for the same key. */
  function AddTimes(c: Cart, k: string, n: nat): Cart {
    if n == 0 then c else Add(AddTimes(c, k, n - 1), k)
  }

  /** The unit price in cents of the product a key names, if `int(key)` is in the catalog. */
  function PriceOf(k: string, catalog: map<int, int>): Option<int> {
    var p := ParseInt(k);
    if p.Some? && p.value in catalog then Some(catalog[p.value]) else None
  }

  /** Every key of the cart names a product of the catalog. */
  predicate AllPriced(c: Cart, catalog: map<int, int>) {
    forall k | k in c.quantity :: PriceOf(k, catalog).Some?
  }

  /** The unit price of every key, as view_cart looks it up in the catalog. */
  function Pricing(catalog: map<int, int>): string -> Option<int> {
    k => PriceOf(k, catalog)
  }

  /** view_cart's `item_total` of a key: price times quantity (0 for a key it cannot price). */
  function LineAmount(k: string, quantity: map<string, int>, prices: string -> Option<int>): int {
    if k in quantity && prices(k).Some? then prices(k).value * quantity[k] else 0
  }

  /** The running `total` of view_cart after the keys `ks`, in order. */
  function SumLines(ks: seq<string>, quantity: map<string, int>, prices: string -> Option<int>): int {
    if ks == [] then 0
    else SumLines(ks[..|ks| - 1], quantity, prices) + LineAmount(ks[|ks| - 1], quantity, prices)
  }

  /** The grand total view_cart shows for a cart. */
  function Total(c: Cart, catalog: map<int, int>): int {
    SumLines(c.order, c.quantity, Pricing(catalog))
  }

  // ---------------------------------------------------------------------------------
  // Keys

  /** The key add_to_cart stores for a product is read back by view_cart as that product. */
  lemma KeyIsProductKey(productId: nat)
    ensures IsProductKey(Key(productId))
    ensures ParseInt(Key(productId)) == Some(productId)
  {
    ParseNatText(productId);
  }

  /** Two products never share a cart entry. */
  lemma KeysDiffer(a: nat, b: nat)
    requires a != b
    ensures Key(a) != Key(b)
  {
    NatTextInjective(a, b);
  }

  // ---------------------------------------------------------------------------------
  // add_to_cart

  /** Adding a product keeps every key a product key. */
  lemma AddKeepsProductKeys(c: Cart, productId: nat)
    requires ProductKeys(c)
    ensures ProductKeys(Add(c, Key(productId)))
  {
    KeyIsProductKey(productId);
  }

  /** Adding one product leaves the quantity of every other product as it was. */
  lemma AddLeavesOtherProducts(c: Cart, productId: nat, other: nat)
    requires other != productId
    ensures Quantity(Add(c, Key(productId)), Key(other)) == Quantity(c, Key(other))
  {
    KeysDiffer(productId, other);
  }

  /**
   * What add_to_cart keeps besides the new quantity: the invariant, the quantity of every
   * other product, and keys that are all product ids.
   */
  lemma AddProductEffect(c: Cart, productId: nat)
    requires Valid(c)
    ensures Valid(Add(c, Key(productId)))
    ensures forall other: nat | other != productId ::
      Quantity(Add(c, Key(productId)), Key(other)) == Quantity(c, Key(other))
    ensures ProductKeys(c) ==> ProductKeys(Add(c, Key(productId)))
  {
    forall other: nat | other != productId
      ensures Quantity(Add(c, Key(productId)), Key(other)) == Quantity(c, Key(other))
    {
      AddLeavesOtherProducts(c, productId, other);
    }
    if ProductKeys(c) {
      AddKeepsProductKeys(c, productId);
    }
  }

  /**
   * After `n` adds of the same key its quantity has grown by exactly `n`, with no cap;
   * so a product that was not in the cart ends with quantity `n`.
   */
  lemma {:induction false} AddTimesQuantity(c: Cart, k: string, n: nat)
    ensures Quantity(AddTimes(c, k, n), k) == Quantity(c, k) + n
    ensures k !in c.quantity ==> Quantity(AddTimes(c, k, n), k) == n
    ensures forall x | x != k :: Quantity(AddTimes(c, k, n), x) == Quantity(c, x)
    ensures Valid(c) ==> Valid(AddTimes(c, k, n))
  {
    if n > 0 {
      AddTimesQuantity(c, k, n - 1);
    }
  }

  /** Deleting a key and adding it again moves it to the end of the insertion order. */
  lemma DeleteThenAddMovesToEnd(c: Cart, k: string)
    ensures Add(Delete(c, k), k).order == Without(c.order, k) + [k]
    ensures Quantity(Add(Delete(c, k), k), k) == 1
  {
  }

  // ---------------------------------------------------------------------------------
  // update_cart

  /** update_cart changes nothing for a key not in the cart or an unknown action. */
  lemma UpdateNoOp(c: Cart, k: string, action: Option<string>, field: Option<string>)
    requires k !in c.quantity || (action != Some("remove") && action != Some("update"))
    ensures Update(c, k, action, field) == c
  {
  }

  /** "remove" always leaves the key absent, whatever its quantity was. */
  lemma UpdateRemoveDeletes(c: Cart, k: string, field: Option<string>)
    ensures k !in Update(c, k, Some("remove"), field).quantity
    ensures k in c.quantity ==> Update(c, k, Some("remove"), field) == Delete(c, k)
  {
  }

  /**
   * "update" with a parsed quantity `q` on a key in the cart: below 1 it deletes the key
   * exactly as "remove" does; otherwise it sets the quantity to `q`, whatever it was.
   */
  lemma UpdateWithQuantity(c: Cart, k: string, field: Option<string>, q: int, other: Option<string>)
    requires k in c.quantity && RequestedQuantity(field) == Some(q)
    ensures q < 1 ==> Update(c, k, Some("update"), field) == Update(c, k, Some("remove"), other)
    ensures q >= 1 ==> Quantity(Update(c, k, Some("update"), field), k) == q
    ensures q >= 1 ==> Update(c, k, Some("update"), field).order == c.order
  {
  }

  /** An absent quantity field counts as 1. */
  lemma UpdateMissingFieldSetsOne(c: Cart, k: string)
    requires k in c.quantity
    ensures Quantity(Update(c, k, Some("update"), None), k) == 1
  {
  }

  /** "update" with the text of any quantity of at least 1 overwrites, it does not add. */
  lemma UpdateOverwrites(c: Cart, k: string, q: int)
    requires k in c.quantity && q >= 1
    ensures Quantity(Update(c, k, Some("update"), Some(IntText(q))), k) == q
  {
    ParseIntText(q);
  }

  /** "update" with a quantity field that holds no digit (say "abc") changes nothing. */
  lemma UpdateIgnoresDigitless(c: Cart, k: string, text: string)
    requires forall i | 0 <= i < |text| :: !IsDigit(text[i])
    ensures Update(c, k, Some("update"), Some(text)) == c
  {
    ParseRejectsDigitless(text);
  }

  /**
   * "update" with a quantity text that is not an integer spelling `int()` accepts, such
   * as "5a", "1.0" or "- 5", leaves the cart unchanged: the `ValueError` is ignored.
   */
  lemma UpdateIgnoresMalformed(c: Cart, k: string, text: string)
    requires forall pre, sign, z, n: nat, post | IsPadding(pre, sign, z, post) ::
      text != pre + sign + z + NatText(n) + post
    ensures Update(c, k, Some("update"), Some(text)) == c
  {
    if ParseInt(text).Some? {
      ParseIntShape(text);
      assert false;
    }
  }

  /** Repeating an update_cart request has no further effect. */
  lemma UpdateIdempotent(c: Cart, k: string, action: Option<string>, field: Option<string>)
    ensures Update(Update(c, k, action, field), k, action, field) == Update(c, k, action, field)
  {
  }

  /** update_cart never adds a key, so it keeps every key a product key. */
  lemma UpdateKeepsProductKeys(c: Cart, k: string, action: Option<string>, field: Option<string>)
    requires ProductKeys(c)
    ensures ProductKeys(Update(c, k, action, field))
  {
  }

  /**
   * What update_cart keeps: the invariant, the quantity of every product other than the
   * one it names, and keys that are all product ids.
   */
  lemma UpdateProductEffect(c: Cart, productId: nat, action: Option<string>, field: Option<string>)
    requires Valid(c)
    ensures Valid(Update(c, Key(productId), action, field))
    ensures forall other: nat | other != productId ::
      Quantity(Update(c, Key(productId), action, field), Key(other)) == Quantity(c, Key(other))
    ensures ProductKeys(c) ==> ProductKeys(Update(c, Key(productId), action, field))
  {
    forall other: nat | other != productId
      ensures Quantity(Update(c, Key(productId), action, field), Key(other)) == Quantity(c, Key(other))
    {
      KeysDiffer(productId, other);
    }
    if ProductKeys(c) {
      UpdateKeepsProductKeys(c, Key(productId), action, field);
    }
  }

  // ---------------------------------------------------------------------------------
  // The grand total

  /** Key `x` holds the same quantity in both dicts, or is in neither. */
  predicate AgreeOn(q1: map<string, int>, q2: map<string, int>, x: string) {
    (x in q1 <==> x in q2) && (x in q1 ==> q1[x] == q2[x])
  }

  /** The running total only depends on the quantities of the keys it runs over. */
  lemma {:induction false} SumLinesFrame(ks: seq<string>, q1: map<string, int>, q2: map<string, int>, prices: string -> Option<int>)
    requires forall x | x in ks :: AgreeOn(q1, q2, x)
    ensures SumLines(ks, q1, prices) == SumLines(ks, q2, prices)
  {
    if ks != [] {
      var init, last := ks[..|ks| - 1], ks[|ks| - 1];
      assert forall x | x in init :: x in ks;
      SumLinesFrame(init, q1, q2, prices);
      assert AgreeOn(q1, q2, last);
      assert LineAmount(last, q1, prices) == LineAmount(last, q2, prices);
    }
  }

  /** Changing the quantity of one key, listed once, changes the total by its line alone. */
  lemma {:induction false} SumLinesChange(ks: seq<string>, q1: map<string, int>, q2: map<string, int>, prices: string -> Option<int>, k: string)
    requires Distinct(ks) && k in ks
    requires forall x | x in ks && x != k :: AgreeOn(q1, q2, x)
    ensures SumLines(ks, q2, prices) - SumLines(ks, q1, prices)
         == LineAmount(k, q2, prices) - LineAmount(k, q1, prices)
  {
    var init, last := ks[..|ks| - 1], ks[|ks| - 1];
    assert ks == init + [last];
    assert forall x | x in init :: x in ks;
    DistinctSnoc(init, last);
    if last == k {
      assert forall x | x in init :: x != k;
      SumLinesFrame(init, q1, q2, prices);
    } else {
      SumLinesChange(init, q1, q2, prices, k);
      assert AgreeOn(q1, q2, last);
      assert LineAmount(last, q1, prices) == LineAmount(last, q2, prices);
    }
  }

  /** One more key at the end adds its line to the running total. */
  lemma SumLinesSnoc(ks: seq<string>, x: string, q: map<string, int>, prices: string -> Option<int>)
    ensures SumLines(ks + [x], q, prices) == SumLines(ks, q, prices) + LineAmount(x, q, prices)
  {
    assert (ks + [x])[..|ks|] == ks;
  }

  /** `del` on a key order with one more key at the end: that key stays unless it is `k`. */
  lemma WithoutSnoc(ks: seq<string>, x: string, k: string)
    ensures Without(ks + [x], k) == if x == k then Without(ks, k) else Without(ks, k) + [x]
  {
    assert (ks + [x])[..|ks|] == ks;
  }

  /** Dropping the last key, listed nowhere before, takes its line off the total. */
  lemma SumLinesDropLast(init: seq<string>, k: string, q: map<string, int>, prices: string -> Option<int>)
    requires k !in init
    ensures SumLines(Without(init + [k], k), q - {k}, prices)
         == SumLines(init + [k], q, prices) - LineAmount(k, q, prices)
  {
    WithoutSnoc(init, k, k);
    assert Without(init, k) == init;
    SumLinesSnoc(init, k, q, prices);
    assert forall x | x in init :: AgreeOn(q, q - {k}, x);
    SumLinesFrame(init, q, q - {k}, prices);
  }

  /** Dropping another key keeps the last key's line at the end of both totals. */
  lemma SumLinesKeepLast(init: seq<string>, last: string, q: map<string, int>, prices: string -> Option<int>, k: string)
    requires last != k
    ensures SumLines(Without(init + [last], k), q - {k}, prices)
         == SumLines(Without(init, k), q - {k}, prices) + LineAmount(last, q, prices)
    ensures SumLines(init + [last], q, prices) == SumLines(init, q, prices) + LineAmount(last, q, prices)
  {
    WithoutSnoc(init, last, k);
    SumLinesSnoc(init, last, q, prices);
    SumLinesSnoc(Without(init, k), last, q - {k}, prices);
    assert AgreeOn(q, q - {k}, last);
  }

  /** Dropping a key, listed once, from the order and the dict takes its line off the total. */
  lemma {:induction false} SumLinesWithout(ks: seq<string>, q: map<string, int>, prices: string -> Option<int>, k: string)
    requires Distinct(ks)
    ensures SumLines(Without(ks, k), q - {k}, prices)
         == SumLines(ks, q, prices) - (if k in ks then LineAmount(k, q, prices) else 0)
  {
    if ks != [] {
      var init, last := ks[..|ks| - 1], ks[|ks| - 1];
      assert ks == init + [last];
      DistinctSnoc(init, last);
      if last == k {
        SumLinesDropLast(init, k, q, prices);
      } else {
        SumLinesWithout(init, q, prices, k);
        SumLinesKeepLast(init, last, q, prices, k);
      }
    }
  }

  /** Adding one unit of a key changes the running total by the change of its line alone. */
  lemma AddSumLinesChange(c: Cart, k: string, prices: string -> Option<int>)
    requires Valid(c)
    ensures SumLines(Add(c, k).order, Add(c, k).quantity, prices) - SumLines(c.order, c.quantity, prices)
         == LineAmount(k, Add(c, k).quantity, prices) - LineAmount(k, c.quantity, prices)
  {
    var r := Add(c, k);
    if k in c.quantity {
      SumLinesChange(c.order, c.quantity, r.quantity, prices, k);
    } else {
      SumLinesSnoc(c.order, k, r.quantity, prices);
      assert forall x | x in c.order :: AgreeOn(c.quantity, r.quantity, x);
      SumLinesFrame(c.order, c.quantity, r.quantity, prices);
    }
  }

  /** One more unit of a key adds its unit price to its line. */
  lemma AddLineAmount(c: Cart, k: string, prices: string -> Option<int>)
    ensures LineAmount(k, Add(c, k).quantity, prices)
         == LineAmount(k, c.quantity, prices) + (if prices(k).Some? then prices(k).value else 0)
  {
    var price := prices(k);
    if price.Some? {
      MulSucc(price.value, Quantity(c, k));
    }
  }

  /** One more unit adds one unit price: `a * (n + 1) == a * n + a`. */
  lemma MulSucc(a: int, n: int)
    ensures a * (n + 1) == a * n + a
  {
  }

  /** Adding one unit of a product raises the total by that product's unit price. */
  lemma TotalAfterAdd(c: Cart, k: string, catalog: map<int, int>)
    requires Valid(c)
    ensures Total(Add(c, k), catalog)
         == Total(c, catalog) + (if PriceOf(k, catalog).Some? then PriceOf(k, catalog).value else 0)
  {
    AddSumLinesChange(c, k, Pricing(catalog));
    AddLineAmount(c, k, Pricing(catalog));
    assert Pricing(catalog)(k) == PriceOf(k, catalog);
  }

  /**
   * update_cart changes the total only by the line of the product it names: the old line
   * is taken off and the new one, if the key is still in the cart, is counted instead.
   */
  lemma TotalAfterUpdate(c: Cart, k: string, action: Option<string>, field: Option<string>, catalog: map<int, int>)
    requires Valid(c)
    ensures var r := Update(c, k, action, field);
      Total(r, catalog)
      == Total(c, catalog) - LineAmount(k, c.quantity, Pricing(catalog)) + LineAmount(k, r.quantity, Pricing(catalog))
  {
    var r := Update(c, k, action, field);
    if k in c.quantity && r != c {
      if k in r.quantity {
        assert r.order == c.order;
        SumLinesChange(c.order, c.quantity, r.quantity, Pricing(catalog), k);
      } else {
        assert r == Delete(c, k);
        SumLinesWithout(c.order, c.quantity, Pricing(catalog), k);
      }
    }
  }
}
