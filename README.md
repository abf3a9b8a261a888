# Session shopping cart of the broilersApps storefront, in Dafny

This project models the cart views of the Django shop in `shop/views.py`:
`add_to_cart`, `view_cart` and `update_cart`. Each session keeps its cart under
`request.session['cart']`. The cart is a dict from `str(product_id)` to
`{'quantity': n}`, and like every Python dict it remembers its keys in insertion order.

- `numerals.dfy` (module `Numerals`): `str` and `int` on decimal text. The cart
  needs them because its keys are `str(product_id)`, because `view_cart` reads them
  back with `int(key)`, and because `update_cart` parses the posted quantity with `int(...)`.
- `cart_model.dfy` (module `CartModel`): the cart as a value (`Cart`: key order plus
  quantities). It defines what an add, a delete, a quantity overwrite and an update
  request do to it, and `Total`, the grand total `view_cart` computes. The lemmas state
  the properties these keep.
- `shop_views.dfy` (module `ShopViews`): class `SessionCart`, whose fields are the
  session's cart dict. `AddToCart` and `UpdateCart` change it in place. `ViewCart` reads
  it in a loop that builds the line items and the running total. Each method's
  `ensures` ties the new cart to the `CartModel` function.
- `wrappers.dfy` (module `Wrappers`): `Option`, `Result` and `Outcome`.

The product catalog is a `map<int, int>` from product id to unit price in integer
cents. `Product.price` is a decimal with two places (shop/models.py:8), so cents are exact.
Product ids reach the views through the `<int:product_id>` route converter
(core/urls.py:17-18), so they are `nat`.

The invariant every cart keeps is `CartModel.Valid`:
- each key is listed once in the insertion order;
- the order lists exactly the keys of the dict;
- every stored quantity is at least 1.

Every method of `SessionCart` keeps it. `CartModel.ProductKeys` adds that every key is
`str` of a product id. `ViewCart` has no `modifies` clause, so Dafny checks that viewing
the cart never changes it. When a product in the cart has since been deleted from the
catalog, `view_cart` fails with a 404 and does not skip the entry. The model does the same.

## Model

| member | source | states |
|---|---|---|
| `Numerals.NatText` | shop/views.py:25 | `str(product_id)` is a non-empty run of decimal digits with no leading zero |
| `Numerals.NatTextValue` | shop/views.py:25 | the digits of `str(n)` have the value `n` |
| `Numerals.ParseNatText` | shop/views.py:48 | `int(str(n)) == n`: view_cart's `int(product_id_str)` recovers the id add_to_cart stored |
| `Numerals.ParseInt` | shop/views.py:48 | `int()` on text: surrounding ASCII whitespace is stripped, then an optional sign and one or more ASCII digits are read, and anything else is `ValueError` (`None`); its contract is stated by `ParseNatText`, `ParseIntText`, `ParseIntPadded`, `ParseIntShape` and `ParseRejectsDigitless` |
| `Numerals.ParseIntText` | shop/views.py:76 | `int(str(q)) == q` for every integer `q`, signs included: the text `str(q)` of any integer reads back as `q` |
| `Numerals.ParseIntPadded` | shop/views.py:76 | every spelling `int()` accepts reads as its value: whitespace on either side, an optional `+` or `-` and any leading zeros, as in `" +007 "` (7) or `"-0"` (0) |
| `Numerals.ParseIntShape` | shop/views.py:76 | the converse of `ParseIntPadded`: every text `int()` accepts is whitespace, an optional sign, leading zeros, `str(n)` and whitespace, and reads as the signed `n`; anything else, such as "5a", "1 2", "+-5", "1.0" or "- 5", is `ValueError` |
| `Numerals.NatTextInjective` | shop/views.py:25 | two product ids with the same key are the same id |
| `Numerals.ParseRejectsDigitless` | shop/views.py:76 | `int()` raises `ValueError` (here `None`) on every text holding no digit, the empty text included |
| `CartModel.Without` | shop/views.py:72 | after `del cart[k]` the key order holds exactly the other keys, and each key is still listed once; `WithoutKeepsOrder` states that they keep their old order |
| `CartModel.WithoutKeepsOrder` | shop/views.py:72 | `del` cuts the one entry of the key out of the insertion order and keeps the keys before and after it in their old order |
| `CartModel.Add` | shop/views.py:27-31 | the added key's quantity goes up by exactly 1 (an absent key counts 0, so it enters with 1); a new key goes to the end of the order; every other key is unchanged; the invariant is kept |
| `CartModel.Delete` | shop/views.py:72 | the key leaves the dict and the order; the other keys keep their order (the order with the key's one entry cut out) and their quantities; the invariant is kept |
| `CartModel.DeleteKeepsOrder` | shop/views.py:78 | in a key order without repeats, deleting a key leaves the order with that key's entry cut out, wherever it stood |
| `CartModel.SetQuantity` | shop/views.py:81 | the quantity becomes exactly `q` at the same position; other keys are unchanged; the invariant is kept when `q >= 1` |
| `CartModel.Update` | shop/views.py:69-84 | an update request never changes another key, never adds a key, and keeps every quantity at least 1 |
| `CartModel.KeyIsProductKey` | shop/views.py:25 | the key add_to_cart stores parses back to the product id it came from |
| `CartModel.KeysDiffer` | shop/views.py:25 | distinct products have distinct cart keys |
| `CartModel.AddKeepsProductKeys` | shop/views.py:25-31 | after an add every key is still `str` of a product id |
| `CartModel.AddLeavesOtherProducts` | shop/views.py:25-31 | adding one product leaves every other product's quantity as it was |
| `CartModel.AddProductEffect` | shop/views.py:25-31 | an add keeps the invariant, leaves the quantity of every other product id as it was, and keeps every key `str` of a product id |
| `CartModel.AddTimes` | shop/views.py:28-31 | `n` successive add_to_cart calls for one product; `AddTimesQuantity` states their effect |
| `CartModel.AddTimesQuantity` | shop/views.py:28-31 | `n` adds of one product raise its quantity by exactly `n`, with no cap; from an absent key the quantity is `n`; other keys and the invariant are kept |
| `CartModel.DeleteThenAddMovesToEnd` | shop/views.py:28-31 | a removed product that is added again comes back with quantity 1 at the end of the order |
| `CartModel.UpdateNoOp` | shop/views.py:69-74 | a key not in the cart, or an action other than "remove" and "update", leaves the cart unchanged |
| `CartModel.UpdateRemoveDeletes` | shop/views.py:71-72 | after "remove" the key is absent, whatever its quantity was |
| `CartModel.UpdateWithQuantity` | shop/views.py:76-81 | "update" with a parsed quantity below 1 has the same result as "remove"; with 1 or more it sets exactly that quantity and keeps the order |
| `CartModel.RequestedQuantity` | shop/views.py:76 | `int(request.POST.get('quantity', 1))`: an absent field is 1 and a posted text is `int()` of it; its contract is stated by `UpdateMissingFieldSetsOne`, `UpdateOverwrites`, `UpdateWithQuantity`, `UpdateIgnoresDigitless` and `UpdateIgnoresMalformed` |
| `CartModel.UpdateMissingFieldSetsOne` | shop/views.py:76 | "update" without a quantity field sets the quantity to 1 |
| `CartModel.UpdateOverwrites` | shop/views.py:80-81 | "update" with the text of any quantity `q >= 1` leaves exactly `q`: it overwrites, it does not add |
| `CartModel.UpdateIgnoresDigitless` | shop/views.py:75-84 | "update" with a quantity text holding no digit (say "abc") leaves the cart unchanged |
| `CartModel.UpdateIgnoresMalformed` | shop/views.py:75-84 | "update" with a quantity text that is no spelling of an integer `int()` accepts leaves the cart unchanged: the `ValueError` is ignored |
| `CartModel.UpdateIdempotent` | shop/views.py:69-84 | repeating the same update request changes nothing more |
| `CartModel.UpdateKeepsProductKeys` | shop/views.py:69-84 | after an update every key is still `str` of a product id |
| `CartModel.UpdateProductEffect` | shop/views.py:67-84 | an update request keeps the invariant, leaves the quantity of every other product id as it was, and keeps every key `str` of a product id |
| `CartModel.LineAmount` | shop/views.py:49-50 | `item_total = product.price * quantity` for one key; `ShopViews.LineAmountOfLine` states that it is the `item_total` view_cart lists |
| `CartModel.SumLines` | shop/views.py:45-51 | the running `total` after the keys in order; `SumLinesFrame`, `SumLinesChange`, `SumLinesWithout` and `ShopViews.SumItemsOfLines` state its properties |
| `CartModel.Total` | shop/views.py:45-51 | the grand total view_cart renders; `ShopViews.SessionCart.ViewCart` states that the loop computes it, and `TotalAfterAdd` and `TotalAfterUpdate` how the other views change it |
| `CartModel.SumLinesFrame` | shop/views.py:47-51 | the running total depends only on the quantities of the keys it runs over |
| `CartModel.SumLinesChange` | shop/views.py:47-51 | changing the quantity of one key, listed once, changes the running total by the change of that key's line alone |
| `CartModel.SumLinesWithout` | shop/views.py:47-51 | deleting a key takes exactly that key's line off the running total |
| `CartModel.AddSumLinesChange` | shop/views.py:28-31 | an add changes the running total only by the change of the added key's line, whether the key was new or already listed |
| `CartModel.AddLineAmount` | shop/views.py:29 | one more unit of a product adds exactly its unit price to its line |
| `CartModel.TotalAfterAdd` | shop/views.py:28-31 | adding one unit of a catalog product raises view_cart's total by that product's unit price |
| `CartModel.TotalAfterUpdate` | shop/views.py:69-84 | an update request changes view_cart's total only by the old and new line of the product it names |
| `ShopViews.LineAmountOfLine` | shop/views.py:48-51 | a listed line's `item_total` is the price times quantity that the key adds to the total |
| `ShopViews.SumItemsOfLines` | shop/views.py:47-59 | the sum of the listed `item_total`s equals the sum of price times quantity over the keys in order, which is `Total` |
| `ShopViews.ViewStep` | shop/views.py:47-53 | appending the line of the next key keeps every line matched to its key and adds its `item_total` to the sum |
| `ShopViews.ViewSuccess` | shop/views.py:47-51 | when every key yields a line, every key of the cart has a catalog price |
| `ShopViews.ViewFailure` | shop/views.py:48-49 | when a key has no catalog product, the cart is not fully priced, and every key before it was |
| `ShopViews.LookupError` | shop/views.py:48 | the error view_cart stops with on a key: `ValueError` of `int(key)` when the key does not parse, otherwise the 404 of `get_object_or_404`; `LookupErrorOfKey` states both cases |
| `ShopViews.LookupErrorOfKey` | shop/views.py:48 | a key stored by add_to_cart can only fail with the 404 of its own product, never with `ValueError`; a key `int()` rejects fails with `ValueError` |
| `ShopViews.SessionCart.constructor` | shop/views.py:22 | a session without a cart starts from the empty dict, which satisfies the invariant |
| `ShopViews.SessionCart.AddToCart` | shop/views.py:17-38 | a product not in the catalog fails with 404 and leaves the cart unchanged; otherwise the cart becomes `Add` of the old cart: quantity plus one, other products untouched, invariant kept |
| `ShopViews.SessionCart.ViewCart` | shop/views.py:41-61 | succeeds exactly when every key names a catalog product; each line `i` is the product of the `i`-th key, with its price, stored quantity and `item_total = price * quantity`; total = sum of the item totals = `Total` of the cart; otherwise it fails on the first unresolvable key (404, or `ValueError` for an unparsable key); the cart is not modified |
| `ShopViews.SessionCart.UpdateCart` | shop/views.py:64-88 | the cart becomes `Update` of the old cart for the product's key and the posted fields; other products untouched; invariant kept |

## Left out

- Django plumbing is left out: the `request` and `session` objects, `session.modified`,
  `messages.*` notices, `redirect` and `render`. The session cart is the `SessionCart`
  object, the posted `action` and `quantity` fields are `Option<string>` parameters
  (`None` when absent), and the 404 of `get_object_or_404` is a `NotFound` error.
- Writing the cart back to the session (shop/views.py:34, :86) is left out. One effect of
  that write is not modelled: an update on a session with no cart stores an empty cart.
  The empty dict and the missing cart are the same value here.
- The product catalog is a parameter (`map<int, int>`, id to price in cents). Database
  queries are left out, and so is the product name, which is used only in the
  confirmation message.
- Decimal arithmetic: prices are integer cents and `item_total` and `total` are exact
  integer products and sums. Python computes them as `Decimal` values rounded to 28
  significant digits (the default context), so the model agrees with Python only while
  every line and the running total stay within 28 significant digits. In the model a
  quantity posted through update_cart is an unbounded integer; CPython's limit on the
  digits `int()` reads is left out (see the second `Numerals.ParseInt` line below).
- `Numerals.ParseInt` models `int()` on text as optional surrounding ASCII whitespace,
  an optional sign and one or more ASCII digits. It does not model digit-group
  underscores (`"1_0"`), non-ASCII digits or non-ASCII whitespace, all of which
  Python's `int()` also accepts.
- `Numerals.ParseInt` does not model the limit CPython 3.11 and later place on `int()`
  of decimal text: more than 4300 digits raise `ValueError`. update_cart then ignores the
  request (shop/views.py:83-84), while the model stores the quantity.
- `view_cart` ends with an unhandled `ValueError` (a server error) when a session key
  does not parse. The model returns `InvalidKey` for it. Carts built by these views
  never hold such a key (`CartModel.ProductKeys`).
- `home`, `SignUpView` and `create_admin` in shop/views.py are not part of this model.
  They are a database listing, a wrapper over the auth forms, and user creation with
  fixed credentials.
- Checkout, orders, order items and the payment provider are not part of this model.
  No code for them appears in shop/views.py. shop/admin.py registers `Order` and
  `OrderItem` models that shop/models.py does not define.
- Concurrent requests on one session are not modelled. Each view runs alone on its cart.
