/** The cart aggregate (backend/app/services/cart_service.py): one cart per
    user, created on first access; lines added, updated, removed and cleared
    against the live product rows; totals summed over the lines. Each
    service call is one atomic step on the store. */
module CartService {
  import opened Text
  import opened Models
  import opened Errors
  import opened Store
  import ProductService

  // ---------------------------------------------------------------- totals

  /** `calculate_total`: (Σ quantity·price_at_addition, Σ quantity) over the lines. */
  function CalculateTotal(lines: seq<CartItem>): (int, int)
  {
    if lines == [] then (0, 0)
    else
      var rest := CalculateTotal(lines[1..]);
      (lines[0].quantity * lines[0].priceAtAddition + rest.0, lines[0].quantity + rest.1)
  }

  /** Totals add up over a split of the lines, so they do not depend on how the cart is cut. */
  lemma {:induction false} CalculateTotalAppend(a: seq<CartItem>, b: seq<CartItem>)
    ensures CalculateTotal(a + b).0 == CalculateTotal(a).0 + CalculateTotal(b).0
    ensures CalculateTotal(a + b).1 == CalculateTotal(a).1 + CalculateTotal(b).1
  {
    if a == [] {
      assert a + b == b;
    } else {
      assert (a + b)[1..] == a[1..] + b;
      CalculateTotalAppend(a[1..], b);
    }
  }

  /** A two-line cart totals q1·p1 + q2·p2 over q1 + q2 items. */
  lemma TwoLineTotal(x: CartItem, y: CartItem)
    ensures CalculateTotal([x, y])
         == (x.quantity * x.priceAtAddition + y.quantity * y.priceAtAddition, x.quantity + y.quantity)
  {
    assert [x, y][1..] == [y];
    assert [y][1..] == [];
    assert CalculateTotal([y]) == (y.quantity * y.priceAtAddition + 0, y.quantity + 0);
  }

  // ------------------------------------------------------- the cart view

  datatype ProductInCart = ProductInCart(id: Id, name: string, brand: string, price: int, imageUrl: Option<string>)

  datatype CartItemResponse = CartItemResponse(
    id: Id, product: ProductInCart, quantity: int, priceAtAddition: int, subtotal: int)

  datatype CartResponse = CartResponse(id: Id, items: seq<CartItemResponse>, totalAmount: int, totalItems: int)

  /** The view of one line: the live product's display fields and the line's own subtotal. */
  function ItemResponse(p: Product, item: CartItem): (r: CartItemResponse)
    ensures r.subtotal == item.quantity * item.priceAtAddition
    ensures r.product.price == p.price && r.id == item.id
  {
    CartItemResponse(item.id, ProductInCart(p.id, p.name, p.brand, p.price, p.imageUrl),
                     item.quantity, item.priceAtAddition, item.quantity * item.priceAtAddition)
  }

  function SumSubtotals(rs: seq<CartItemResponse>): int
  {
    if rs == [] then 0 else rs[0].subtotal + SumSubtotals(rs[1..])
  }

  /** The reported subtotals add up to the reported total amount. */
  lemma {:induction false} SubtotalsSumToTotal(products: map<Id, Product>, lines: seq<CartItem>,
                                               rs: seq<CartItemResponse>)
    requires forall x :: x in lines ==> x.productId in products
    requires |rs| == |lines|
    requires forall k :: 0 <= k < |lines| ==> rs[k] == ItemResponse(products[lines[k].productId], lines[k])
    ensures SumSubtotals(rs) == CalculateTotal(lines).0
  {
    if lines != [] {
      assert lines[0] in lines;
      SubtotalsSumToTotal(products, lines[1..], rs[1..]);
    }
  }

  // ------------------------------------------------------------ operations

  /** `get_or_create_cart`: the user's cart, or a fresh empty one bound to the user. */
  method GetOrCreateCart(db: Database, userId: Id, now: Timestamp) returns (cart: Cart)
    requires db.Valid()
    modifies db
    ensures db.Valid() && CartEnsured(db, userId, now) && db.items == old(db.items)
    ensures cart == db.CartOf(userId)
    ensures userId in old(db.cartOfUser) ==> cart == old(db.carts[db.cartOfUser[userId]])
  {
    if userId in db.cartOfUser {
      cart := db.carts[db.cartOfUser[userId]];
    } else {
      var id := db.nextId;
      cart := Cart(id, userId, now, now);
      db.carts := db.carts[id := cart];
      db.cartOfUser := db.cartOfUser[userId := id];
      db.nextId := db.nextId + 1;
    }
  }

  /** Two calls for one user return the same cart: creation happens at most once. */
  method GetOrCreateTwice(db: Database, userId: Id, t1: Timestamp, t2: Timestamp) returns (first: Cart, second: Cart)
    requires db.Valid()
    modifies db
    ensures db.Valid() && first == second
    ensures userId in old(db.cartOfUser) ==> db.carts == old(db.carts) && db.nextId == old(db.nextId)
  {
    first := GetOrCreateCart(db, userId, t1);
    second := GetOrCreateCart(db, userId, t2);
  }

  /** The line of one product among a cart's lines, if any. */
  function FindLine(lines: seq<CartItem>, productId: Id): (r: Option<CartItem>)
    ensures r.Some? ==> r.value in lines && r.value.productId == productId
    ensures r.None? ==> forall x :: x in lines ==> x.productId != productId
  {
    if lines == [] then None
    else if lines[0].productId == productId then Some(lines[0])
    else FindLine(lines[1..], productId)
  }

  /** `add_item`: the product must exist and hold at least `quantity` in
      stock; then the cart's line for it grows by `quantity`, or a new line
      is inserted, and either way takes the product's current price. */
  method AddItem(db: Database, cartId: Id, productId: Id, quantity: int) returns (r: Result<CartItem>)
    requires db.Valid() && cartId in db.carts
    modifies db
    ensures db.Valid()
    ensures db.users == old(db.users) && db.products == old(db.products)
    ensures db.carts == old(db.carts) && db.cartOfUser == old(db.cartOfUser)
    ensures productId !in old(db.products) ==>
              r == Err(ProductNotFound(IdText(productId)))
              && db.items == old(db.items) && db.nextId == old(db.nextId)
    ensures productId in old(db.products) && old(db.products[productId]).stockQuantity < quantity ==>
              var p := old(db.products[productId]);
              r == Err(OutOfStock(p.name, quantity, p.stockQuantity))
              && db.items == old(db.items) && db.nextId == old(db.nextId)
    ensures productId in old(db.products) && old(db.products[productId]).stockQuantity >= quantity ==>
              var p := old(db.products[productId]);
              r.Ok? && r.value.cartId == cartId && r.value.productId == productId
              && r.value.priceAtAddition == p.price
              && match FindLine(CartLines(old(db.items), cartId, old(db.nextId)), productId)
                 case Some(line) =>
                   r.value == line.(quantity := line.quantity + quantity, priceAtAddition := p.price)
                   && db.items == old(db.items)[line.id := r.value] && db.nextId == old(db.nextId)
                 case None =>
                   r.value == CartItem(old(db.nextId), cartId, productId, quantity, p.price)
                   && db.items == old(db.items)[r.value.id := r.value] && db.nextId == old(db.nextId) + 1
  {
    var found := ProductService.GetById(db.products, productId);
    if found.Err? {
      return Err(found.error);
    }
    var product := found.value;
    if product.stockQuantity < quantity {
      return Err(OutOfStock(product.name, quantity, product.stockQuantity));
    }
    var lines := CartLines(db.items, cartId, db.nextId);
    var existing := FindLine(lines, productId);
    if existing.Some? {
      var line := existing.value;
      CartLinesMembers(db.items, cartId, db.nextId, line);
      var updated := line.(quantity := line.quantity + quantity, priceAtAddition := product.price);
      db.items := db.items[line.id := updated];
      r := Ok(updated);
    } else {
      var id := db.nextId;
      var item := CartItem(id, cartId, productId, quantity, product.price);
      forall k | k in db.items && db.items[k].cartId == cartId
        ensures db.items[k].productId != productId
      {
        CartLinesMembers(db.items, cartId, db.nextId, db.items[k]);
      }
      db.items := db.items[id := item];
      db.nextId := db.nextId + 1;
      r := Ok(item);
    }
  }

    /** A store holding one cart (key 2, of user 0) with one line of 3 of
      product 1, which has 5 in stock at price 100. */
  predicate OneLineStore(db: Database)
    reads db
  {
    && db.users == map[] && db.carts == map[2 := Cart(2, 0, "", "")] && db.cartOfUser == map[0 := 2]
    && db.products == map[1 := Product(1, "Oud", "", Sealed, 100, 100, 5, "", "", None, None, None, None, true)]
    && db.items == map[3 := CartItem(3, 2, 1, 3, 100)] && db.nextId == 4
  }

  lemma OneLineStoreValid(db: Database)
    requires OneLineStore(db)
    ensures db.Valid()
    ensures CartLines(db.items, 2, db.nextId) == [CartItem(3, 2, 1, 3, 100)]
  {
    assert CartLines(db.items, 2, 3) == [] by {
      assert CartLines(db.items, 2, 1) == [];
      assert CartLines(db.items, 2, 2) == [];
    }
  }

  /** Adding checks only the amount being added against the stock: a cart
      already holding 3 of a product with 5 in stock accepts 3 more, and the
      line then asks for 6, more than there is. */
  method AddChecksOnlyTheAddedAmount() returns (r: Result<CartItem>)
    ensures r == Ok(CartItem(3, 2, 1, 6, 100))
    ensures r.value.quantity > 5
  {
    var db := new Database();
    db.carts, db.cartOfUser := map[2 := Cart(2, 0, "", "")], map[0 := 2];
    db.products := map[1 := Product(1, "Oud", "", Sealed, 100, 100, 5, "", "", None, None, None, None, true)];
    db.items, db.nextId := map[3 := CartItem(3, 2, 1, 3, 100)], 4;
    OneLineStoreValid(db);
    r := AddItem(db, 2, 1, 3);
  }

  /** `update_cart_item`: checks, in this order, that the line exists, that
      it lies in the user's cart (created on the way if the user had none)
      and that the product's stock covers the new quantity; then sets the
      quantity to exactly that value. */
  method UpdateCartItem(db: Database, userId: Id, itemId: Id, quantity: int, now: Timestamp) returns (r: Result<()>)
    requires db.Valid()
    modifies db
    ensures db.Valid()
    ensures db.users == old(db.users) && db.products == old(db.products)
    ensures itemId !in old(db.items) ==>
              r == Err(EntityNotFound("CartItem", IdText(itemId)))
              && db.carts == old(db.carts) && db.cartOfUser == old(db.cartOfUser)
              && db.items == old(db.items) && db.nextId == old(db.nextId)
    ensures itemId in old(db.items) ==> CartEnsured(db, userId, now)
    ensures itemId in old(db.items) && old(db.items[itemId]).cartId != db.CartOf(userId).id ==>
              r == Err(PermissionDenied("Not authorized to update this item")) && db.items == old(db.items)
    ensures itemId in old(db.items) && old(db.items[itemId]).cartId == db.CartOf(userId).id ==>
              var item := old(db.items[itemId]);
              var p := old(db.products[item.productId]);
              (p.stockQuantity < quantity ==>
                 r == Err(OutOfStock(p.name, quantity, p.stockQuantity)) && db.items == old(db.items))
              && (p.stockQuantity >= quantity ==>
                 r == Ok(()) && db.items == old(db.items)[itemId := item.(quantity := quantity)])
  {
    if itemId !in db.items {
      return Err(EntityNotFound("CartItem", IdText(itemId)));
    }
    var item := db.items[itemId];
    var cart := GetOrCreateCart(db, userId, now);
    if item.cartId != cart.id {
      return Err(PermissionDenied("Not authorized to update this item"));
    }
    // The line's product row exists (the store keeps lines linked), so the
    // lookup's not-found branch cannot be taken here.
    var product := db.products[item.productId];
    if product.stockQuantity < quantity {
      return Err(OutOfStock(product.name, quantity, product.stockQuantity));
    }
    db.items := db.items[itemId := item.(quantity := quantity)];
    r := Ok(());
  }

  /** `remove_cart_item`: the same existence and ownership checks as an
      update, then deletes that line and nothing else. */
  method RemoveCartItem(db: Database, userId: Id, itemId: Id, now: Timestamp) returns (r: Result<()>)
    requires db.Valid()
    modifies db
    ensures db.Valid()
    ensures db.users == old(db.users) && db.products == old(db.products)
    ensures itemId !in old(db.items) ==>
              r == Err(EntityNotFound("CartItem", IdText(itemId)))
              && db.carts == old(db.carts) && db.cartOfUser == old(db.cartOfUser)
              && db.items == old(db.items) && db.nextId == old(db.nextId)
    ensures itemId in old(db.items) ==> CartEnsured(db, userId, now)
    ensures itemId in old(db.items) && old(db.items[itemId]).cartId != db.CartOf(userId).id ==>
              r == Err(PermissionDenied("Not authorized to remove this item")) && db.items == old(db.items)
    ensures itemId in old(db.items) && old(db.items[itemId]).cartId == db.CartOf(userId).id ==>
              r == Ok(()) && db.items == old(db.items) - {itemId}
  {
    if itemId !in db.items {
      return Err(EntityNotFound("CartItem", IdText(itemId)));
    }
    var item := db.items[itemId];
    var cart := GetOrCreateCart(db, userId, now);
    if item.cartId != cart.id {
      return Err(PermissionDenied("Not authorized to remove this item"));
    }
    db.items := db.items - {itemId};
    r := Ok(());
  }

  /** `clear_cart`: selects the cart's lines and deletes them one by one;
      lines of other carts stay, and an empty cart is left as it is. */
  method ClearCart(db: Database, cartId: Id)
    requires db.Valid()
    modifies db
    ensures db.Valid()
    ensures db.items == WithoutCart(old(db.items), cartId)
    ensures db.users == old(db.users) && db.products == old(db.products) && db.carts == old(db.carts)
    ensures db.cartOfUser == old(db.cartOfUser) && db.nextId == old(db.nextId)
  {
    ghost var items0 := db.items;
    var doomed := CartLines(db.items, cartId, db.nextId);
    var i := 0;
    while i < |doomed|
      invariant 0 <= i <= |doomed|
      invariant db.items == old(db.items) - (set j | 0 <= j < i :: doomed[j].id)
      invariant db.users == old(db.users) && db.products == old(db.products) && db.carts == old(db.carts)
      invariant db.cartOfUser == old(db.cartOfUser) && db.nextId == old(db.nextId)
    {
      assert (set j | 0 <= j < i + 1 :: doomed[j].id) == (set j | 0 <= j < i :: doomed[j].id) + {doomed[i].id};
      db.items := db.items - {doomed[i].id};
      i := i + 1;
    }
    ghost var gone := set j | 0 <= j < |doomed| :: doomed[j].id;
    forall k | k in items0 ensures k in gone <==> items0[k].cartId == cartId {
      if items0[k].cartId == cartId {
        CartLinesMembers(items0, cartId, db.nextId, items0[k]);
        var j :| 0 <= j < |doomed| && doomed[j] == items0[k];
        assert k == doomed[j].id;
      }
      if k in gone {
        var j :| 0 <= j < |doomed| && doomed[j].id == k;
        assert doomed[j] in doomed;
        CartLinesMembers(items0, cartId, db.nextId, doomed[j]);
      }
    }
    assert db.items == WithoutCart(items0, cartId);
  }

  /** `get_cart_for_user`: the user's cart (created if missing) with a view
      of each line in cart order and the totals. */
  method GetCartForUser(db: Database, userId: Id, now: Timestamp) returns (resp: CartResponse)
    requires db.Valid()
    modifies db
    ensures db.Valid() && CartEnsured(db, userId, now) && db.items == old(db.items)
    ensures var lines := db.LinesOf(db.CartOf(userId).id);
      resp.id == db.CartOf(userId).id
      && |resp.items| == |lines|
      && (forall k :: 0 <= k < |lines| ==> resp.items[k] == ItemResponse(db.products[lines[k].productId], lines[k]))
      && (resp.totalAmount, resp.totalItems) == CalculateTotal(lines)
      && SumSubtotals(resp.items) == resp.totalAmount
  {
    var cart := GetOrCreateCart(db, userId, now);
    var lines := db.LinesOf(cart.id);
    var totals := CalculateTotal(lines);
    var views: seq<CartItemResponse> := [];
    for i := 0 to |lines|
      invariant |views| == i
      invariant forall k :: 0 <= k < i ==> views[k] == ItemResponse(db.products[lines[k].productId], lines[k])
    {
      assert lines[i] in lines;
      views := views + [ItemResponse(db.products[lines[i].productId], lines[i])];
    }
    resp := CartResponse(cart.id, views, totals.0, totals.1);
    SubtotalsSumToTotal(db.products, lines, views);
  }
}
