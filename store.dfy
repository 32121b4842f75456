/** The relational store the services work on, as one object whose tables
    are finite maps from key to row. `cartOfUser` is the unique index on
    Cart.user_id; `nextId` hands out fresh keys, so keys grow with insertion
    and a cart's lines listed by key are listed in insertion order. */
module Store {
  import opened Models

  predicate KeysBelow<T>(m: map<Id, T>, n: nat)
  {
    forall k :: k in m ==> k < n
  }

  predicate UsersKeyed(users: map<Id, User>)
  {
    forall k :: k in users ==> users[k].id == k
  }

  predicate ProductsKeyed(products: map<Id, Product>)
  {
    forall k :: k in products ==> products[k].id == k
  }

  /** The cart index agrees with the carts table in both directions, so no
      user has two carts. */
  predicate CartsIndexed(carts: map<Id, Cart>, cartOfUser: map<Id, Id>)
  {
    && (forall u :: u in cartOfUser ==> cartOfUser[u] in carts && carts[cartOfUser[u]].userId == u)
    && (forall c :: c in carts ==>
          carts[c].id == c && carts[c].userId in cartOfUser && cartOfUser[carts[c].userId] == c)
  }

  /** Every line is stored under its own key and refers to a stored cart and product. */
  predicate ItemsLinked(items: map<Id, CartItem>, carts: map<Id, Cart>, products: map<Id, Product>)
  {
    forall k :: k in items ==>
      items[k].id == k && items[k].cartId in carts && items[k].productId in products
  }

  /** No two lines of one cart refer to the same product. The table does not
      declare this; adding to a cart keeps it by looking the line up first. */
  predicate OneLinePerProduct(items: map<Id, CartItem>)
  {
    forall i, j :: i in items && j in items && i != j ==>
      items[i].cartId != items[j].cartId || items[i].productId != items[j].productId
  }

  /** At most one cart per user follows from the index. */
  lemma AtMostOneCartPerUser(carts: map<Id, Cart>, cartOfUser: map<Id, Id>, a: Id, b: Id)
    requires CartsIndexed(carts, cartOfUser)
    requires a in carts && b in carts && carts[a].userId == carts[b].userId
    ensures a == b
  {
    assert cartOfUser[carts[a].userId] == a;
  }

  /** The lines of cart `cartId` among the keys below `n`, by increasing key. */
  function CartLines(items: map<Id, CartItem>, cartId: Id, n: nat): (lines: seq<CartItem>)
    ensures |lines| <= n
  {
    if n == 0 then []
    else CartLines(items, cartId, n - 1)
         + (if n - 1 in items && items[n - 1].cartId == cartId then [items[n - 1]] else [])
  }

  /** A row is among the lines of a cart exactly when it is stored under a
      key below the bound and belongs to that cart. */
  lemma {:induction false} CartLinesMembers(items: map<Id, CartItem>, cartId: Id, n: nat, x: CartItem)
    requires forall k :: k in items ==> items[k].id == k
    ensures x in CartLines(items, cartId, n) <==>
              x.id < n && x.id in items && items[x.id] == x && x.cartId == cartId
  {
    if n > 0 {
      CartLinesMembers(items, cartId, n - 1, x);
    }
  }

  /** The lines are listed by strictly increasing key. */
  lemma {:induction false} CartLinesOrdered(items: map<Id, CartItem>, cartId: Id, n: nat, i: nat, j: nat)
    requires forall k :: k in items ==> items[k].id == k
    requires i < j < |CartLines(items, cartId, n)|
    ensures CartLines(items, cartId, n)[i].id < CartLines(items, cartId, n)[j].id
  {
    var prev := CartLines(items, cartId, n - 1);
    if j < |prev| {
      CartLinesOrdered(items, cartId, n - 1, i, j);
    } else {
      CartLinesMembers(items, cartId, n - 1, prev[i]);
    }
  }

  /** The lines of a cart are the same for every bound past the keys in use. */
  lemma {:induction false} CartLinesPastKeys(items: map<Id, CartItem>, cartId: Id, n: nat, m: nat)
    requires KeysBelow(items, n) && n <= m
    ensures CartLines(items, cartId, m) == CartLines(items, cartId, n)
    decreases m - n
  {
    if m > n {
      CartLinesPastKeys(items, cartId, n, m - 1);
    }
  }

  /** The items table without the lines of one cart. */
  function WithoutCart(items: map<Id, CartItem>, cartId: Id): (r: map<Id, CartItem>)
    ensures forall k :: k in r <==> k in items && items[k].cartId != cartId
  {
    map k | k in items && items[k].cartId != cartId :: items[k]
  }

  class Database {
    var users: map<Id, User>
    var products: map<Id, Product>
    var carts: map<Id, Cart>
    var cartOfUser: map<Id, Id>
    var items: map<Id, CartItem>
    var nextId: nat

    ghost predicate Valid()
      reads this
    {
      && KeysBelow(users, nextId) && KeysBelow(products, nextId)
      && KeysBelow(carts, nextId) && KeysBelow(items, nextId)
      && UsersKeyed(users) && ProductsKeyed(products)
      && CartsIndexed(carts, cartOfUser)
      && ItemsLinked(items, carts, products)
      && OneLinePerProduct(items)
    }

    constructor ()
      ensures Valid()
      ensures users == map[] && products == map[] && carts == map[] && cartOfUser == map[]
      ensures items == map[] && nextId == 0
    {
      users, products, carts, cartOfUser, items, nextId := map[], map[], map[], map[], map[], 0;
    }

    /** The cart of a user who has one. */
    function CartOf(userId: Id): (c: Cart)
      reads this
      requires Valid() && userId in cartOfUser
      ensures c in carts.Values && c.userId == userId
    {
      carts[cartOfUser[userId]]
    }

    /** The lines of a cart, in insertion order. */
    function LinesOf(cartId: Id): (lines: seq<CartItem>)
      reads this
      requires Valid()
      ensures forall x :: x in lines ==> x.productId in products && x.cartId == cartId
    {
      var lines := CartLines(items, cartId, nextId);
      assert forall x :: x in lines ==> x.productId in products && x.cartId == cartId by {
        forall x | x in lines ensures x.productId in products && x.cartId == cartId {
          CartLinesMembers(items, cartId, nextId, x);
        }
      }
      lines
    }
  }

  /** The store after a get-or-create of `userId`'s cart at time `now`: users
      and products as they were, and the carts, the index and the key counter
      changed only by one fresh cart when the user had none. */
  twostate predicate CartEnsured(db: Database, userId: Id, now: Timestamp)
    reads db
  {
    && db.users == old(db.users) && db.products == old(db.products)
    && userId in db.cartOfUser
    && (userId in old(db.cartOfUser) ==>
          db.carts == old(db.carts) && db.cartOfUser == old(db.cartOfUser) && db.nextId == old(db.nextId))
    && (userId !in old(db.cartOfUser) ==>
          var c := Cart(old(db.nextId), userId, now, now);
          db.nextId == old(db.nextId) + 1
          && db.carts == old(db.carts)[c.id := c]
          && db.cartOfUser == old(db.cartOfUser)[userId := c.id])
  }
}
