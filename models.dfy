/** The persisted entities (app/models/core.py) with their defaults, and the
    enumerations of backend/app/core/enums.py. UUID keys become natural
    numbers handed out fresh by the store; timestamps are opaque texts. */
module Models {
  import opened Text

  type Id = nat

  /** A point in time as the store renders it; clocks are not modelled. */
  type Timestamp = string

  /** The text of an identifier inside an error message. */
  function IdText(id: Id): string
  {
    NatToString(id)
  }

  /** ProductType. `Unlisted` holds a type text outside the enumeration,
      which the catalog import stores as it finds it. */
  datatype ProductType = Sealed | Decant | NoType | Unlisted(text: string)

  /** The stored text of a product type. */
  function TypeText(t: ProductType): string
  {
    match t
    case Sealed => "sealed"
    case Decant => "decant"
    case NoType => "none"
    case Unlisted(s) => s
  }

  /** Reads a stored type text back: the three enumeration values by their
      texts, anything else as `Unlisted`. */
  function ParseType(s: string): (t: ProductType)
    ensures TypeText(t) == s
    ensures t.Unlisted? <==> s != "sealed" && s != "decant" && s != "none"
  {
    if s == "sealed" then Sealed
    else if s == "decant" then Decant
    else if s == "none" then NoType
    else Unlisted(s)
  }

  datatype OrderStatus = Pending | Confirmed | Cancelled

  datatype User = User(
    id: Id,
    email: string,
    username: string,
    fullName: Option<string>,
    phone: Option<string>,
    isActive: bool,
    isAdmin: bool,
    hashedPassword: string)

  datatype Product = Product(
    id: Id,
    name: string,
    brand: string,
    kind: ProductType,
    sizeMl: int,
    price: int,
    stockQuantity: int,
    description: string,
    fragranceFamily: string,
    notesTop: Option<string>,
    notesHeart: Option<string>,
    notesBase: Option<string>,
    imageUrl: Option<string>,
    isActive: bool)

  datatype Cart = Cart(id: Id, userId: Id, createdAt: Timestamp, updatedAt: Timestamp)

  /** One product line of a cart; `priceAtAddition` is the product's price
      when the line was last added to, not a live price. */
  datatype CartItem = CartItem(id: Id, cartId: Id, productId: Id, quantity: int, priceAtAddition: int)

  datatype OrderItem = OrderItem(id: Id, orderId: Id, productId: Id, quantity: int, priceAtPurchase: int)

  datatype Order = Order(id: Id, userId: Id, totalAmount: int, status: OrderStatus, whatsappMessageSent: bool)

  /** CartItem.quantity when none is given. */
  const DefaultCartItemQuantity: int := 1

  /** Product.type when none is given. */
  const DefaultProductType: ProductType := NoType

  /** A user row as created from the given fields: active, not an admin, no phone. */
  function NewUser(id: Id, email: string, username: string, fullName: Option<string>, hashedPassword: string): (u: User)
    ensures u.isActive && !u.isAdmin && u.phone == None
    ensures u.id == id && u.email == email && u.username == username
    ensures u.fullName == fullName && u.hashedPassword == hashedPassword
  {
    User(id, email, username, fullName, None, true, false, hashedPassword)
  }

  /** A cart line created without a quantity holds the default quantity 1. */
  function NewCartItem(id: Id, cartId: Id, productId: Id, priceAtAddition: int): (item: CartItem)
    ensures item.quantity == 1
    ensures item.id == id && item.cartId == cartId && item.productId == productId
    ensures item.priceAtAddition == priceAtAddition
  {
    CartItem(id, cartId, productId, DefaultCartItemQuantity, priceAtAddition)
  }

  /** A new order is pending and its message not yet sent. */
  function NewOrder(id: Id, userId: Id, totalAmount: int): (o: Order)
    ensures o.status == Pending && !o.whatsappMessageSent
    ensures o.id == id && o.userId == userId && o.totalAmount == totalAmount
  {
    Order(id, userId, totalAmount, Pending, false)
  }

  /** The unique indexes on User.email and User.username. */
  predicate UniqueLogins(users: map<Id, User>)
  {
    forall a, b :: a in users && b in users && a != b ==>
      users[a].email != users[b].email && users[a].username != users[b].username
  }
}
