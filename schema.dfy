/** The rows of the shop's relational store and the results its handlers return.
    Ids are the values of the tables' serial columns. */
module Schema {

  datatype Option<+T> = None | Some(value: T)

  /** Serial ids start at 1, so a stored id is never falsy in JavaScript. */
  type UserId = x: nat | x > 0 witness 1
  type CartId = x: nat | x > 0 witness 1
  type ItemId = x: nat | x > 0 witness 1
  type ProductId = nat
  type VariantId = nat
  type SessionId = string
  /** The free-form JSON bag stored with an item, kept as its text. */
  type Metadata = string
  /** Prices are exact decimals; no floating point. */
  type Money = real
  /** Timestamps in seconds. */
  type Time = int

  /** `NOW() + INTERVAL '1 day'` is one day after creation. */
  const OneDay: Time := 86400

  /** A row of `users`; `passwordHash` is the bcrypt digest. */
  datatype User = User(email: string, passwordHash: string)

  /** A row of `cart`; `userId == None` marks a guest cart. */
  datatype Cart = Cart(
    userId: Option<UserId>,
    sessionId: SessionId,
    createdAt: Time,
    updatedAt: Time,
    expiresAt: Time)

  /** A row of `cart_item`; `priceAtTime` is the price read when the row was inserted. */
  datatype CartItem = CartItem(
    cartId: CartId,
    productId: ProductId,
    variantId: Option<VariantId>,
    quantity: int,
    priceAtTime: Money,
    metadata: Option<Metadata>)

  /** A row of the external, read-only `product` table. */
  datatype Product = Product(price: Money, inventory: int)

  /** The server-side session bound to the request: its id and the `userId`/`cartId` it holds. */
  datatype Session = Session(sid: SessionId, userId: Option<UserId>, cartId: Option<CartId>)

  /** A cart_item row as the handlers return it (`RETURNING *`). */
  datatype ItemRow = ItemRow(id: ItemId, item: CartItem)

  datatype Error =
    | MissingFields          // register: email or password falsy (HTTP 400)
    | DuplicateEmail         // register: unique constraint on users.email (HTTP 409)
    | InvalidCredentials     // login: unknown email or wrong password (HTTP 401)
    | NotFound               // getCart: no cart bound to the session (HTTP 404)
    | NoActiveCart           // session addItem: no cart bound to the session (HTTP 400)
    | InsufficientInventory  // addItem: inventory < quantity (HTTP 400)
    | UnknownProduct         // addItem: no product row, the insert is rejected
    | NoSuchItem             // updateItem: no row for (itemId, cartId)

  datatype Result<+T> = Ok(value: T) | Err(error: Error)
}
