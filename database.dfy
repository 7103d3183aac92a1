/** The relational store the handlers run against, with the session of the
    request being served. Each table is a map from its serial id to its row. */
module Database {
  import opened Schema

  class Database {
    var users: map<UserId, User>
    var carts: map<CartId, Cart>
    var items: map<ItemId, CartItem>
    /** The product table is external and only ever read. */
    const products: map<ProductId, Product>
    /** `req.sessionID` together with the `userId` and `cartId` stored in the session. */
    var session: Session
    /** The next values of the serial id sequences. */
    var nextUserId: UserId
    var nextCartId: CartId
    var nextItemId: ItemId
    /** bcrypt's compare: whether a password matches a stored digest. */
    const matches: (string, string) -> bool

    /** Every id lies below its sequence's next value, and `users.email` is unique. */
    ghost predicate Valid()
      reads this
    {
      && (forall u :: u in users ==> u < nextUserId)
      && (forall c :: c in carts ==> c < nextCartId)
      && (forall i :: i in items ==> i < nextItemId)
      && UniqueEmails(users)
    }

    static ghost predicate UniqueEmails(users: map<UserId, User>)
    {
      forall u, v :: u in users && v in users && users[u].email == users[v].email ==> u == v
    }

    /** Empty user, cart and cart_item tables over a given product table, for a
        session with nothing stored in it yet. */
    constructor (products: map<ProductId, Product>, sid: SessionId, matches: (string, string) -> bool)
      ensures Valid()
      ensures users == map[] && carts == map[] && items == map[]
      ensures this.products == products && this.matches == matches
      ensures session == Session(sid, None, None)
    {
      users, carts, items := map[], map[], map[];
      this.products := products;
      session := Session(sid, None, None);
      nextUserId, nextCartId, nextItemId := 1, 1, 1;
      this.matches := matches;
    }
  }
}
