/** The handlers of the cart router: create a cart, view it with totals, add,
    update and remove items, and clear a cart. Each runs as one atomic step
    against the store and the request's session. */
module CartRoutes {
  import opened Schema
  import opened Tables
  import opened Totals
  import opened Database

  /** The cart view: the cart id, its lines in the order the rows came back,
      and the totals. */
  datatype CartView = CartView(cartId: CartId, lines: seq<Line>, summary: Summary)

  /** `POST /cart`: inserts one cart owned by the session's user, or a guest
      cart when no one is logged in, created now and expiring a day later, and
      binds it to the session. */
  method CreateCart(db: Database, now: Time) returns (id: CartId)
    requires db.Valid()
    modifies db`carts, db`nextCartId, db`session
    ensures db.Valid()
    ensures id !in old(db.carts)
    ensures db.carts == old(db.carts)[id := Cart(old(db.session.userId), old(db.session.sid), now, now, now + OneDay)]
    ensures db.session == old(db.session).(cartId := Some(id))
  {
    id := db.nextCartId;
    db.nextCartId := db.nextCartId + 1;
    db.carts := db.carts[id := Cart(db.session.userId, db.session.sid, now, now, now + OneDay)];
    db.session := db.session.(cartId := Some(id));
  }

  /** `GET /`: with no cart bound to the session, NotFound. Otherwise every item
      of the bound cart whose product exists, exactly once each, priced at the
      product's current price, with subtotal, tax and total over those lines.
      Nothing is changed. */
  method GetCart(db: Database) returns (r: Result<CartView>)
    ensures db.session.cartId == None <==> r == Err(NotFound)
    ensures db.session.cartId.Some? ==> r.Ok? && r.value.cartId == db.session.cartId.value
    ensures r.Ok? ==> multiset(r.value.lines) == multiset(CartLines(db.items, db.products, r.value.cartId))
    ensures r.Ok? ==> r.value.summary == Summarize(r.value.lines)
  {
    if db.session.cartId == None {
      return Err(NotFound);
    }
    var c := db.session.cartId.value;
    var rows := CartLines(db.items, db.products, c);
    // The rows come back from the store in no particular order.
    var lines: seq<Line> := [];
    var rest := rows;
    while rest != {}
      invariant rest <= rows
      invariant multiset(lines) + multiset(rest) == multiset(rows)
      decreases |rest|
    {
      var l :| l in rest;
      assert multiset(rest) == multiset(rest - {l}) + multiset{l};
      lines := lines + [l];
      rest := rest - {l};
    }
    r := Ok(CartView(c, lines, Summarize(lines)));
  }

  /** The effect of an add on the cart_item table: with no such product,
      UnknownProduct; with less inventory than asked for, InsufficientInventory;
      in both cases no row is inserted. Otherwise exactly one row with a fresh
      id is inserted into the cart, with the requested quantity and the price
      read in the same call. */
  ghost predicate AddItemEffect(
    items: map<ItemId, CartItem>, items': map<ItemId, CartItem>, products: map<ProductId, Product>,
    cartId: CartId, productId: ProductId, variantId: Option<VariantId>, quantity: int,
    metadata: Option<Metadata>, r: Result<ItemRow>)
  {
    if productId !in products then
      r == Err(UnknownProduct) && items' == items
    else if products[productId].inventory < quantity then
      r == Err(InsufficientInventory) && items' == items
    else
      && r.Ok? && r.value.id !in items
      && r.value.item == CartItem(cartId, productId, variantId, quantity, products[productId].price, metadata)
      && items' == items[r.value.id := r.value.item]
  }

  /** An add fails exactly when the product is missing or short of stock; a
      successful one adds exactly one item to the target cart and leaves the
      items of every other cart as they were. */
  lemma AddItemEffectRows(
    items: map<ItemId, CartItem>, items': map<ItemId, CartItem>, products: map<ProductId, Product>,
    cartId: CartId, productId: ProductId, variantId: Option<VariantId>, quantity: int,
    metadata: Option<Metadata>, r: Result<ItemRow>)
    requires AddItemEffect(items, items', products, cartId, productId, variantId, quantity, metadata, r)
    ensures r.Err? <==> productId !in products || products[productId].inventory < quantity
    ensures r.Err? ==> items' == items
    ensures r.Ok? ==> ItemsOf(items', cartId) == ItemsOf(items, cartId) + {r.value.id}
    ensures r.Ok? ==> r.value.id !in ItemsOf(items, cartId)
    ensures r.Ok? ==> forall d :: d != cartId ==> ItemsOf(items', d) == ItemsOf(items, d)
  {
  }

  /** `POST /cart/:id/items`. */
  method AddItem(
    db: Database, cartId: CartId, productId: ProductId, variantId: Option<VariantId>,
    quantity: int, metadata: Option<Metadata>) returns (r: Result<ItemRow>)
    requires db.Valid()
    modifies db`items, db`nextItemId
    ensures db.Valid()
    ensures AddItemEffect(old(db.items), db.items, db.products, cartId, productId, variantId, quantity, metadata, r)
  {
    var livePrice: Option<Money> := if productId in db.products then Some(db.products[productId].price) else None;
    var inventory: Option<int> := if productId in db.products then Some(db.products[productId].inventory) else None;
    if inventory.Some? && inventory.value < quantity {
      return Err(InsufficientInventory);
    }
    // For a missing product the guard above does not fire; the row it would
    // insert names no product and carries no price, and the store refuses it.
    if livePrice == None {
      return Err(UnknownProduct);
    }
    var id := db.nextItemId;
    db.nextItemId := db.nextItemId + 1;
    var item := CartItem(cartId, productId, variantId, quantity, livePrice.value, metadata);
    db.items := db.items[id := item];
    r := Ok(ItemRow(id, item));
  }

  /** `POST /items`: as AddItem on the cart bound to the session; with none
      bound, NoActiveCart and nothing is inserted. */
  method AddItemToSessionCart(
    db: Database, productId: ProductId, variantId: Option<VariantId>,
    quantity: int, metadata: Option<Metadata>) returns (r: Result<ItemRow>)
    requires db.Valid()
    modifies db`items, db`nextItemId
    ensures db.Valid()
    ensures db.session.cartId == None ==> r == Err(NoActiveCart) && db.items == old(db.items)
    ensures db.session.cartId.Some? ==>
      AddItemEffect(old(db.items), db.items, db.products, db.session.cartId.value, productId, variantId, quantity, metadata, r)
  {
    if db.session.cartId == None {
      return Err(NoActiveCart);
    }
    r := AddItem(db, db.session.cartId.value, productId, variantId, quantity, metadata);
  }

  /** `PUT /cart/:id/items/:itemId`: with no item itemId in cart cartId,
      NoSuchItem and nothing changes. Otherwise that one row gets the requested
      quantity and metadata, each falling back to the stored value when the
      request leaves it falsy; inventory is not checked again. */
  method UpdateItem(
    db: Database, cartId: CartId, itemId: ItemId,
    quantity: Option<int>, metadata: Option<Metadata>) returns (r: Result<ItemRow>)
    requires db.Valid()
    modifies db`items
    ensures db.Valid()
    ensures !(itemId in old(db.items) && old(db.items)[itemId].cartId == cartId) ==>
      r == Err(NoSuchItem) && db.items == old(db.items)
    ensures itemId in old(db.items) && old(db.items)[itemId].cartId == cartId ==>
      && r == Ok(ItemRow(itemId, PatchItem(old(db.items)[itemId], quantity, metadata)))
      && db.items == old(db.items)[itemId := r.value.item]
  {
    if !(itemId in db.items && db.items[itemId].cartId == cartId) {
      return Err(NoSuchItem);
    }
    var updated := PatchItem(db.items[itemId], quantity, metadata);
    db.items := db.items[itemId := updated];
    r := Ok(ItemRow(itemId, updated));
  }

  /** `DELETE /cart/:id/items/:itemId`: deletes the item only if it is in that
      cart; nothing else changes. */
  method RemoveItem(db: Database, cartId: CartId, itemId: ItemId)
    requires db.Valid()
    modifies db`items
    ensures db.Valid()
    ensures db.items == DeleteItemRow(old(db.items), cartId, itemId)
  {
    db.items := DeleteItemRow(db.items, cartId, itemId);
  }

  /** `DELETE /cart/:id`: deletes every item of the cart; the cart row itself
      and other carts' items stay. */
  method ClearCart(db: Database, cartId: CartId)
    requires db.Valid()
    modifies db`items
    ensures db.Valid()
    ensures db.items == DeleteCartRows(old(db.items), cartId)
  {
    db.items := DeleteCartRows(db.items, cartId);
  }

  /** `DELETE /cart`: clears the cart bound to the session; with none bound the
      statement matches no row (`cart_id = NULL`) and nothing changes. */
  method ClearSessionCart(db: Database)
    requires db.Valid()
    modifies db`items
    ensures db.Valid()
    ensures db.session.cartId == None ==> db.items == old(db.items)
    ensures db.session.cartId.Some? ==> db.items == DeleteCartRows(old(db.items), db.session.cartId.value)
  {
    if db.session.cartId.Some? {
      db.items := DeleteCartRows(db.items, db.session.cartId.value);
    }
  }
}
