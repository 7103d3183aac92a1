/** The SQL statements the handlers issue, each as a function from the old
    table contents to the new ones, and what they promise. */
module Tables {
  import opened Schema

  /** The ids of the items of cart c. */
  function ItemsOf(items: map<ItemId, CartItem>, c: CartId): set<ItemId>
  {
    set i | i in items && items[i].cartId == c
  }

  /** `SELECT cart_id FROM cart WHERE user_id = uid`: exactly the stored carts
      owned by uid; none of them is a guest cart. */
  function Owned(carts: map<CartId, Cart>, uid: UserId): (r: set<CartId>)
    ensures r <= carts.Keys
    ensures forall c :: c in r ==> carts[c].userId == Some(uid)
    ensures forall c :: c in carts && carts[c].userId == Some(uid) ==> c in r
  {
    set c | c in carts && carts[c].userId == Some(uid)
  }

  /** `SELECT cart_id FROM cart WHERE session_id = sid AND user_id IS NULL`:
      exactly the stored carts of session sid that no user owns, so none of them
      is owned by any user. */
  function GuestCarts(carts: map<CartId, Cart>, sid: SessionId): (r: set<CartId>)
    ensures r <= carts.Keys
    ensures forall c :: c in carts && carts[c].sessionId == sid && carts[c].userId == None ==> c in r
    ensures forall c :: c in r ==> carts[c].sessionId == sid
    ensures forall u :: r !! Owned(carts, u)
  {
    set c | c in carts && carts[c].sessionId == sid && carts[c].userId == None
  }

  /** `DELETE FROM cart_item WHERE cart_id = c AND cart_item_id = i`: the row
      goes only when it belongs to that cart; every other row stays as it was. */
  function DeleteItemRow(items: map<ItemId, CartItem>, c: CartId, i: ItemId): (r: map<ItemId, CartItem>)
    ensures i in items && items[i].cartId == c ==> r.Keys == items.Keys - {i}
    ensures !(i in items && items[i].cartId == c) ==> r == items
    ensures forall k :: k in r ==> k in items && r[k] == items[k]
  {
    if i in items && items[i].cartId == c then items - {i} else items
  }

  /** `DELETE FROM cart_item WHERE cart_id = c`: exactly the rows of cart c go. */
  function DeleteCartRows(items: map<ItemId, CartItem>, c: CartId): (r: map<ItemId, CartItem>)
    ensures r.Keys == items.Keys - ItemsOf(items, c)
    ensures forall k :: k in r ==> r[k] == items[k]
  {
    map k | k in items && items[k].cartId != c :: items[k]
  }

  /** `UPDATE cart_item SET cart_id = dst WHERE cart_id = src`: the same rows,
      those of src now pointing at dst, no other field touched. */
  function ReassignRows(items: map<ItemId, CartItem>, src: CartId, dst: CartId): (r: map<ItemId, CartItem>)
    ensures r.Keys == items.Keys
    ensures forall k :: k in items && items[k].cartId == src ==> r[k] == items[k].(cartId := dst)
    ensures forall k :: k in items && items[k].cartId != src ==> r[k] == items[k]
  {
    map k | k in items :: if items[k].cartId == src then items[k].(cartId := dst) else items[k]
  }

  /** `value || existing`: a falsy request value (absent, null, 0) keeps the stored one. */
  function OrQuantity(requested: Option<int>, existing: int): (q: int)
    ensures (requested == None || requested == Some(0)) ==> q == existing
    ensures requested.Some? && requested.value != 0 ==> q == requested.value
  {
    if requested.Some? && requested.value != 0 then requested.value else existing
  }

  /** The partial update of updateItem: quantity and metadata each fall back to
      the stored value when the request leaves them falsy (None stands for every
      falsy JSON value); nothing else in the row changes. */
  function PatchItem(item: CartItem, quantity: Option<int>, metadata: Option<Metadata>): (r: CartItem)
    ensures r.quantity == OrQuantity(quantity, item.quantity)
    ensures metadata == None ==> r.metadata == item.metadata
    ensures metadata.Some? ==> r.metadata == metadata
    ensures r.cartId == item.cartId && r.productId == item.productId && r.variantId == item.variantId
    ensures r.priceAtTime == item.priceAtTime
  {
    item.(quantity := OrQuantity(quantity, item.quantity),
          metadata := if metadata.Some? then metadata else item.metadata)
  }

  /** Deleting one item twice leaves what deleting it once leaves. */
  lemma DeleteItemRowIdempotent(items: map<ItemId, CartItem>, c: CartId, i: ItemId)
    ensures DeleteItemRow(DeleteItemRow(items, c, i), c, i) == DeleteItemRow(items, c, i)
  {
  }

  /** Clearing a cart twice leaves what clearing it once leaves; afterwards the
      cart holds no row and every other cart holds exactly what it held. */
  lemma DeleteCartRowsIdempotent(items: map<ItemId, CartItem>, c: CartId)
    ensures DeleteCartRows(DeleteCartRows(items, c), c) == DeleteCartRows(items, c)
    ensures ItemsOf(DeleteCartRows(items, c), c) == {}
    ensures forall d :: d != c ==> ItemsOf(DeleteCartRows(items, c), d) == ItemsOf(items, d)
  {
  }

  /** After moving the rows of src into dst, dst holds its old rows and src's
      old rows, src holds none, and every other cart holds what it held. */
  lemma ReassignRowsUnion(items: map<ItemId, CartItem>, src: CartId, dst: CartId)
    requires src != dst
    ensures ItemsOf(ReassignRows(items, src, dst), dst) == ItemsOf(items, dst) + ItemsOf(items, src)
    ensures ItemsOf(ReassignRows(items, src, dst), src) == {}
    ensures forall d :: d != src && d != dst ==> ItemsOf(ReassignRows(items, src, dst), d) == ItemsOf(items, d)
  {
  }
}
