# Shopping cart API: cart bookkeeping and the login cart merge

This project models the core of a session-aware shopping cart backend in Dafny:

- the cart router (`routes/cart.js`): create a cart, view it with live-priced
  totals, add items under an inventory check with a price snapshot,
  partially update an item, and remove items or clear a cart;
- the auth router (`routes/auth.js`): register a user, and log in. Login
  reconciles the session's guest cart with the cart the user already owns.

The relational store is a class, `Database.Database`. It holds the `users`,
`cart` and `cart_item` tables as maps from serial ids to rows, and the
read-only `product` table as a constant map. It also holds the request's
session (`sid`, `userId`, `cartId`) and the serial id sequences. Each handler
is a method over that store, and its `modifies` clause names the tables it
writes. Each handler runs as one atomic step. This matters for the login
merge: the source runs it as separate auto-committed statements.

`Tables` holds the set of a cart's item ids (`ItemsOf`), the merge's lookups
(`Owned`, `GuestCarts`), the two cart_item DELETEs (`DeleteItemRow`,
`DeleteCartRows`), the bulk cart_item UPDATE of the merge (`ReassignRows`) and
the partial update of an item (`PatchItem`, `OrQuantity`), each a function of
the table contents. The INSERTs of `CreateCart`, `AddItem` and `Register` are map updates in
those handler methods. The merge's cart UPDATE and cart DELETE are in
`Merge.MergedCarts`, and the merge's two cases are in `Merge`. Lemmas prove the properties that matter: conservation,
union of items, the frame, and single ownership. Totals are in `Totals`:

- each line is the JOIN row priced at the product's current price;
- the subtotal is a left fold, as `reduce` does;
- tax is a flat 10% and the total is their sum.

The rows of the JOIN come back in no particular order, and
`SubtotalPermutation` shows that the order cannot change the totals.

Modelling choices:

- Money is `real`, so the arithmetic is exact.
- Timestamps are integer seconds, and `NOW()` is a `now` parameter.
- bcrypt is external. `Register` receives the digest of the password, and
  `Login` asks the store's `matches` relation whether a password fits a
  digest.
- Request fields that JavaScript tests for truthiness are `Option` values.
  For metadata, `None` stands for every falsy value. For quantity, `Some(0)`
  is falsy too.
- An email or password counts as missing when it is the empty string. An
  absent field is passed as `""`.
- The session's `userId` and `cartId` are `Option`s. The id types `UserId`,
  `CartId` and `ItemId` are positive, because serial ids start at 1, so a
  bound id is never falsy.

At the edges, the model follows the handlers' code:

- Adding an item for a product that does not exist: the guard
  `inv.rows[0]?.inventory < quantity` compares `undefined` and does not fire.
  The handler then inserts a row that names no product and has no price. The
  model returns `UnknownProduct` and inserts nothing. This assumes the store
  refuses that row (a foreign key on the product, or NOT NULL on the price).
  The table definitions are not part of this model.
- Updating an item that does not exist: the handler dereferences an empty
  result and fails with its generic error (HTTP 500). The model returns
  `NoSuchItem` and changes nothing.
- `getCart` fails only when no cart id is bound to the session. A bound cart
  that no longer exists gives an empty view.
- `DELETE /cart/:id` deletes the cart's items, not the cart row.
- Clearing the session's cart with no cart bound changes nothing and reports
  success.
- Only falsy metadata falls back to the stored value. An empty JSON object is
  truthy in JavaScript and replaces the stored value.
- `updateItem` with quantity 0 keeps the stored quantity, as `||` does.

## Model

| member | source | states |
|---|---|---|
| `CartRoutes.CreateCart` | routes/cart.js:5-19 | inserts exactly one cart with a fresh id. Its owner is the session's user, or none for a guest. Its session id is the request's, and it expires one day after it is created. The session's `cartId` becomes the new id. Nothing else changes. |
| `CartRoutes.GetCart` | routes/cart.js:22-41 | with no bound cart: NotFound. Otherwise: every item of the bound cart whose product exists appears exactly once, as its live-priced line, in the order the rows come back. The summary is taken over those lines. The method changes no state. |
| `Totals.CartLines` | routes/cart.js:27 | each line belongs to an item of the cart whose product exists. Its `current_price` is the product's price, not the stored `price_at_time`, and its line total is that price times the quantity. Every such item has its line. |
| `Totals.Summarize` | routes/cart.js:29-34 | the subtotal is the fold of line totals, tax is subtotal × 0.1, and total = subtotal + tax = 1.1 × subtotal. |
| `Totals.SubtotalAppend` | routes/cart.js:29 | the reduce fold splits over concatenation of rows. |
| `Totals.SubtotalRemove` | routes/cart.js:29 | removing one row removes exactly its line total from the fold. |
| `Totals.SubtotalPermutation` | routes/cart.js:27-29 | any reordering of the rows gives the same subtotal. |
| `Totals.SummaryIndependentOfRowOrder` | routes/cart.js:27-34 | two listings of the same cart in any row order have equal subtotal, tax and total. |
| `Totals.CartLinesIgnoreSnapshot` | routes/cart.js:27 | tables that differ only in `price_at_time` produce the same cart view. The snapshot never enters the totals. |
| `Totals.SummaryExample` | routes/cart.js:29-32 | the lines (10.00 × 2) and (5.00 × 3) give subtotal 35.00, tax 3.50 and total 38.50. |
| `CartRoutes.AddItem` | routes/cart.js:43-61 | unknown product: UnknownProduct. Inventory < quantity: InsufficientInventory. Neither inserts a row. Otherwise exactly one row with a fresh id is inserted into the path's cart, with the requested quantity and `price_at_time` equal to the price read in the same call. Products are never written. |
| `CartRoutes.AddItemEffectRows` | routes/cart.js:48-53 | an add fails exactly when the product is missing or short of stock. A successful add puts exactly one new item in the target cart, and every other cart keeps its items. |
| `CartRoutes.AddItemToSessionCart` | routes/cart.js:64-85 | with no cart bound to the session: NoActiveCart, and nothing is inserted. Otherwise it has the same effect as AddItem on the bound cart. |
| `CartRoutes.UpdateItem` | routes/cart.js:87-103 | with no item matching both the item id and the cart id: NoSuchItem, and nothing changes. Otherwise only that row changes, to the partial update, and the updated row is returned. Inventory is not checked again. |
| `Tables.PatchItem` | routes/cart.js:90-95 | quantity and metadata each keep the stored value when the request leaves them falsy, and take the requested value otherwise. Cart, product, variant and price snapshot are unchanged. |
| `Tables.OrQuantity` | routes/cart.js:94 | an absent, null or zero quantity keeps the existing one. Any other value replaces it. |
| `CartRoutes.RemoveItem` | routes/cart.js:105-116 | the item table becomes DeleteItemRow of the old one. |
| `Tables.DeleteItemRow` | routes/cart.js:108 | deletes the item only when it belongs to that cart. Every other row is kept unchanged. |
| `Tables.DeleteItemRowIdempotent` | routes/cart.js:108 | removing an item twice leaves the same table as removing it once. |
| `CartRoutes.ClearCart` | routes/cart.js:118-129 | the item table becomes DeleteCartRows of the old one. Carts are not touched. |
| `CartRoutes.ClearSessionCart` | routes/cart.js:131-141 | clears the bound cart. With no cart bound, nothing changes. |
| `Tables.DeleteCartRows` | routes/cart.js:121 | deletes exactly the items of that cart and keeps every other row unchanged. |
| `Tables.DeleteCartRowsIdempotent` | routes/cart.js:121 | clearing twice equals clearing once. Afterwards the cart has no items, and every other cart has the items it had. |
| `AuthRoutes.Register` | routes/auth.js:7-26 | a falsy email or password gives MissingFields. An email already present gives DuplicateEmail. In both cases users are unchanged. Otherwise exactly one user with a fresh id is added, holding the email and the password's digest. The digest is one the password matches, as bcrypt guarantees for its own hashes, so after a successful registration the same email and password meet Login's success condition (`Authenticates`). |
| `AuthRoutes.Login` | routes/auth.js:28-68 | an unknown email and a wrong password both give InvalidCredentials and change no cart, item or session. Otherwise the user is the one with that email and the password matches. Carts and items are changed by the merge. `session.userId` becomes the user. `session.cartId` becomes the merge's result cart when a guest cart was found and otherwise stays as it was. |
| `AuthRoutes.MergeGuestCart` | routes/auth.js:39-57 | picks a guest cart of the session when one exists and picks the case from the user's carts (ValidChoice). It leaves the carts and items that MergedCarts and MergedItems give. |
| `Merge.ResultCart` | routes/auth.js:44-53 | no guest cart: none. Case A: the guest cart. Case B: the user's existing cart. |
| `Merge.MergedCarts` | routes/auth.js:49-56 | no guest cart: carts unchanged. Case A: same carts, with the guest cart's owner set to the user. Case B: the guest cart deleted. Every other cart is unchanged. |
| `Merge.MergedItems` | routes/auth.js:52-55 | items change only in case B, where the guest cart's rows are reassigned to the target. |
| `Tables.ReassignRows` | routes/auth.js:54 | the same item ids. Rows of the source cart now point at the destination, and no other field or row changes. |
| `Tables.ReassignRowsUnion` | routes/auth.js:54 | after the move, the destination holds its old items plus the source's, the source holds none, and other carts are unchanged. |
| `Merge.MergeConservesItems` | routes/auth.js:47-55 | the merge never loses or duplicates an item. The item ids are the same, each row's fields other than `cart_id` are preserved, and `cart_id` changes only from guest to target. |
| `Merge.MergeReassignCase` | routes/auth.js:49-51 | case A: no cart is created or deleted, the guest cart is the user's, items are unchanged, and the result is the guest cart. The user owns exactly that cart. |
| `Merge.MergeMoveCase` | routes/auth.js:52-55 | case B: guest and target differ. The target holds its old items plus the guest's, the guest cart is gone and holds no item, and the result is the target. |
| `Merge.MergeFrame` | routes/auth.js:47-56 | every cart other than the guest and the target is unchanged, and so are its items. |
| `Merge.MergeConsumesGuestCart` | routes/auth.js:39-56 | the guest cart the merge picks is no longer a guest cart of the session afterwards, and every other guest cart of the session still is one (see Findings). |
| `Merge.MergeSingleOwner` | routes/auth.js:47-55 | a user who owned at most one cart owns exactly one after a merge: the cart recorded in the session. Owning at most one cart is a hypothesis, not an invariant of the model: `CreateCart` called by a logged-in user who already owns a cart gives that user a second one. |
| `Tables.Owned` | routes/auth.js:47 | exactly the stored carts owned by the user; none of them is a guest cart. |
| `Tables.GuestCarts` | routes/auth.js:39-42 | exactly the stored carts of the session with no owner; none of them is owned by any user. |
| `Totals.Subtotal` | routes/cart.js:29 | the left fold of line totals starting from 0, as `reduce` does; its algebra is in SubtotalAppend, SubtotalRemove and SubtotalPermutation. |
| `Totals.SubtotalNonNegative` | routes/cart.js:29 | the reduce fold of line totals is non-negative when every line total is. |
| `Merge.MergeLeavesOtherGuestCart` | routes/auth.js:39-46 | a session with two guest carts 1 and 2: the merge may take cart 1, and cart 2 is then still a guest cart of the session. |
| `Merge.ReassignFrom` | routes/auth.js:54 | the same item ids; rows of any of the source carts now point at the destination, and every other row is unchanged. |
| `Merge.FullMergedCarts` | routes/auth.js:44-56 | the merge over every guest cart of the session: in case A the picked cart is the user's and the other guest carts are deleted; in case B all of them are deleted; every other cart is unchanged. |
| `Merge.FullMergedItems` | routes/auth.js:52-55 | the items of every guest cart of the session move into the cart login records. |
| `Merge.FullMergeConsumesGuestCarts` | routes/auth.js:39-56 | after the full merge no guest cart of the session is left, the recorded cart exists and is the user's, no item is lost, and every item of a guest cart of the session is in the recorded cart. |

## Findings

| source | as written | input that shows it | evidently intended | confidence | as-written member | corrected member |
|---|---|---|---|---|---|---|
| routes/auth.js:39-46 | login merges only `guestCart.rows[0]`, the first guest cart of the session | two `POST /cart` calls as a guest, then login: the session holds guest carts 1 and 2, and the merge takes cart 1 only | every guest cart of the session is merged into the cart login records, so none is left behind with its items | medium, not executed | `Merge.MergeLeavesOtherGuestCart` | `Merge.FullMergeConsumesGuestCarts` |

`Login` and `MergeGuestCart` model the handler as written. `FullMergedCarts`
and `FullMergedItems` define the intended merge.

## Left out

- HTTP routing, status codes and JSON bodies: each outcome is a value of `Result`/`Error`.
- Connection pooling (`pool.connect`, `client.release`, `db.js`): resource plumbing only. This includes the release missing from the session-based clear-cart handler.
- Server start-up, the session store and shutdown (`index.js`).
- bcrypt hashing and comparison. `Register` takes the digest as a parameter, because bcrypt salts at random. `Login` uses the `matches` relation given to the store.
- Floating point, `parseFloat` and `toFixed(2)` rounding. Totals are exact reals and are not formatted to two decimals.
- `NOW()`: the clock is the `now` parameter of `CreateCart`.
- Store failures other than the ones modelled (lost connections, constraint violations not named above). These are the generic HTTP 500 paths.
- Concurrency: each handler is atomic, so interleaved requests and the read-then-write inventory race are not modelled. The merge's per-statement commits in the source are made one atomic step.
- Column types and constraints of the tables beyond those the handlers rely on. Quantities are any integers, because no handler validates them.
- Truthiness of non-string emails and passwords, and of request values other than those above.
- Several concurrent sessions: the store carries the one session of the request being served.
- Login with the intended merge: `Login` keeps the handler's single-cart merge, and the full merge is stated only as functions in `Merge`.
