/** The identity merge at login: which of its two cases applies, what each does
    to the cart and cart_item tables, and what the merge keeps. */
module Merge {
  import opened Schema
  import opened Tables

  /** What the merge did: no guest cart was found; the guest cart was handed to
      the user (the user owned no cart); or its items were moved into the
      user's cart `target` and the guest cart was deleted. */
  datatype MergeOutcome =
    | NoGuestCart
    | Reassigned(guest: CartId)
    | MovedInto(guest: CartId, target: CartId)

  /** The cart id login records in the session, if any. */
  function ResultCart(m: MergeOutcome): (r: Option<CartId>)
    ensures m.NoGuestCart? <==> r == None
    ensures m.Reassigned? ==> r == Some(m.guest)
    ensures m.MovedInto? ==> r == Some(m.target)
  {
    match m
    case NoGuestCart => None
    case Reassigned(g) => Some(g)
    case MovedInto(_, u) => Some(u)
  }

  /** The outcome agrees with the lookups it rests on: a guest cart of session
      sid is taken when one exists, and the case follows from whether user uid
      owns a cart, the target being one of those carts. */
  ghost predicate ValidChoice(carts: map<CartId, Cart>, sid: SessionId, uid: UserId, m: MergeOutcome)
  {
    match m
    case NoGuestCart => GuestCarts(carts, sid) == {}
    case Reassigned(g) => g in GuestCarts(carts, sid) && Owned(carts, uid) == {}
    case MovedInto(g, u) => g in GuestCarts(carts, sid) && u in Owned(carts, uid)
  }

  /** The cart table after the merge: `UPDATE cart SET user_id = uid WHERE
      cart_id = g` in the first case, `DELETE FROM cart WHERE cart_id = g` in
      the second. */
  function MergedCarts(carts: map<CartId, Cart>, uid: UserId, m: MergeOutcome): (r: map<CartId, Cart>)
    requires m.Reassigned? ==> m.guest in carts
    ensures m.NoGuestCart? ==> r == carts
    ensures m.Reassigned? ==> r.Keys == carts.Keys && r[m.guest] == carts[m.guest].(userId := Some(uid))
    ensures m.MovedInto? ==> r.Keys == carts.Keys - {m.guest}
    ensures forall c :: c in r && !(m.Reassigned? && c == m.guest) ==> r[c] == carts[c]
  {
    match m
    case NoGuestCart => carts
    case Reassigned(g) => carts[g := carts[g].(userId := Some(uid))]
    case MovedInto(g, _) => carts - {g}
  }

  /** The cart_item table after the merge: only the second case touches it,
      with `UPDATE cart_item SET cart_id = target WHERE cart_id = guest`. */
  function MergedItems(items: map<ItemId, CartItem>, m: MergeOutcome): (r: map<ItemId, CartItem>)
    ensures !m.MovedInto? ==> r == items
    ensures m.MovedInto? ==> r == ReassignRows(items, m.guest, m.target)
  {
    if m.MovedInto? then ReassignRows(items, m.guest, m.target) else items
  }

  /** The merge never loses or duplicates an item: the same item ids, each row
      unchanged except possibly its cart, which changes only from the guest
      cart to the target. */
  lemma MergeConservesItems(items: map<ItemId, CartItem>, m: MergeOutcome)
    ensures MergedItems(items, m).Keys == items.Keys
    ensures forall k :: k in items ==>
      MergedItems(items, m)[k] == items[k].(cartId := MergedItems(items, m)[k].cartId)
    ensures forall k :: k in items && MergedItems(items, m)[k].cartId != items[k].cartId ==>
      m.MovedInto? && items[k].cartId == m.guest && MergedItems(items, m)[k].cartId == m.target
  {
  }

  /** Case A: the guest cart now belongs to the user, no cart is created or
      deleted, no item changes, and login records the guest cart. */
  lemma MergeReassignCase(carts: map<CartId, Cart>, items: map<ItemId, CartItem>, sid: SessionId, uid: UserId, m: MergeOutcome)
    requires ValidChoice(carts, sid, uid, m) && m.Reassigned?
    ensures MergedCarts(carts, uid, m).Keys == carts.Keys
    ensures MergedCarts(carts, uid, m)[m.guest].userId == Some(uid)
    ensures MergedItems(items, m) == items
    ensures ResultCart(m) == Some(m.guest)
    ensures Owned(MergedCarts(carts, uid, m), uid) == {m.guest}
  {
  }

  /** Case B: every item of the guest cart now sits in the target, which holds
      exactly its old items and the guest's; the guest cart is gone and no
      longer holds any item; login records the target. */
  lemma MergeMoveCase(carts: map<CartId, Cart>, items: map<ItemId, CartItem>, sid: SessionId, uid: UserId, m: MergeOutcome)
    requires ValidChoice(carts, sid, uid, m) && m.MovedInto?
    ensures m.guest != m.target
    ensures ItemsOf(MergedItems(items, m), m.target) == ItemsOf(items, m.target) + ItemsOf(items, m.guest)
    ensures ItemsOf(MergedItems(items, m), m.guest) == {}
    ensures m.guest !in MergedCarts(carts, uid, m) && m.target in MergedCarts(carts, uid, m)
    ensures ResultCart(m) == Some(m.target)
  {
  }

  /** Carts other than the guest and the target, and their items, are untouched. */
  lemma MergeFrame(carts: map<CartId, Cart>, items: map<ItemId, CartItem>, sid: SessionId, uid: UserId, m: MergeOutcome, d: CartId)
    requires ValidChoice(carts, sid, uid, m)
    requires !m.NoGuestCart? ==> d != m.guest
    requires m.MovedInto? ==> d != m.target
    ensures d in MergedCarts(carts, uid, m) <==> d in carts
    ensures d in carts ==> MergedCarts(carts, uid, m)[d] == carts[d]
    ensures ItemsOf(MergedItems(items, m), d) == ItemsOf(items, d)
  {
  }

  /** The guest cart the merge picks stops being a guest cart of the session;
      every other guest cart of the session stays one. */
  lemma MergeConsumesGuestCart(carts: map<CartId, Cart>, sid: SessionId, uid: UserId, m: MergeOutcome)
    requires ValidChoice(carts, sid, uid, m) && !m.NoGuestCart?
    ensures GuestCarts(MergedCarts(carts, uid, m), sid) == GuestCarts(carts, sid) - {m.guest}
  {
  }

  /** A user who owned at most one cart owns exactly one after a merge: the cart
      login records in the session. */
  lemma MergeSingleOwner(carts: map<CartId, Cart>, sid: SessionId, uid: UserId, m: MergeOutcome)
    requires ValidChoice(carts, sid, uid, m) && !m.NoGuestCart?
    requires |Owned(carts, uid)| <= 1
    ensures Owned(MergedCarts(carts, uid, m), uid) == {ResultCart(m).value}
  {
    var carts' := MergedCarts(carts, uid, m);
    if m.Reassigned? {
      forall c | c in carts' && c != m.guest ensures carts'[c].userId != Some(uid) {
        assert c !in Owned(carts, uid);
      }
    } else {
      var u := m.target;
      var others := Owned(carts, uid) - {u};
      assert |others| == |Owned(carts, uid)| - 1 == 0;
      assert Owned(carts, uid) == {u} by {
        forall c | c in Owned(carts, uid) ensures c == u {
          assert c !in others;
        }
      }
      assert carts[m.guest].userId == None;
      forall c ensures c in Owned(carts', uid) <==> c == u {
        if c in carts' {
          assert carts'[c] == carts[c];
          assert c in Owned(carts', uid) <==> c in Owned(carts, uid);
        } else {
          assert c !in carts || c == m.guest;
        }
      }
    }
  }

  /** A session may hold two guest carts (two `POST /cart` calls before login).
      The merge takes one of them, and the other is left as a guest cart of
      the session that no later login of this session reaches through the
      session's cart binding. */
  lemma MergeLeavesOtherGuestCart()
    ensures var carts := map[1 := Cart(None, "s", 0, 0, OneDay), 2 := Cart(None, "s", 0, 0, OneDay)];
      && ValidChoice(carts, "s", 7, Reassigned(1))
      && GuestCarts(MergedCarts(carts, 7, Reassigned(1)), "s") == {2}
  {
    var carts := map[1 := Cart(None, "s", 0, 0, OneDay), 2 := Cart(None, "s", 0, 0, OneDay)];
    assert 1 in GuestCarts(carts, "s");
    assert Owned(carts, 7) == {} by {
      forall c | c in carts ensures carts[c].userId == None {
        assert c == 1 || c == 2;
      }
    }
    var carts' := MergedCarts(carts, 7, Reassigned(1));
    assert 2 in GuestCarts(carts', "s");
    forall c | c in GuestCarts(carts', "s") ensures c == 2 {
      assert c == 1 || c == 2;
    }
  }

  /** `UPDATE cart_item SET cart_id = dst WHERE cart_id IN srcs`. */
  function ReassignFrom(items: map<ItemId, CartItem>, srcs: set<CartId>, dst: CartId): (r: map<ItemId, CartItem>)
    ensures r.Keys == items.Keys
    ensures forall k :: k in items && items[k].cartId in srcs ==> r[k] == items[k].(cartId := dst)
    ensures forall k :: k in items && items[k].cartId !in srcs ==> r[k] == items[k]
  {
    map k | k in items :: if items[k].cartId in srcs then items[k].(cartId := dst) else items[k]
  }

  /** The merge as intended: every guest cart of the session is merged, not
      only the one picked. In the first case the picked cart is handed to the
      user and the other guest carts are deleted; in the second all of them are
      deleted. */
  function FullMergedCarts(carts: map<CartId, Cart>, sid: SessionId, uid: UserId, m: MergeOutcome): (r: map<CartId, Cart>)
    requires m.Reassigned? ==> m.guest in carts
    ensures m.NoGuestCart? ==> r == carts
    ensures m.Reassigned? ==> r.Keys == carts.Keys - (GuestCarts(carts, sid) - {m.guest})
    ensures m.Reassigned? ==> r[m.guest] == carts[m.guest].(userId := Some(uid))
    ensures m.MovedInto? ==> r.Keys == carts.Keys - GuestCarts(carts, sid)
    ensures forall c :: c in r && !(m.Reassigned? && c == m.guest) ==> r[c] == carts[c]
  {
    match m
    case NoGuestCart => carts
    case Reassigned(g) =>
      map c | c in carts && (c == g || c !in GuestCarts(carts, sid)) ::
        if c == g then carts[g].(userId := Some(uid)) else carts[c]
    case MovedInto(_, _) =>
      map c | c in carts && c !in GuestCarts(carts, sid) :: carts[c]
  }

  /** The items of every guest cart of the session move into the cart login
      records. */
  function FullMergedItems(items: map<ItemId, CartItem>, carts: map<CartId, Cart>, sid: SessionId, m: MergeOutcome): (r: map<ItemId, CartItem>)
    ensures m.NoGuestCart? ==> r == items
    ensures !m.NoGuestCart? ==> r == ReassignFrom(items, GuestCarts(carts, sid), ResultCart(m).value)
  {
    if m.NoGuestCart? then items else ReassignFrom(items, GuestCarts(carts, sid), ResultCart(m).value)
  }

  /** After the intended merge no guest cart of the session is left, the
      recorded cart exists and belongs to the user, no item is lost, and every
      item of a guest cart of the session now sits in the recorded cart. */
  lemma FullMergeConsumesGuestCarts(carts: map<CartId, Cart>, items: map<ItemId, CartItem>, sid: SessionId, uid: UserId, m: MergeOutcome)
    requires ValidChoice(carts, sid, uid, m)
    ensures GuestCarts(FullMergedCarts(carts, sid, uid, m), sid) == {}
    ensures !m.NoGuestCart? ==> ResultCart(m).value in Owned(FullMergedCarts(carts, sid, uid, m), uid)
    ensures FullMergedItems(items, carts, sid, m).Keys == items.Keys
    ensures forall k :: k in items && items[k].cartId in GuestCarts(carts, sid) ==>
      FullMergedItems(items, carts, sid, m)[k].cartId == ResultCart(m).value
  {
    var carts' := FullMergedCarts(carts, sid, uid, m);
    forall c | c in carts' ensures c !in GuestCarts(carts', sid) {
      if m.Reassigned? && c == m.guest {
        assert carts'[c].userId == Some(uid);
      } else {
        assert c !in GuestCarts(carts, sid) && carts'[c] == carts[c];
      }
    }
    if m.MovedInto? {
      assert m.target !in GuestCarts(carts, sid);
      assert m.target in carts';
    }
  }
}
