/** The cart view of getCart: each item joined with its product's live price,
    the subtotal as a fold over the lines, a flat 10% tax and the total. */
module Totals {
  import opened Schema

  /** One row of the JOIN of cart_item with product. */
  datatype Line = Line(
    itemId: ItemId,
    productId: ProductId,
    variantId: Option<VariantId>,
    quantity: int,
    currentPrice: Money,
    lineTotal: Money,
    metadata: Option<Metadata>)

  datatype Summary = Summary(subtotal: Money, tax: Money, total: Money)

  /** The flat tax rate, 10%. */
  const TaxRate: real := 0.1

  /** The line of item i: the product's current price, not the item's
      `priceAtTime`, times the quantity. */
  function LineFor(i: ItemId, item: CartItem, p: Product): Line
  {
    Line(i, item.productId, item.variantId, item.quantity, p.price, p.price * item.quantity as real, item.metadata)
  }

  /** The rows of `SELECT … FROM cart_item ci JOIN product p ON ci.product_id =
      p.product_id WHERE ci.cart_id = c`: one line per item of cart c whose
      product exists (the inner join drops the others), priced live. */
  function CartLines(items: map<ItemId, CartItem>, products: map<ProductId, Product>, c: CartId): (r: set<Line>)
    ensures forall l :: l in r ==>
      && l.itemId in items && items[l.itemId].cartId == c
      && items[l.itemId].productId in products
      && l.currentPrice == products[items[l.itemId].productId].price
      && l.lineTotal == l.currentPrice * items[l.itemId].quantity as real
      && l == LineFor(l.itemId, items[l.itemId], products[items[l.itemId].productId])
    ensures forall i :: i in items && items[i].cartId == c && items[i].productId in products ==>
      LineFor(i, items[i], products[items[i].productId]) in r
  {
    set i | i in items && items[i].cartId == c && items[i].productId in products ::
      LineFor(i, items[i], products[items[i].productId])
  }

  /** `items.reduce((acc, item) => acc + item.line_total, 0)`: a left fold. */
  function Subtotal(lines: seq<Line>): Money
  {
    if lines == [] then 0.0 else Subtotal(lines[..|lines| - 1]) + lines[|lines| - 1].lineTotal
  }

  /** A cart whose line totals are all non-negative has a non-negative subtotal. */
  lemma {:induction false} SubtotalNonNegative(lines: seq<Line>)
    requires forall k :: 0 <= k < |lines| ==> lines[k].lineTotal >= 0.0
    ensures Subtotal(lines) >= 0.0
    decreases |lines|
  {
    if lines != [] {
      SubtotalNonNegative(lines[..|lines| - 1]);
    }
  }

  /** Subtotal, tax at the flat rate, and their sum. */
  function Summarize(lines: seq<Line>): (s: Summary)
    ensures s.subtotal == Subtotal(lines)
    ensures s.tax == s.subtotal * TaxRate
    ensures s.total == s.subtotal * 1.1
    ensures s.total == s.subtotal + s.tax
  {
    var subtotal := Subtotal(lines);
    var tax := subtotal * TaxRate;
    Summary(subtotal, tax, subtotal + tax)
  }

  /** The fold splits over concatenation. */
  lemma {:induction false} SubtotalAppend(a: seq<Line>, b: seq<Line>)
    ensures Subtotal(a + b) == Subtotal(a) + Subtotal(b)
    decreases |b|
  {
    if b == [] {
      assert a + b == a;
    } else {
      var b' := b[..|b| - 1];
      assert (a + b)[..|a + b| - 1] == a + b';
      SubtotalAppend(a, b');
    }
  }

  /** Taking out line k removes exactly its line total. */
  lemma SubtotalRemove(s: seq<Line>, k: nat)
    requires k < |s|
    ensures Subtotal(s) == Subtotal(s[..k] + s[k + 1..]) + s[k].lineTotal
  {
    var a, x, b := s[..k], s[k], s[k + 1..];
    assert s == a + ([x] + b);
    SubtotalAppend(a, [x] + b);
    SubtotalAppend([x], b);
    SubtotalAppend(a, b);
    assert [x][..0] == [];
    assert [s[k]][..0] == [];
  }

  /** The subtotal does not depend on the order the rows come back in. */
  lemma {:induction false} SubtotalPermutation(a: seq<Line>, b: seq<Line>)
    requires multiset(a) == multiset(b)
    ensures Subtotal(a) == Subtotal(b)
    decreases |a|
  {
    if a != [] {
      var n := |a| - 1;
      var x := a[n];
      assert x in multiset(b) by { assert x in multiset(a); }
      var k :| 0 <= k < |b| && b[k] == x;
      var b' := b[..k] + b[k + 1..];
      assert b == b[..k] + [b[k]] + b[k + 1..];
      assert a == a[..n] + [x];
      calc {
        multiset(a[..n]) + multiset{x};
        multiset(a);
        multiset(b);
        multiset(b[..k]) + multiset{x} + multiset(b[k + 1..]);
        multiset(b') + multiset{x};
      }
      assert multiset(a[..n]) == multiset(b') by {
        assert multiset(a[..n]) == multiset(a[..n]) + multiset{x} - multiset{x};
        assert multiset(b') == multiset(b') + multiset{x} - multiset{x};
      }
      SubtotalPermutation(a[..n], b');
      SubtotalRemove(b, k);
    } else {
      assert |b| == |multiset(b)| == 0;
    }
  }

  /** Any two listings of the same cart, in whatever row order, give the same
      summary: the totals are a function of the tables alone. */
  lemma SummaryIndependentOfRowOrder(
    a: seq<Line>, b: seq<Line>,
    items: map<ItemId, CartItem>, products: map<ProductId, Product>, c: CartId)
    requires multiset(a) == multiset(CartLines(items, products, c))
    requires multiset(b) == multiset(CartLines(items, products, c))
    ensures Summarize(a) == Summarize(b)
  {
    SubtotalPermutation(a, b);
  }

  /** The stored price snapshot plays no part in the cart view: two tables that
      differ only in `priceAtTime` give the same lines. */
  lemma CartLinesIgnoreSnapshot(
    items: map<ItemId, CartItem>, items': map<ItemId, CartItem>,
    products: map<ProductId, Product>, c: CartId)
    requires items.Keys == items'.Keys
    requires forall k :: k in items ==> items'[k] == items[k].(priceAtTime := items'[k].priceAtTime)
    ensures CartLines(items, products, c) == CartLines(items', products, c)
  {
    forall i | i in items && items[i].productId in products
      ensures LineFor(i, items[i], products[items[i].productId]) == LineFor(i, items'[i], products[items'[i].productId])
    {
    }
  }

  /** Items priced 10.00 x 2 and 5.00 x 3: subtotal 35.00, tax 3.50, total 38.50. */
  lemma SummaryExample()
    ensures var p1, p2 := Product(10.0, 100), Product(5.0, 100);
            var l1 := LineFor(1, CartItem(7, 1, None, 2, 9.0, None), p1);
            var l2 := LineFor(2, CartItem(7, 2, None, 3, 4.0, None), p2);
            Summarize([l1, l2]) == Summary(35.0, 3.5, 38.5)
  {
    var p1, p2 := Product(10.0, 100), Product(5.0, 100);
    var l1 := LineFor(1, CartItem(7, 1, None, 2, 9.0, None), p1);
    var l2 := LineFor(2, CartItem(7, 2, None, 3, 4.0, None), p2);
    assert [l1, l2][..1] == [l1];
    assert [l1][..0] == [];
    assert Subtotal([l1]) == 20.0;
    assert Subtotal([l1, l2]) == 35.0;
  }
}
