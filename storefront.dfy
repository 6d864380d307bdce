/**
 * The page state of script.js (`allProducts` and `cart`) and the handlers
 * that change or read it: the catalog fetch's success callback,
 * `addToCart`, the totals part of `updateCart` and the checkout button.
 */
module Storefront {
  import opened Wrappers
  import opened Catalog
  import opened Cart

  class Shop {
    var allProducts: seq<Product>
    var cart: seq<Line>

    /** Object invariant: quantities at least 1, ids unique. */
    ghost predicate Valid()
      reads this
    {
      WellFormed(cart)
    }

    /** Page load: both the catalog and the cart start empty. */
    constructor ()
      ensures Valid() && allProducts == [] && cart == []
    {
      allProducts := [];
      cart := [];
    }

    /** The fetch succeeded with `products`; a failed fetch never calls this and the catalog stays empty. */
    method ProductsLoaded(products: seq<Product>)
      requires Valid()
      modifies this`allProducts
      ensures Valid() && allProducts == products && cart == old(cart)
    {
      allProducts := products;
    }

    /** `addToCart(id)`: silently ignores unknown ids; otherwise increments or appends a line. */
    method AddToCart(id: int)
      requires Valid()
      modifies this`cart
      ensures Valid()
      ensures cart == Added(old(cart), allProducts, id)
    {
      AddedPreservesWellFormed(cart, allProducts, id);
      var product := ProductIndex(allProducts, id);
      if product.None? {
        return;
      }
      var found := LineIndex(cart, id);
      if found.Some? {
        var j := found.value;
        cart := cart[j := cart[j].(qty := cart[j].qty + 1)];
      } else {
        var p := allProducts[product.value];
        cart := cart + [NewLine(p)];
      }
    }

    /** The numbers and rows `updateCart` puts in the sidebar. */
    method UpdateCart() returns (v: CartView)
      ensures v == ViewOf(cart)
    {
      var count := Count(cart);
      var rows: seq<Row> := [];
      var subtotal := 0.0;
      if |cart| != 0 {
        var i := 0;
        while i < |cart|
          invariant 0 <= i <= |cart|
          invariant rows == Rows(cart[..i])
          invariant subtotal == Subtotal(cart[..i])
        {
          var item := cart[i];
          var lineTotal := item.qty as real * item.price;
          assert RowOf(item) == Row(item.name, item.qty, item.price, lineTotal);
          rows := rows + [Row(item.name, item.qty, item.price, lineTotal)];
          subtotal := subtotal + lineTotal;
          assert cart[..i + 1][..i] == cart[..i];
          assert Rows(cart[..i + 1]) == Rows(cart[..i]) + [RowOf(item)];
          i := i + 1;
        }
        assert cart[..|cart|] == cart;
      }
      var gst := subtotal * GST_RATE;
      var total := subtotal + gst;
      v := CartView(count, rows, subtotal, gst, total);
    }

    /**
     * The checkout button: an empty cart is refused and left alone; otherwise
     * the bill is built from the cart and the cart is emptied.
     */
    method Checkout(printedOn: string) returns (r: CheckoutResult)
      requires Valid()
      modifies this`cart
      ensures Valid()
      ensures old(cart) == [] ==> r == CartEmpty && cart == old(cart)
      ensures old(cart) != [] ==> r.Printed? && cart == []
      ensures old(cart) != [] ==>
        var view := ViewOf(old(cart));
        r.bill == Bill(SITE_NAME, printedOn, view.rows, view.subtotal, view.gst, view.total)
    {
      if |cart| == 0 {
        return CartEmpty;
      }
      var subtotal := 0.0;
      var rows: seq<Row> := [];
      var i := 0;
      while i < |cart|
        invariant 0 <= i <= |cart|
        invariant rows == Rows(cart[..i])
        invariant subtotal == Subtotal(cart[..i])
      {
        var item := cart[i];
        var lineTotal := item.price * item.qty as real;
        assert RowOf(item) == Row(item.name, item.qty, item.price, lineTotal);
        subtotal := subtotal + lineTotal;
        rows := rows + [Row(item.name, item.qty, item.price, lineTotal)];
        assert cart[..i + 1][..i] == cart[..i];
        assert Rows(cart[..i + 1]) == Rows(cart[..i]) + [RowOf(item)];
        i := i + 1;
      }
      assert cart[..|cart|] == cart;
      var gst := subtotal * GST_RATE;
      var grandTotal := subtotal + gst;
      r := Printed(Bill(SITE_NAME, printedOn, rows, subtotal, gst, grandTotal));
      cart := [];
    }
  }
}
