/**
 * The cart of script.js as values: its lines, what one `addToCart` does to
 * them, and the totals and rows that `updateCart` and the checkout handler
 * derive from them.
 */
module Cart {
  import opened Wrappers
  import opened Catalog

  /** `GST_RATE`: 5% goods and services tax. */
  const GST_RATE: real := 0.05

  /** The vendor name printed on the bill. */
  const SITE_NAME: string := "Farmer Shop"

  /** A cart line: a snapshot of the product taken when it was first added, and a quantity. */
  datatype Line = Line(id: int, name: string, price: real, qty: int, image: string)

  /** One row of the sidebar or of the bill: name, quantity, unit price, line total. */
  datatype Row = Row(name: string, qty: int, price: real, lineTotal: real)

  /** The numbers and rows the sidebar shows. */
  datatype CartView = CartView(count: int, rows: seq<Row>, subtotal: real, gst: real, total: real)

  /** The printable bill, as records rather than markup. */
  datatype Bill = Bill(siteName: string, printedOn: string, rows: seq<Row>, subtotal: real, gst: real, grandTotal: real)

  /** Outcome of pressing the checkout button. */
  datatype CheckoutResult = CartEmpty | Printed(bill: Bill)

  /** Every quantity is at least 1 and no id appears on two lines. */
  ghost predicate WellFormed(c: seq<Line>)
  {
    (forall i :: 0 <= i < |c| ==> c[i].qty >= 1) &&
    (forall i, j :: 0 <= i < j < |c| ==> c[i].id != c[j].id)
  }

  /** The line pushed for a product not yet in the cart. */
  function NewLine(p: Product): Line
  {
    Line(p.id, p.name, p.price, 1, p.image.GetOr(""))
  }

  /** `cart.find(item => item.id === id)`: the first line with that id. */
  function LineIndex(c: seq<Line>, id: int): (r: Option<nat>)
    ensures r.None? <==> forall j :: 0 <= j < |c| ==> c[j].id != id
    ensures r.Some? ==> r.value < |c| && c[r.value].id == id
    ensures r.Some? ==> forall j :: 0 <= j < r.value ==> c[j].id != id
  {
    FindIndex(c, (l: Line) => l.id, id)
  }

  /**
   * The cart after `addToCart(id)` against the catalog `cat`. An id no
   * product has changes nothing; otherwise the cart grows by at most one
   * line (AddExistingIncrements and AddNewAppends say which).
   */
  function Added(c: seq<Line>, cat: seq<Product>, id: int): (r: seq<Line>)
    ensures (forall i :: 0 <= i < |cat| ==> cat[i].id != id) ==> r == c
    ensures |c| <= |r| <= |c| + 1
  {
    match ProductIndex(cat, id)
    case None => c
    case Some(k) =>
      match LineIndex(c, id)
      case Some(j) => c[j := c[j].(qty := c[j].qty + 1)]
      case None => c + [NewLine(cat[k])]
  }

  /** `n` successive adds of the same id. */
  function AddedTimes(c: seq<Line>, cat: seq<Product>, id: int, n: nat): seq<Line>
  {
    if n == 0 then c else Added(AddedTimes(c, cat, id, n - 1), cat, id)
  }

  /** `cart.reduce((s, it) => s + it.qty, 0)`, folded from the left. */
  function Count(c: seq<Line>): int
  {
    if c == [] then 0 else Count(c[..|c| - 1]) + c[|c| - 1].qty
  }

  function LineTotal(l: Line): real
  {
    l.price * l.qty as real
  }

  /** The subtotal accumulated line by line, from the left. */
  function Subtotal(c: seq<Line>): real
  {
    if c == [] then 0.0 else Subtotal(c[..|c| - 1]) + LineTotal(c[|c| - 1])
  }

  function RowOf(l: Line): Row
  {
    Row(l.name, l.qty, l.price, LineTotal(l))
  }

  /** One row per line, in cart order. */
  function Rows(c: seq<Line>): (r: seq<Row>)
    ensures |r| == |c|
  {
    if c == [] then [] else Rows(c[..|c| - 1]) + [RowOf(c[|c| - 1])]
  }

  /** What the sidebar shows for cart `c`. */
  function ViewOf(c: seq<Line>): (r: CartView)
    ensures r.gst == r.subtotal * GST_RATE && r.total == r.subtotal + r.gst
    ensures |r.rows| == |c|
    ensures c == [] ==> r == CartView(0, [], 0.0, 0.0, 0.0)
  {
    var subtotal := Subtotal(c);
    var gst := subtotal * GST_RATE;
    CartView(Count(c), Rows(c), subtotal, gst, subtotal + gst)
  }

  // ---------------------------------------------------------------------
  // Adding to the cart

  /** A known id already on line `j`: that line's quantity goes up by one, nothing else changes. */
  lemma AddExistingIncrements(c: seq<Line>, cat: seq<Product>, id: int, j: nat)
    requires WellFormed(c)
    requires exists i :: 0 <= i < |cat| && cat[i].id == id
    requires j < |c| && c[j].id == id
    ensures |Added(c, cat, id)| == |c|
    ensures Added(c, cat, id)[j] == c[j].(qty := c[j].qty + 1)
    ensures forall i :: 0 <= i < |c| && i != j ==> Added(c, cat, id)[i] == c[i]
  {
  }

  /** A known id not yet in the cart: one line with quantity 1, copied from the first product with that id, is appended. */
  lemma AddNewAppends(c: seq<Line>, cat: seq<Product>, id: int, k: nat)
    requires forall i :: 0 <= i < |c| ==> c[i].id != id
    requires k < |cat| && cat[k].id == id
    requires forall i :: 0 <= i < k ==> cat[i].id != id
    ensures Added(c, cat, id) == c + [Line(id, cat[k].name, cat[k].price, 1, cat[k].image.GetOr(""))]
  {
  }

  /** Adding keeps quantities at least 1 and ids unique. */
  lemma AddedPreservesWellFormed(c: seq<Line>, cat: seq<Product>, id: int)
    requires WellFormed(c)
    ensures WellFormed(Added(c, cat, id))
  {
  }

  /** `n` adds of a catalog product not yet in the cart give one new line with quantity `n`. */
  lemma {:induction false} AddRepeatedly(c: seq<Line>, cat: seq<Product>, id: int, k: nat, n: nat)
    requires forall i :: 0 <= i < |c| ==> c[i].id != id
    requires ProductIndex(cat, id) == Some(k)
    requires n >= 1
    ensures AddedTimes(c, cat, id, n) == c + [NewLine(cat[k]).(qty := n)]
  {
    var line := NewLine(cat[k]);
    if n == 1 {
      assert AddedTimes(c, cat, id, 1) == Added(c, cat, id);
      AddedAppend(c, cat, id);
      assert line.(qty := 1) == line;
    } else {
      AddRepeatedly(c, cat, id, k, n - 1);
      var last := line.(qty := n - 1);
      var prev := AddedTimes(c, cat, id, n - 1);
      assert prev == c + [last];
      AddToLastLine(c, last, cat, id);
      assert last.(qty := last.qty + 1) == line.(qty := n);
      assert AddedTimes(c, cat, id, n) == Added(prev, cat, id);
    }
  }

  /** When the only line for `id` is the last one, an add increments that line. */
  lemma AddToLastLine(c: seq<Line>, line: Line, cat: seq<Product>, id: int)
    requires forall i :: 0 <= i < |c| ==> c[i].id != id
    requires line.id == id && ProductIndex(cat, id).Some?
    ensures Added(c + [line], cat, id) == c + [line.(qty := line.qty + 1)]
  {
    var prev := c + [line];
    assert forall i :: 0 <= i < |c| ==> prev[i].id != id;
    assert prev[|c|].id == id;
    assert LineIndex(prev, id) == Some(|c|);
    assert prev[|c| := line.(qty := line.qty + 1)] == c + [line.(qty := line.qty + 1)];
  }

  // ---------------------------------------------------------------------
  // Totals

  lemma {:induction false} CountUpdate(c: seq<Line>, j: nat, l: Line)
    requires j < |c|
    ensures Count(c[j := l]) == Count(c) - c[j].qty + l.qty
  {
    var n := |c|;
    if j == n - 1 {
      assert c[j := l][..n - 1] == c[..n - 1];
    } else {
      assert c[j := l][..n - 1] == c[..n - 1][j := l];
      CountUpdate(c[..n - 1], j, l);
    }
  }

  lemma {:induction false} SubtotalUpdate(c: seq<Line>, j: nat, l: Line)
    requires j < |c|
    ensures Subtotal(c[j := l]) == Subtotal(c) - LineTotal(c[j]) + LineTotal(l)
  {
    var n := |c|;
    if j == n - 1 {
      assert c[j := l][..n - 1] == c[..n - 1];
    } else {
      assert c[j := l][..n - 1] == c[..n - 1][j := l];
      SubtotalUpdate(c[..n - 1], j, l);
    }
  }

  /** Each add of a known product raises the item count by exactly one; an unknown id changes nothing. */
  lemma AddedCount(c: seq<Line>, cat: seq<Product>, id: int)
    ensures Count(Added(c, cat, id)) == Count(c) + (if ProductIndex(cat, id).Some? then 1 else 0)
  {
    var k := ProductIndex(cat, id);
    if k.Some? {
      var f := LineIndex(c, id);
      if f.Some? {
        var j := f.value;
        AddedIncrement(c, cat, id, j);
        CountUpdate(c, j, c[j].(qty := c[j].qty + 1));
      } else {
        AddedAppend(c, cat, id);
        CountAppend(c, NewLine(cat[k.value]));
      }
    }
  }

  /**
   * Each add raises the subtotal by one unit price: the price frozen on the
   * existing line, or the catalog price for a new line.
   */
  lemma AddedSubtotal(c: seq<Line>, cat: seq<Product>, id: int)
    ensures ProductIndex(cat, id).None? ==> Subtotal(Added(c, cat, id)) == Subtotal(c)
    ensures ProductIndex(cat, id).Some? && LineIndex(c, id).Some? ==>
      Subtotal(Added(c, cat, id)) == Subtotal(c) + c[LineIndex(c, id).value].price
    ensures ProductIndex(cat, id).Some? && LineIndex(c, id).None? ==>
      Subtotal(Added(c, cat, id)) == Subtotal(c) + cat[ProductIndex(cat, id).value].price
  {
    var k := ProductIndex(cat, id);
    if k.Some? {
      var f := LineIndex(c, id);
      if f.Some? {
        var j := f.value;
        AddedIncrement(c, cat, id, j);
        SubtotalUpdate(c, j, c[j].(qty := c[j].qty + 1));
        LineTotalIncrement(c[j]);
      } else {
        AddedAppend(c, cat, id);
        SubtotalAppend(c, NewLine(cat[k.value]));
      }
    }
  }

  lemma AddedIncrement(c: seq<Line>, cat: seq<Product>, id: int, j: nat)
    requires ProductIndex(cat, id).Some? && LineIndex(c, id) == Some(j)
    ensures j < |c| && Added(c, cat, id) == c[j := c[j].(qty := c[j].qty + 1)]
  {
  }

  lemma AddedAppend(c: seq<Line>, cat: seq<Product>, id: int)
    requires ProductIndex(cat, id).Some? && LineIndex(c, id).None?
    ensures Added(c, cat, id) == c + [NewLine(cat[ProductIndex(cat, id).value])]
  {
  }

  lemma CountAppend(c: seq<Line>, l: Line)
    ensures Count(c + [l]) == Count(c) + l.qty
  {
    assert (c + [l])[..|c|] == c;
  }

  lemma SubtotalAppend(c: seq<Line>, l: Line)
    ensures Subtotal(c + [l]) == Subtotal(c) + LineTotal(l)
  {
    assert (c + [l])[..|c|] == c;
  }

  /** One more unit adds one unit price to the line total. */
  lemma LineTotalIncrement(l: Line)
    ensures LineTotal(l.(qty := l.qty + 1)) == LineTotal(l) + l.price
  {
  }

  /** In a well-formed cart the item count is at least the number of lines, so it is 0 exactly when the cart is empty. */
  lemma {:induction false} CountAtLeastLines(c: seq<Line>)
    requires WellFormed(c)
    ensures Count(c) >= |c|
    ensures Count(c) == 0 <==> c == []
  {
    if c != [] {
      var init := c[..|c| - 1];
      assert WellFormed(init) by {
        assert forall i :: 0 <= i < |init| ==> init[i] == c[i];
      }
      CountAtLeastLines(init);
    }
  }

  /** With non-negative prices the subtotal, and so the tax and the total, are non-negative. */
  lemma {:induction false} SubtotalNonNegative(c: seq<Line>)
    requires WellFormed(c)
    requires forall i :: 0 <= i < |c| ==> c[i].price >= 0.0
    ensures Subtotal(c) >= 0.0
    ensures ViewOf(c).total >= ViewOf(c).subtotal
  {
    if c != [] {
      var init := c[..|c| - 1];
      assert WellFormed(init) && forall i :: 0 <= i < |init| ==> init[i].price >= 0.0 by {
        assert forall i :: 0 <= i < |init| ==> init[i] == c[i];
      }
      SubtotalNonNegative(init);
    }
  }

  /** Row `i` shows line `i`'s name, quantity, unit price and `price * qty`. */
  lemma {:induction false} RowsAt(c: seq<Line>, i: nat)
    requires i < |c|
    ensures Rows(c)[i] == Row(c[i].name, c[i].qty, c[i].price, c[i].price * c[i].qty as real)
  {
    if i < |c| - 1 {
      RowsAt(c[..|c| - 1], i);
    }
  }

  /** A two-line cart: 3 apples at 2.00 and 2 milks at 1.50. */
  lemma WorkedExample()
    ensures var v := ViewOf([Line(1, "Apple", 2.0, 3, ""), Line(2, "Milk", 1.5, 2, "")]);
      v.count == 5 && v.subtotal == 9.0 && v.gst == 0.45 && v.total == 9.45 &&
      v.rows == [Row("Apple", 3, 2.0, 6.0), Row("Milk", 2, 1.5, 3.0)]
  {
    var c := [Line(1, "Apple", 2.0, 3, ""), Line(2, "Milk", 1.5, 2, "")];
    assert c[..|c| - 1] == [c[0]];
    assert c[..|c| - 1][..0] == [];
    assert Count(c) == 5;
    assert Subtotal(c) == 9.0;
  }
}
