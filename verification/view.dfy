/** The order table view (updateOrderTable): each order item is joined with its
    catalog product; matched items become rows, unmatched ones are skipped, and
    the total is the sum of the rows' line totals. */
module View {
  import opened OrderTypes
  import opened Catalog

  /** One table row: product title, quantity, and price times quantity. */
  datatype Row = Row(title: string, quantity: real, lineTotal: real)

  /** The rendered table and the text of the total display. */
  datatype Table = Table(rows: seq<Row>, total: real)

  /** The row an order item gets once its product is known. */
  function RowFor(p: Product, item: OrderItem): Row {
    Row(p.title, item.quantity, p.price * item.quantity)
  }

  /** The catalog lists the item's product. */
  predicate Listed(catalog: seq<Product>, item: OrderItem) {
    Find(catalog, item.productId).Some?
  }

  /** The row of a listed item, built from the first product with its id. */
  function RowOf(catalog: seq<Product>, item: OrderItem): Row
    requires Listed(catalog, item)
  {
    RowFor(Find(catalog, item.productId).value, item)
  }

  /** The amount an item adds to the total: its line total, or zero when unmatched. */
  function Share(catalog: seq<Product>, item: OrderItem): real {
    match Find(catalog, item.productId)
    case None => 0.0
    case Some(p) => p.price * item.quantity
  }

  /** The order items that get a row, in order: those whose product is listed. */
  function Matched(order: seq<OrderItem>, catalog: seq<Product>): (m: seq<OrderItem>)
    ensures |m| <= |order|
    ensures forall i :: 0 <= i < |m| ==> Listed(catalog, m[i])
  {
    if order == [] then []
    else
      var item := order[|order| - 1];
      Matched(order[..|order| - 1], catalog) + (if Listed(catalog, item) then [item] else [])
  }

  /** Appending an item extends the matched items by it exactly when it is listed. */
  lemma MatchedAppend(order: seq<OrderItem>, catalog: seq<Product>, item: OrderItem)
    ensures Matched(order + [item], catalog) ==
      Matched(order, catalog) + (if Listed(catalog, item) then [item] else [])
  {
  }

  /** The matched items are exactly the order items whose product is listed. */
  lemma {:induction false} MatchedMembers(order: seq<OrderItem>, catalog: seq<Product>, x: OrderItem)
    ensures x in Matched(order, catalog) <==> x in order && Listed(catalog, x)
    decreases |order|
  {
    if order != [] {
      var prefix, item := order[..|order| - 1], order[|order| - 1];
      assert order == prefix + [item];
      MatchedMembers(prefix, catalog, x);
      MatchedAppend(prefix, catalog, item);
    }
  }

  /** The sum of the rows' line totals. */
  function SumLineTotals(rows: seq<Row>): real {
    if rows == [] then 0.0 else SumLineTotals(rows[..|rows| - 1]) + rows[|rows| - 1].lineTotal
  }

  /** The sum of every item's share, unmatched items counting zero. */
  function SumShares(order: seq<OrderItem>, catalog: seq<Product>): real {
    if order == [] then 0.0 else SumShares(order[..|order| - 1], catalog) + Share(catalog, order[|order| - 1])
  }

  /** The table for an order against a catalog: at most one row per item.
      RenderFollowsMatched says which rows, RowsSumToTotal what the total is. */
  function Render(order: seq<OrderItem>, catalog: seq<Product>): (t: Table)
    ensures |t.rows| <= |order|
  {
    if order == [] then Table([], 0.0)
    else
      var prev := Render(order[..|order| - 1], catalog);
      var item := order[|order| - 1];
      match Find(catalog, item.productId)
      case None => prev
      case Some(p) => Table(prev.rows + [RowFor(p, item)], prev.total + p.price * item.quantity)
  }

  /** updateOrderTable's loop: walk the order once, look each item up, append a
      row and add its line total for every item found. */
  method UpdateOrderTable(order: seq<OrderItem>, catalog: seq<Product>) returns (rows: seq<Row>, total: real)
    ensures Table(rows, total) == Render(order, catalog)
  {
    rows := [];
    total := 0.0;
    var i := 0;
    while i < |order|
      invariant 0 <= i <= |order|
      invariant Table(rows, total) == Render(order[..i], catalog)
    {
      var item := order[i];
      RenderPrefixStep(order, catalog, i);
      match Find(catalog, item.productId) {
        case Some(product) =>
          rows := rows + [RowFor(product, item)];
          total := total + product.price * item.quantity;
        case None =>
      }
      i := i + 1;
    }
    assert order[..i] == order;
  }

  /** The total shown is the sum of the rows' line totals. */
  lemma {:induction false} RowsSumToTotal(order: seq<OrderItem>, catalog: seq<Product>)
    ensures Render(order, catalog).total == SumLineTotals(Render(order, catalog).rows)
    decreases |order|
  {
    if order != [] {
      var prefix, item := order[..|order| - 1], order[|order| - 1];
      RowsSumToTotal(prefix, catalog);
      assert order == prefix + [item];
      RenderAppend(prefix, catalog, item);
      var rows := Render(prefix, catalog).rows;
      if Listed(catalog, item) {
        assert (rows + [RowOf(catalog, item)])[..|rows|] == rows;
      }
    }
  }

  /** One more item of the order rendered: its row and line total are added
      when its product is listed. */
  lemma RenderPrefixStep(order: seq<OrderItem>, catalog: seq<Product>, i: nat)
    requires i < |order|
    ensures Render(order[..i + 1], catalog) ==
      match Find(catalog, order[i].productId)
      case None => Render(order[..i], catalog)
      case Some(p) =>
        Table(Render(order[..i], catalog).rows + [RowFor(p, order[i])],
              Render(order[..i], catalog).total + p.price * order[i].quantity)
  {
    assert order[..i + 1][..i] == order[..i];
  }

  /** Rows correspond one to one, in order, to the matched items, each built
      from the first catalog product with the item's id. */
  lemma {:induction false} RenderFollowsMatched(order: seq<OrderItem>, catalog: seq<Product>)
    ensures |Render(order, catalog).rows| == |Matched(order, catalog)|
    ensures forall i :: 0 <= i < |Matched(order, catalog)| ==>
      Render(order, catalog).rows[i] == RowOf(catalog, Matched(order, catalog)[i])
    decreases |order|
  {
    if order != [] {
      var prefix, item := order[..|order| - 1], order[|order| - 1];
      RenderFollowsMatched(prefix, catalog);
      assert order == prefix + [item];
      RenderAppend(prefix, catalog, item);
      MatchedAppend(prefix, catalog, item);
    }
  }

  /** Appending an item adds its row at the end when the product is listed and
      leaves the table alone otherwise. */
  lemma RenderAppend(order: seq<OrderItem>, catalog: seq<Product>, item: OrderItem)
    ensures Listed(catalog, item) ==>
      Render(order + [item], catalog) ==
        Table(Render(order, catalog).rows + [RowOf(catalog, item)], Render(order, catalog).total + Share(catalog, item))
    ensures !Listed(catalog, item) ==> Render(order + [item], catalog) == Render(order, catalog)
  {
  }

  /** Rendering distributes over concatenation of orders: the rows of a + b are
      the rows of a followed by those of b, and the totals add up. */
  lemma {:induction false} RenderConcat(a: seq<OrderItem>, b: seq<OrderItem>, catalog: seq<Product>)
    ensures Render(a + b, catalog).rows == Render(a, catalog).rows + Render(b, catalog).rows
    ensures Render(a + b, catalog).total == Render(a, catalog).total + Render(b, catalog).total
    decreases |b|
  {
    if b == [] {
      assert a + b == a;
    } else {
      var b' := b[..|b| - 1];
      var item := b[|b| - 1];
      assert a + b == (a + b') + [item];
      assert b == b' + [item];
      RenderConcat(a, b', catalog);
      RenderAppend(a + b', catalog, item);
      RenderAppend(b', catalog, item);
      var ra, rb' := Render(a, catalog), Render(b', catalog);
      if Listed(catalog, item) {
        var row := RowOf(catalog, item);
        assert Render(b, catalog).rows == rb'.rows + [row];
        assert Render(a + b, catalog).rows == (ra.rows + rb'.rows) + [row];
        assert (ra.rows + rb'.rows) + [row] == ra.rows + (rb'.rows + [row]);
      }
    }
  }

  /** The total is the sum over all order items of price times quantity for the
      matched ones, unmatched items contributing nothing. */
  lemma {:induction false} TotalIsSumOfShares(order: seq<OrderItem>, catalog: seq<Product>)
    ensures Render(order, catalog).total == SumShares(order, catalog)
    decreases |order|
  {
    if order != [] {
      var prefix, item := order[..|order| - 1], order[|order| - 1];
      assert order == prefix + [item];
      TotalIsSumOfShares(prefix, catalog);
      RenderAppend(prefix, catalog, item);
    }
  }

  /** When no item's product is listed (in particular for an empty order or an
      empty catalog) the table has no rows and the total is zero. */
  lemma {:induction false} NothingMatchedRendersEmpty(order: seq<OrderItem>, catalog: seq<Product>)
    requires forall i :: 0 <= i < |order| ==> !Listed(catalog, order[i])
    ensures Render(order, catalog) == Table([], 0.0)
    decreases |order|
  {
    if order != [] {
      NothingMatchedRendersEmpty(order[..|order| - 1], catalog);
    }
  }

  /** When every item's product is listed, rows and items correspond one to one. */
  lemma {:induction false} AllListedRowsAlign(order: seq<OrderItem>, catalog: seq<Product>)
    requires forall i :: 0 <= i < |order| ==> Listed(catalog, order[i])
    ensures |Render(order, catalog).rows| == |order|
    ensures forall i :: 0 <= i < |order| ==> Render(order, catalog).rows[i] == RowOf(catalog, order[i])
  {
    MatchedAllListed(order, catalog);
    RenderFollowsMatched(order, catalog);
  }

  lemma {:induction false} MatchedAllListed(order: seq<OrderItem>, catalog: seq<Product>)
    requires forall i :: 0 <= i < |order| ==> Listed(catalog, order[i])
    ensures Matched(order, catalog) == order
    decreases |order|
  {
    if order != [] {
      var prefix, item := order[..|order| - 1], order[|order| - 1];
      MatchedAllListed(prefix, catalog);
      assert order == prefix + [item];
      MatchedAppend(prefix, catalog, item);
    }
  }

  /** A failed catalog request (`success: false` or an exception) renders an
      empty table with total zero, whatever the order holds. */
  lemma FailedCatalogRendersEmpty(order: seq<OrderItem>, f: Fetched)
    requires !f.Succeeded()
    ensures Render(order, GetProducts(f)) == Table([], 0.0)
  {
  }
}
