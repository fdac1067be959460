/** The input controller: the add and save click handlers applied to the order
    in sequence, and the table that is redrawn from the resulting order. */
module Controller {
  import opened OrderTypes
  import opened Catalog
  import opened View
  import opened OrderState
  import opened Submit

  /** A user action together with the inputs it reads: the selection and the
      parsed quantity field for "add", the server's answer for "save". */
  datatype Event = AddClicked(selected: Option<int>, quantity: JsNumber) | SaveClicked(answer: Fetched)

  /** The order after one handler has run to completion: either cleared by a
      confirmed save, or the old order with at most one item appended; positive
      quantities are kept. */
  function Step(order: seq<OrderItem>, e: Event): (r: seq<OrderItem>)
    ensures r == [] || (|order| <= |r| <= |order| + 1 && r[..|order|] == order)
    ensures |r| < |order| ==> r == [] && Confirms(e)
    ensures PositiveQuantities(order) ==> PositiveQuantities(r)
  {
    match e
    case AddClicked(selected, quantity) => AddOrderItem(order, selected, quantity).order
    case SaveClicked(answer) => SaveOrder(order, answer).order
  }

  /** The order after a sequence of handlers, each finishing before the next
      starts. Every line item the widget ever holds has a positive quantity. */
  function Run(order: seq<OrderItem>, events: seq<Event>): (r: seq<OrderItem>)
    ensures PositiveQuantities(order) ==> PositiveQuantities(r)
    decreases |events|
  {
    if events == [] then order else Run(Step(order, events[0]), events[1..])
  }

  /** The item a single action appends: one for a valid add, none otherwise. */
  function AddedBy(e: Event): seq<OrderItem> {
    if e.AddClicked? && ValidInput(e.selected, e.quantity) then [OrderItem(e.selected.value, e.quantity.number)] else []
  }

  /** The items the valid add actions of a run append, in order. */
  function Added(events: seq<Event>): seq<OrderItem>
    decreases |events|
  {
    if events == [] then [] else AddedBy(events[0]) + Added(events[1..])
  }

  /** The save action confirmed by the server. */
  predicate Confirms(e: Event) {
    e.SaveClicked? && e.answer.Succeeded()
  }

  /** Sequence concatenation is associative; stated apart so that the
      induction step of UnconfirmedRunAppends stays small for the solver. */
  lemma ConcatAssociates<T>(a: seq<T>, b: seq<T>, c: seq<T>)
    ensures (a + b) + c == a + (b + c)
  {
  }

  /** An action other than a confirmed save appends what it adds, if anything. */
  lemma StepAppends(order: seq<OrderItem>, e: Event)
    requires !Confirms(e)
    ensures Step(order, e) == order + AddedBy(e)
  {
  }

  /** Without a confirmed save the order only grows: it is the starting order
      followed by the items of the valid adds, in click order. */
  lemma {:induction false} UnconfirmedRunAppends(order: seq<OrderItem>, events: seq<Event>)
    requires forall e :: e in events ==> !Confirms(e)
    ensures Run(order, events) == order + Added(events)
    decreases |events|
  {
    if events != [] {
      var e, rest := events[0], events[1..];
      var next := order + AddedBy(e);
      assert Run(order, events) == Run(next, rest) by {
        StepAppends(order, e);
      }
      assert Run(next, rest) == next + Added(rest) by {
        UnconfirmedRunAppends(next, rest);
      }
      var added, later := AddedBy(e), Added(rest);
      assert Added(events) == added + later;
      ConcatAssociates(order, added, later);
    }
  }

  /** After a confirmed save the order is empty, and from the empty page-load
      state the order is the valid adds since the last confirmed save. */
  lemma {:induction false} OrderSinceLastConfirmation(before: seq<Event>, answer: Fetched, after: seq<Event>)
    requires answer.Succeeded()
    requires forall e :: e in after ==> !Confirms(e)
    ensures Run([], before + [SaveClicked(answer)] + after) == Added(after)
  {
    RunConcat([], before + [SaveClicked(answer)], after);
    RunConcat([], before, [SaveClicked(answer)]);
    var o := Run([], before);
    assert Run(o, [SaveClicked(answer)]) == [] by {
      assert [SaveClicked(answer)][1..] == [];
    }
    UnconfirmedRunAppends([], after);
  }

  lemma {:induction false} RunConcat(order: seq<OrderItem>, a: seq<Event>, b: seq<Event>)
    ensures Run(order, a + b) == Run(Run(order, a), b)
    decreases |a|
  {
    if a == [] {
      assert a + b == b;
    } else {
      assert (a + b)[0] == a[0];
      assert (a + b)[1..] == a[1..] + b;
      RunConcat(Step(order, a[0]), a[1..], b);
    }
  }

  /** A confirmed save empties the order, so the redrawn table has no rows
      and shows a total of zero. */
  lemma ConfirmedSaveRendersEmpty(order: seq<OrderItem>, answer: Fetched, catalog: seq<Product>)
    requires answer.Succeeded()
    ensures Render(SaveOrder(order, answer).order, catalog) == Table([], 0.0)
  {
  }

  /** After a valid add the table gains the new item's row when its product is
      listed, and the total grows by price times quantity; an unlisted product
      leaves table and total as they were. */
  lemma AddUpdatesTable(order: seq<OrderItem>, catalog: seq<Product>, id: int, quantity: JsNumber)
    requires GreaterThanZero(quantity)
    ensures var item := OrderItem(id, quantity.number);
      var after := Render(AddOrderItem(order, Some(id), quantity).order, catalog);
      after.total == Render(order, catalog).total + Share(catalog, item)
      && (Listed(catalog, item) ==> after.rows == Render(order, catalog).rows + [RowOf(catalog, item)])
      && (!Listed(catalog, item) ==> after.rows == Render(order, catalog).rows)
  {
  }

  /** The Bread and Milk walk-through: catalog Bread 50 and Milk 80; adding two
      Bread gives one row with line total 100, then one Milk gives total 180. */
  lemma BreadAndMilk()
    ensures var catalog := [Product(1, "Bread", 50.0), Product(2, "Milk", 80.0)];
      var o1 := Step([], AddClicked(Some(1), Finite(2.0)));
      var o2 := Step(o1, AddClicked(Some(2), Finite(1.0)));
      && Render(o1, catalog) == Table([Row("Bread", 2.0, 100.0)], 100.0)
      && Render(o2, catalog) == Table([Row("Bread", 2.0, 100.0), Row("Milk", 1.0, 80.0)], 180.0)
  {
    var catalog := [Product(1, "Bread", 50.0), Product(2, "Milk", 80.0)];
    var bread, milk := OrderItem(1, 2.0), OrderItem(2, 1.0);
    var o1 := Step([], AddClicked(Some(1), Finite(2.0)));
    assert o1 == [] + [bread];
    var o2 := Step(o1, AddClicked(Some(2), Finite(1.0)));
    assert o2 == o1 + [milk];
    FindReturnsFirst(catalog, 1, 0);
    FindReturnsFirst(catalog, 2, 1);
    assert RowOf(catalog, bread) == Row("Bread", 2.0, 100.0);
    assert RowOf(catalog, milk) == Row("Milk", 1.0, 80.0);
    assert Render([], catalog) == Table([], 0.0);
    RenderAppend([], catalog, bread);
    RenderAppend(o1, catalog, milk);
  }
}
