/** The order state manager's add action (addOrderItem): validate the selected
    product and the parsed quantity, then append one line item. */
module OrderState {
  import opened OrderTypes

  /** addOrderItem's guard: a product is selected and `quantity > 0`. */
  predicate ValidInput(selected: Option<int>, quantity: JsNumber) {
    selected.Some? && GreaterThanZero(quantity)
  }

  /** addOrderItem, given the selected product's id (if any) and `Number(...)`
      of the quantity field. A valid add appends exactly one item at the end and
      keeps every earlier item; an invalid one shows a notice and changes nothing.
      Either way nothing is posted to the save endpoint. */
  function AddOrderItem(order: seq<OrderItem>, selected: Option<int>, quantity: JsNumber): (r: Transition)
    ensures r.posted.None?
    ensures |order| <= |r.order| <= |order| + 1 && r.order[..|order|] == order
    ensures |r.order| == |order| + 1 <==> ValidInput(selected, quantity)
    ensures |r.order| == |order| + 1 ==>
      r.order[|order|] == OrderItem(selected.value, quantity.number) && r.notice.None?
    ensures r.order == order <==> r.notice == Some(InvalidInput)
    ensures PositiveQuantities(order) ==> PositiveQuantities(r.order)
  {
    if ValidInput(selected, quantity) then
      Transition(order + [OrderItem(selected.value, quantity.number)], None, None)
    else
      Transition(order, None, Some(InvalidInput))
  }

  /** Zero, negative and NaN quantities are all refused, whatever is selected. */
  lemma NonPositiveQuantityRefused(order: seq<OrderItem>, selected: Option<int>, quantity: JsNumber)
    requires quantity.NaN? || quantity.number <= 0.0
    ensures AddOrderItem(order, selected, quantity) == Transition(order, None, Some(InvalidInput))
  {
  }

  /** Adding the same product twice yields two separate line items. */
  lemma RepeatedAddsAreSeparateItems(order: seq<OrderItem>, id: int, q1: real, q2: real)
    requires q1 > 0.0 && q2 > 0.0
    ensures AddOrderItem(AddOrderItem(order, Some(id), Finite(q1)).order, Some(id), Finite(q2)).order
      == order + [OrderItem(id, q1), OrderItem(id, q2)]
  {
  }
}
