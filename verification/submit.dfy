/** The order submitter (saveOrder): guard against an empty order, post the
    current items, and clear the order only when the server confirms. */
module Submit {
  import opened OrderTypes

  /** saveOrder, with the server's answer to the post (or the exception the
      request raised) as an input. The answer is consulted only when a request
      is actually made, that is when the order is not empty. */
  function SaveOrder(order: seq<OrderItem>, answer: Fetched): (r: Transition)
    ensures r.posted.Some? <==> order != []
    ensures r.posted.Some? ==> r.posted.value == Payload(order)
    ensures order == [] ==> r.order == [] && r.notice == Some(EmptyOrder)
    ensures r.order == [] || r.order == order
    ensures order != [] ==> (r.order == [] <==> answer.Succeeded())
    ensures r.notice.Some?
    ensures r.notice.value.OrderSaved? <==> order != [] && answer.Succeeded()
    ensures r.notice.value.OrderSaved? ==> r.notice.value.code == answer.data.code
    ensures r.notice.value == SaveFailed <==> order != [] && !answer.Succeeded()
  {
    if |order| > 0 then
      match answer
      case Threw => Transition(order, Some(Payload(order)), Some(SaveFailed))
      case Answered(data) =>
        if data.success then Transition([], Some(Payload(order)), Some(OrderSaved(data.code)))
        else Transition(order, Some(Payload(order)), Some(SaveFailed))
    else
      Transition(order, None, Some(EmptyOrder))
  }
}
