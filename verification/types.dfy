/** The records the order widget keeps in memory and exchanges with its two
    endpoints (products and save), as plain immutable values. */
module OrderTypes {

  /** An optional value: the selected product, or a field the server may omit. */
  datatype Option<+T> = None | Some(value: T)

  /** A catalog entry as the products endpoint returns it. Prices are JavaScript
      numbers; the model treats them as exact reals. */
  datatype Product = Product(id: int, title: string, price: real)

  /** One line of the order under construction: a product reference and a quantity. */
  datatype OrderItem = OrderItem(productId: int, quantity: real)

  /** The decoded JSON body either endpoint answers with: the success flag plus
      the catalog (products endpoint) or the confirmation code (save endpoint). */
  datatype ApiResponse = ApiResponse(success: bool, products: Option<seq<Product>>, code: Option<string>)

  /** What awaiting the request and decoding its body produced: a decoded body,
      or an exception (network failure, malformed JSON). */
  datatype Fetched = Answered(data: ApiResponse) | Threw {
    /** The request came back with `success: true`. */
    predicate Succeeded() {
      Answered? && data.success
    }
  }

  /** The value `Number(text)` gives for the quantity field: a finite number or NaN. */
  datatype JsNumber = Finite(number: real) | NaN

  /** The body posted to the save endpoint. */
  datatype Payload = Payload(products: seq<OrderItem>)

  /** The blocking notices (alerts) the widget shows; their wording is not modelled. */
  datatype Notice = InvalidInput | EmptyOrder | OrderSaved(code: Option<string>) | SaveFailed

  /** The effect of one user action on the order: the order afterwards, the
      body it posts to the save endpoint (if any) and the notice it shows (if
      any). The catalog re-fetch of each redraw is not among these effects. */
  datatype Transition = Transition(order: seq<OrderItem>, posted: Option<Payload>, notice: Option<Notice>)

  /** JavaScript's `n > 0`: every comparison with NaN is false. */
  predicate GreaterThanZero(n: JsNumber) {
    n.Finite? && n.number > 0.0
  }

  /** The order-state invariant: every line item has a positive quantity. */
  predicate PositiveQuantities(order: seq<OrderItem>) {
    forall i :: 0 <= i < |order| ==> order[i].quantity > 0.0
  }
}
