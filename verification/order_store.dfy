/**
 * The REST store as the views see it. Every remote call a handler makes is a `Command` it
 * returns, in the order the handler awaits them; the store's answer to a call is passed to
 * the handler as a `Reply`, so one handler call is one atomic step of the view.
 */
module OrderStore {
  import opened Common

  datatype Command =
    | ListOrders                                          // GET /orders/
    | GetOrder(orderId: Id)                               // GET /orders/<id>/
    | CreateOrder(status: string)                         // POST /orders/ with {status}
    | UpdateOrder(orderId: Id, status: string)            // PUT /orders/<id>/ with {status}
    | PatchOrderStatus(orderId: Id, status: string)       // PATCH /orders/<id>/ with {status}
    | DeleteOrder(orderId: Id)                            // DELETE /orders/<id>/
    | CreateItem(order: Id, product: Id, quantity: int)   // POST /order-items/
    | UpdateItem(itemId: Id, quantity: int)               // PATCH /order-items/<id>/ with {quantity}
    | DeleteItem(itemId: Id)                              // DELETE /order-items/<id>/

  /**
   * Why a call failed: the server's `detail` text and the client error's `message`, each the
   * empty string when absent.
   */
  datatype Failure = Failure(detail: string, message: string)

  /** The store's answer to one call. */
  datatype Reply<+T> = Ok(value: T) | Failed(failure: Failure)

  /** `err.message || fallback`, the text most handlers put in their error state. */
  function MessageOr(f: Failure, fallback: string): string {
    if f.message != "" then f.message else fallback
  }
}
