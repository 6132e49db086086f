/** The storefront's view of the hosted data and auth service.

    Every call the pages make to the service is represented here as a value:
    the identifiers it deals in, the optional session, what a call returns, the
    requests a page issues (so that "no request was made" can be stated), and
    the outcome a page reports to the user (a toast, possibly with navigation).
 */
module Backend {

  /** Identifier of a `cart_items` row. The service assigns it on insert. */
  type LineId = nat

  type UserId = string

  type ProductId = string

  datatype Option<+T> = None | Some(value: T)

  /** What a read call returns: the data, or the service's error indicator. */
  datatype Response<+T> = Data(value: T) | Error

  /** Whether a write call reported an error. */
  datatype Status = Succeeded | Errored

  /** The views a page navigates to on its own. */
  datatype Route = Auth | ProductList

  /** What a user action or page load ends in, as the user sees it:
      a redirect, a success, or an error notice with the view left as it was. */
  datatype Outcome = Redirect(to: Route) | Ok | Failed

  /** One request to the service, as a page issues it. */
  datatype Request =
    | SelectProduct(product: ProductId)
    | SelectCart
    | DeleteLine(id: LineId)
    | SelectLine(user: UserId, product: ProductId)
    | UpdateQuantity(id: LineId, quantity: int)
    | InsertLine(user: UserId, product: ProductId, quantity: int)
  {
    /** True of the requests that change the `cart_items` table. */
    predicate IsWrite() {
      DeleteLine? || UpdateQuantity? || InsertLine?
    }
  }
}
