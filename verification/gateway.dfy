/**
  * What the application sends to, and receives from, the payment
  * provider's hosted checkout. The provider itself is not modelled: its
  * replies are inputs to the operations that call it.
  */
module Gateway {

  datatype Mode = Payment | SubscriptionMode

  /** One `{"price": ..., "quantity": ...}` entry of a checkout request. */
  datatype LineItem = LineItem(price: string, quantity: int)

  /** The checkout metadata: the shop sends basket and user ids, subscriptions send none. */
  datatype Metadata = NoMetadata | BasketMetadata(basketId: nat, userId: string)

  /**
    * The arguments of a checkout-session creation call that the model
    * determines. The success and cancel URLs are left out.
    */
  datatype SessionRequest = SessionRequest(
    customer: string,
    lineItems: seq<LineItem>,
    mode: Mode,
    clientReferenceId: string,
    metadata: Metadata)

  /** The provider's answer to a creation call: a redirect URL, or an exception. */
  datatype CreateReply = Created(url: string) | CreateRaised
}
