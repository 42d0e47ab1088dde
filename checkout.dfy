/**
 * The payment session `checkoutOrder` asks the payment provider to create:
 * one line item for the event and the metadata that the payment webhook later
 * reads back to record the order. Creating the session and redirecting to it
 * are outside the model.
 */
module Checkout {
  import opened Models

  /** What the checkout button sends. */
  datatype CheckoutOrderParams = CheckoutOrderParams(
    eventTitle: string,
    eventId: Id,
    price: string,
    isFree: bool,
    buyerId: Id)

  datatype LineItem = LineItem(currency: string, unitAmount: int, productName: string, quantity: nat)

  datatype SessionRequest = SessionRequest(
    lineItems: seq<LineItem>,
    metadata: map<string, string>,
    mode: string,
    successUrl: string,
    cancelUrl: string)

  const EventIdKey := "eventId"
  const BuyerIdKey := "buyerId"

  /**
   * The amount charged, in cents: 0 for a free event, whatever its price;
   * otherwise `priceCents`, which stands for `Number(price) * 100` (floating
   * point, computed outside the model).
   */
  function UnitAmount(order: CheckoutOrderParams, priceCents: int): (r: int)
    ensures order.isFree ==> r == 0
    ensures !order.isFree ==> r == priceCents
  {
    if order.isFree then 0 else priceCents
  }

  /**
   * The session: exactly one line item in US dollars with quantity 1, named
   * after the event; metadata `{eventId, buyerId}`; payment mode; the profile
   * page on success and the home page on cancel.
   */
  function CheckoutSession(order: CheckoutOrderParams, priceCents: int, serverUrl: string): (s: SessionRequest)
    ensures |s.lineItems| == 1
    ensures s.lineItems[0].currency == "usd" && s.lineItems[0].quantity == 1
    ensures s.lineItems[0].productName == order.eventTitle
    ensures s.lineItems[0].unitAmount == UnitAmount(order, priceCents)
    ensures s.metadata.Keys == {EventIdKey, BuyerIdKey}
    ensures s.metadata[EventIdKey] == order.eventId && s.metadata[BuyerIdKey] == order.buyerId
    ensures s.mode == "payment"
    ensures s.successUrl == serverUrl + "/profile" && s.cancelUrl == serverUrl + "/"
  {
    SessionRequest(
      [LineItem("usd", UnitAmount(order, priceCents), order.eventTitle, 1)],
      map[EventIdKey := order.eventId, BuyerIdKey := order.buyerId],
      "payment",
      serverUrl + "/profile",
      serverUrl + "/")
  }

  /** A free event's session does not depend on its price at all. */
  lemma FreeSessionIgnoresPrice(order: CheckoutOrderParams, price: string, priceCents1: int, priceCents2: int, serverUrl: string)
    requires order.isFree
    ensures CheckoutSession(order, priceCents1, serverUrl) == CheckoutSession(order.(price := price), priceCents2, serverUrl)
    ensures CheckoutSession(order, priceCents1, serverUrl).lineItems[0].unitAmount == 0
  {
  }
}
