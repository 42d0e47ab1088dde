/**
 * The payment webhook: after the signature check, a completed checkout
 * session becomes exactly one `createOrder` call; every other event type is
 * acknowledged with an empty 200. Reading the request and checking the
 * signature are outside the model: the handler receives the event the check
 * produced, or `None` when the check threw.
 */
module StripeWebhook {
  import opened Common
  import opened Text
  import opened Models
  import opened Errors
  import Checkout
  import Db
  import Actions

  // ---------------------------------------------------------------------------
  // Amounts: integer cents to the decimal text `(cents / 100).toString()` prints
  // ---------------------------------------------------------------------------

  /**
   * `(n / 100).toString()`: the whole part, then a point and the cents only
   * when they are not zero, without a trailing zero ("25", "25.5", "0.05").
   */
  function CentsToDecimal(n: nat): (r: string)
    ensures |r| >= 1 && IsDigit(r[0])
    ensures n % 100 == 0 <==> '.' !in r
    ensures '.' in r ==> r[|r| - 1] != '0'
    ensures r[0] == '0' ==> |r| == 1 || r[1] == '.'
  {
    var whole := NatToString(n / 100);
    var cents := n % 100;
    if cents == 0 then whole
    else if cents % 10 == 0 then whole + "." + [DigitChar(cents / 10)]
    else whole + "." + [DigitChar(cents / 10), DigitChar(cents % 10)]
  }

  predicate IsPoint(c: char)
  {
    c == '.'
  }

  /** Reads a decimal with at most two fraction digits back as cents. */
  function DecimalToCents(s: string): Option<nat>
  {
    match Find(s, IsPoint)
    case None =>
      (match ParseNat(s)
       case None => None
       case Some(w) => Some(w * 100))
    case Some(i) =>
      var frac := s[i + 1..];
      match ParseNat(s[..i])
      case None => None
      case Some(w) =>
        if |frac| == 1 && IsDigit(frac[0]) then Some(w * 100 + DigitValue(frac[0]) * 10)
        else if |frac| == 2 && IsDigit(frac[0]) && IsDigit(frac[1]) then
          Some(w * 100 + DigitValue(frac[0]) * 10 + DigitValue(frac[1]))
        else None
  }

  /** In a numeral followed by a point, the first point is the one after the numeral. */
  lemma PointAfterNumeral(whole: string, fraction: string)
    requires AllDigits(whole)
    ensures Find(whole + "." + fraction, IsPoint) == Some(|whole|)
    ensures (whole + "." + fraction)[..|whole|] == whole
    ensures (whole + "." + fraction)[|whole| + 1..] == fraction
  {
    var s := whole + "." + fraction;
    assert IsPoint(s[|whole|]);
    assert forall j :: 0 <= j < |whole| ==> s[j] == whole[j];
  }

  /** A whole amount reads back through the branch without a point. */
  lemma WholeRoundTrip(w: nat)
    ensures DecimalToCents(NatToString(w)) == Some(w * 100)
  {
    var s := NatToString(w);
    ParseNatToString(w);
    assert forall j :: 0 <= j < |s| ==> !IsPoint(s[j]);
  }

  /** A whole part and cents read back through the branch with a point. */
  lemma FractionRoundTrip(w: nat, cents: nat)
    requires 0 < cents < 100
    ensures var whole := NatToString(w);
      var fraction := if cents % 10 == 0 then [DigitChar(cents / 10)] else [DigitChar(cents / 10), DigitChar(cents % 10)];
      DecimalToCents(whole + "." + fraction) == Some(w * 100 + cents)
  {
    var whole := NatToString(w);
    var fraction := if cents % 10 == 0 then [DigitChar(cents / 10)] else [DigitChar(cents / 10), DigitChar(cents % 10)];
    PointAfterNumeral(whole, fraction);
    ParseNatToString(w);
    assert DigitValue(DigitChar(cents / 10)) == cents / 10;
    assert DigitValue(DigitChar(cents % 10)) == cents % 10;
  }

  /** The decimal text of an amount reads back as the same amount. */
  lemma CentsToDecimalRoundTrip(n: nat)
    ensures DecimalToCents(CentsToDecimal(n)) == Some(n)
  {
    if n % 100 == 0 {
      WholeRoundTrip(n / 100);
    } else {
      FractionRoundTrip(n / 100, n % 100);
    }
  }

  /** The totals of two sessions print the same exactly when they are equal. */
  lemma CentsToDecimalInjective(m: nat, n: nat)
    ensures CentsToDecimal(m) == CentsToDecimal(n) <==> m == n
  {
    CentsToDecimalRoundTrip(m);
    CentsToDecimalRoundTrip(n);
  }

  // ---------------------------------------------------------------------------
  // The verified event and the order it yields
  // ---------------------------------------------------------------------------

  /** The fields of a checkout session that the handler reads. */
  datatype Session = Session(id: string, amountTotal: Option<nat>, metadata: Option<map<string, string>>)

  datatype StripeEvent = StripeEvent(eventType: string, session: Session)

  const CheckoutCompleted := "checkout.session.completed"

  /** `metadata?.key || ''`: a missing map, a missing key and an empty value all give "". */
  function MetadataField(metadata: Option<map<string, string>>, key: string): (r: string)
    ensures metadata.Some? && key in metadata.value ==> r == metadata.value[key]
    ensures !(metadata.Some? && key in metadata.value) ==> r == ""
  {
    if metadata.Some? && key in metadata.value then metadata.value[key] else ""
  }

  /** `amount_total ? (amount_total / 100).toString() : '0'`. */
  function TotalAmount(amountTotal: Option<nat>): (r: string)
    ensures amountTotal.None? || amountTotal == Some(0) ==> r == "0"
    ensures amountTotal.Some? ==> DecimalToCents(r) == Some(amountTotal.value)
    ensures amountTotal.Some? && amountTotal.value != 0 ==> r == CentsToDecimal(amountTotal.value)
  {
    if amountTotal.Some? && amountTotal.value != 0 then
      CentsToDecimalRoundTrip(amountTotal.value);
      CentsToDecimal(amountTotal.value)
    else "0"
  }

  /** The order record built from a completed session. */
  function OrderFromSession(s: Session, now: Time): (p: OrderParams)
    ensures p.stripeId == s.id
    ensures p.eventId == MetadataField(s.metadata, Checkout.EventIdKey)
    ensures p.buyerId == MetadataField(s.metadata, Checkout.BuyerIdKey)
    ensures p.totalAmount == TotalAmount(s.amountTotal)
    ensures p.createdAt == Some(now)
  {
    OrderParams(s.id, MetadataField(s.metadata, Checkout.EventIdKey),
                MetadataField(s.metadata, Checkout.BuyerIdKey), TotalAmount(s.amountTotal), Some(now))
  }

  /** A session created by checkout carries its event and buyer into the order. */
  lemma CheckoutMetadataReachesOrder(order: Checkout.CheckoutOrderParams, priceCents: int, serverUrl: string,
                                     id: string, amountTotal: Option<nat>, now: Time)
    ensures var request := Checkout.CheckoutSession(order, priceCents, serverUrl);
      var p := OrderFromSession(Session(id, amountTotal, Some(request.metadata)), now);
      p.eventId == order.eventId && p.buyerId == order.buyerId
  {
  }

  // ---------------------------------------------------------------------------
  // The handler
  // ---------------------------------------------------------------------------

  datatype StripeResponse =
    | WebhookError                  // the signature check threw: a JSON error payload, status 200
    | OrderRecorded(order: Order)   // `{message: 'OK', order}`
    | Empty                         // an empty 200 for other event types
    | Rejected(cause: Thrown)       // `createOrder` rejected with `cause`; the caller sees `HandleError(cause)`

  /**
   * The handler as a function of the store: `verified` is the event the
   * signature check produced, `None` when it threw; `id` is the new order's id.
   */
  function HandleStripe(db: Db.Db, verified: Option<StripeEvent>, id: Id, now: Time): (res: (StripeResponse, Db.Db))
    ensures verified.None? ==> res == (WebhookError, db)
    ensures verified.Some? && verified.value.eventType != CheckoutCompleted ==> res == (Empty, db)
    ensures verified.Some? && verified.value.eventType == CheckoutCompleted ==>
              var (r, after) := Db.CreateOrder(db, OrderFromSession(verified.value.session, now), id, now);
              res.1 == after &&
              res.0 == (if r.Ok? then OrderRecorded(r.value) else Rejected(r.cause))
  {
    match verified
    case None => (WebhookError, db)
    case Some(e) =>
      if e.eventType != CheckoutCompleted then (Empty, db)
      else
        var (r, after) := Db.CreateOrder(db, OrderFromSession(e.session, now), id, now);
        (if r.Ok? then OrderRecorded(r.value) else Rejected(r.cause), after)
  }

  /** A completed session adds at most one order, and the recorded order carries the session id. */
  lemma CompletedSessionAddsOneOrder(db: Db.Db, e: StripeEvent, id: Id, now: Time)
    requires e.eventType == CheckoutCompleted
    ensures var (resp, after) := HandleStripe(db, Some(e), id, now);
      && (resp.OrderRecorded? ==> after.orders == db.orders + [resp.order] && resp.order.stripeId == e.session.id
                                  && resp.order.id == id)
      && (resp.Rejected? ==> after == db)
  {
  }

  /** A session delivered twice is recorded once: the replay is rejected and adds nothing. */
  lemma ReplayedSessionRecordedOnce(db: Db.Db, e: StripeEvent, id1: Id, id2: Id, now1: Time, now2: Time)
    requires e.eventType == CheckoutCompleted
    requires HandleStripe(db, Some(e), id1, now1).0.OrderRecorded?
    ensures var after := HandleStripe(db, Some(e), id1, now1).1;
      && HandleStripe(after, Some(e), id2, now2) == (Rejected(StoreError(DuplicateKey)), after)
      && |after.orders| == |db.orders| + 1
  {
    var p1 := OrderFromSession(e.session, now1);
    var p2 := OrderFromSession(e.session, now2);
    Db.SecondOrderForSessionFails(db, p1, id1, id2, now1, now2);
    var after := HandleStripe(db, Some(e), id1, now1).1;
    assert after == Db.CreateOrder(db, p1, id1, now1).1;
    assert p2.stripeId == p1.stripeId;
    assert Db.StripeIdTaken(after.orders, p2.stripeId);
  }

  /** The handler performed on the shared store. */
  method Handle(store: Actions.Store, verified: Option<StripeEvent>, id: Id, now: Time) returns (resp: StripeResponse)
    requires store.Valid() && Db.FreshOrderId(store.State(), id)
    modifies store
    ensures store.Valid()
    ensures (resp, store.State()) == HandleStripe(old(store.State()), verified, id, now)
  {
    if verified.None? {
      return WebhookError;
    }
    var e := verified.value;
    if e.eventType != CheckoutCompleted {
      return Empty;
    }
    var r := store.CreateOrder(OrderFromSession(e.session, now), id, now);
    resp := if r.Ok? then OrderRecorded(r.value) else Rejected(r.cause);
  }
}
