/** The purchase as a whole: the checkout page posts its cart and form to the
    checkout-session function, the processor keeps the session metadata and
    hands it back to the webhook with the completed session.  These lemmas
    connect the three programs' models. */
module OrderFlow {
  import opened Types
  import JsArray
  import StoreContext
  import Checkout
  import CheckoutSession
  import StripeWebhook

  /** The page's JSON body as the checkout-session function reads it: the
      form's notes are always a string. */
  function PayloadOf(req: Checkout.CheckoutRequest): (p: CheckoutSession.Payload)
    ensures p.items == req.items
    ensures p.customer.notes == Some(req.customer.notes)
  {
    var c := req.customer;
    CheckoutSession.Payload(req.items, CheckoutSession.Customer(c.name, c.email, c.phone, c.address, Some(c.notes)))
  }

  /** The page reading the function's response with `res.json()`: a JSON body
      is read, the plain-text preflight answer makes `res.json()` throw. */
  function ReplyOf(response: HttpResponse): (r: Checkout.Reply)
    ensures response.body.UrlJson? ==> r == Checkout.Answered(response.body.url)
    ensures response.body.ErrorJson? ==> r == Checkout.Answered(None)
    ensures response.body.Text? ==> r == Checkout.Threw
  {
    match response.body
    case UrlJson(url) => Checkout.Answered(url)
    case ErrorJson(_) => Checkout.Answered(None)
    case Text(_) => Checkout.Threw
  }

  /** Decoding a serialized list of items gives the items back, image included. */
  lemma {:induction false} DecodeSerialized(items: seq<FlatItem>)
    ensures StripeWebhook.FlattenItems(CheckoutSession.Serialize(items).entries) == Some(items)
  {
    var raw := CheckoutSession.Serialize(items).entries;
    assert forall k :: 0 <= k < |raw| ==> raw[k] == CheckoutSession.EntryOf(items[k]);
    assert !exists k :: 0 <= k < |raw| && raw[k].NullItem?;
    var r := StripeWebhook.FlattenItems(raw);
    assert |r.value| == |items|;
    assert forall k :: 0 <= k < |items| ==> r.value[k] == StripeWebhook.FlattenEntry(raw[k]) == items[k];
    assert r.value == items;
  }

  /** The order the webhook records for a session created from the page's
      request holds exactly the page's flattened cart and its form. */
  lemma RecordedOrderMatchesCheckout(cart: seq<CartItem>, form: CustomerInfo, amountTotal: Option<int>)
    ensures var req := Checkout.CheckoutRequest(Checkout.FlattenCart(cart), form);
      var metadata := CheckoutSession.ParamsOf(PayloadOf(req)).metadata;
      StripeWebhook.OrderRecordOf(StripeWebhook.SessionObject(Some(metadata), amountTotal)) ==
        Some(StripeWebhook.OrderRecord(Checkout.FlattenCart(cart), form, StripeWebhook.Total(amountTotal), Pending))
  {
    DecodeSerialized(Checkout.FlattenCart(cart));
  }

  /** Σ price × quantity is the same over the cart and over its flattening. */
  lemma {:induction false} FlatTotalOfCart(cart: seq<CartItem>)
    ensures CheckoutSession.FlatTotal(Checkout.FlattenCart(cart)) == StoreContext.OrderTotal(cart)
  {
    if |cart| > 0 {
      var n := |cart|;
      JsArray.MapSnoc(cart, Checkout.FlatItemOf);
      FlatTotalOfCart(cart[..n - 1]);
      var flat := Checkout.FlattenCart(cart);
      assert flat[..n - 1] == Checkout.FlattenCart(cart[..n - 1]);
    }
  }

  /** When the processor charges the line items' amount, the total the
      webhook records equals the cart total, for whole-cent prices. */
  lemma RecordedTotalMatchesCart(cart: seq<CartItem>)
    requires forall k :: 0 <= k < |cart| ==> CheckoutSession.WholeCents(cart[k].product.price)
    ensures var lines := CheckoutSession.LineItems(Checkout.FlattenCart(cart));
      StripeWebhook.Total(Some(CheckoutSession.AmountDue(lines))) == StoreContext.OrderTotal(cart)
  {
    var flat := Checkout.FlattenCart(cart);
    CheckoutSession.AmountDueExact(flat);
    FlatTotalOfCart(cart);
  }

  /** A completed form whose session is created with a url leads the page to
      that url; a processor error leads to "Unable to start checkout.". */
  lemma CheckoutRedirects(cart: seq<CartItem>, form: CustomerInfo, stripe: CheckoutSession.StripeReply)
    requires Checkout.CustomerComplete(form)
    ensures var req := Checkout.CheckoutRequest(Checkout.FlattenCart(cart), form);
      var x := CheckoutSession.Handle(CheckoutSession.Request("POST", Ok(PayloadOf(req))), stripe);
      var effects := Checkout.Submit(cart, form, ReplyOf(x.response));
      x.session.Some? &&
      (stripe.Created? && stripe.url.Some? && stripe.url.value != "" ==> Checkout.GoTo(stripe.url.value) in effects) &&
      (stripe.Failed? ==> effects[1] == Checkout.ShowError(Checkout.CannotStart))
  {
  }
}
