/** The edge function supabase/functions/create-checkout-session/index.ts: it
    answers the CORS preflight, turns the posted items into the payment
    processor's line items, attaches the customer and the items as session
    metadata, and answers with the session url or a 500 error.  The call to
    the processor is represented by its outcome, a parameter. */
module CheckoutSession {
  import opened Types
  import JsArray

  /** The customer member of the posted body; `notes` may be missing or null. */
  datatype Customer = Customer(name: string, email: string, phone: string, address: string, notes: Option<string>)

  /** `{ items, customer }` as `req.json()` yields it. */
  datatype Payload = Payload(items: seq<FlatItem>, customer: Customer)

  /** A request: its HTTP method and its body, or the error reading the body threw. */
  datatype Request = Request(verb: string, payload: Result<Payload>)

  const PreflightHeaders: seq<(string, string)> := [
    ("Access-Control-Allow-Origin", "*"),
    ("Access-Control-Allow-Methods", "POST, OPTIONS"),
    ("Access-Control-Allow-Headers", "Content-Type")]

  const AllowOrigin: seq<(string, string)> := [("Access-Control-Allow-Origin", "*")]

  /** `price_data` with its `quantity`, flattened. */
  datatype LineItem = LineItem(currency: string, name: string, unitAmount: int, quantity: int)

  /** `Math.round`: the nearest integer, halves rounded up. */
  function Round(x: real): (r: int)
    ensures r as real - 0.5 <= x < r as real + 0.5
  {
    (x + 0.5).Floor
  }

  /** `Math.round(price * 100)`: the price in cents. */
  function UnitAmount(price: real): int {
    Round(price * 100.0)
  }

  /** A price that is a whole number of cents. */
  predicate WholeCents(price: real) {
    (price * 100.0).Floor as real == price * 100.0
  }

  /** For a whole-cent price the unit amount is exactly the price in cents. */
  lemma UnitAmountExact(price: real)
    requires WholeCents(price)
    ensures UnitAmount(price) as real == price * 100.0
  {
    var c := (price * 100.0).Floor;
    assert (c as real + 0.5).Floor == c;
  }

  function LineItemOf(item: FlatItem): LineItem {
    LineItem("usd", item.name, UnitAmount(item.price), item.quantity)
  }

  /** `items.map(item => ({ price_data: ..., quantity }))` */
  function LineItems(items: seq<FlatItem>): (r: seq<LineItem>)
    ensures |r| == |items|
    ensures forall k :: 0 <= k < |items| ==>
      r[k].currency == "usd" && r[k].name == items[k].name &&
      r[k].quantity == items[k].quantity && r[k].unitAmount == UnitAmount(items[k].price)
  {
    JsArray.Map(items, LineItemOf)
  }

  /** The amount a processor charges for the line items: the sum of unit
      amount times quantity, in cents. */
  function AmountDue(lines: seq<LineItem>): int {
    if |lines| == 0 then 0
    else AmountDue(lines[..|lines| - 1]) + lines[|lines| - 1].unitAmount * lines[|lines| - 1].quantity
  }

  /** One flattened item as `JSON.stringify` writes it and `JSON.parse` reads
      it back: every member present, `image` only when it was defined. */
  function EntryOf(item: FlatItem): RawItem {
    RawEntry(Some(item.id), Some(item.name), Some(item.price), Some(item.quantity), item.image)
  }

  /** `JSON.stringify(items)`, as the array it parses back to. */
  function Serialize(items: seq<FlatItem>): (t: ItemsText)
    ensures t.Items? && |t.entries| == |items|
    ensures forall k :: 0 <= k < |items| ==> t.entries[k] == EntryOf(items[k])
  {
    Items(JsArray.Map(items, EntryOf))
  }

  /** `customer.notes || ""` */
  function NotesOrEmpty(notes: Option<string>): (r: string)
    ensures notes.Some? && notes.value != "" ==> r == notes.value
    ensures notes.None? ==> r == ""
  {
    match notes
    case Some(n) => if n != "" then n else ""
    case None => ""
  }

  /** The session's `metadata` object. */
  function MetadataOf(p: Payload): (m: SessionMetadata)
    ensures m.customerName == Some(p.customer.name) && m.customerEmail == Some(p.customer.email)
    ensures m.customerPhone == Some(p.customer.phone) && m.customerAddress == Some(p.customer.address)
    ensures m.customerNotes == Some(p.customer.notes.GetOr(""))
    ensures m.items == Serialize(p.items)
  {
    SessionMetadata(
      Some(p.customer.name), Some(p.customer.email), Some(p.customer.phone), Some(p.customer.address),
      Some(NotesOrEmpty(p.customer.notes)), Serialize(p.items))
  }

  /** The argument of `stripe.checkout.sessions.create`. */
  datatype SessionParams = SessionParams(
    mode: string,
    paymentMethodTypes: seq<string>,
    lineItems: seq<LineItem>,
    successUrl: string,
    cancelUrl: string,
    metadata: SessionMetadata)

  function ParamsOf(p: Payload): SessionParams {
    SessionParams("payment", ["card"], LineItems(p.items),
      "http://localhost:8080/success", "http://localhost:8080/cancel", MetadataOf(p))
  }

  /** How the processor call ended: a session whose `url` may be null, or an error. */
  datatype StripeReply = Created(url: Option<string>) | Failed(message: string)

  /** The session the function asked for, if any, and its response. */
  datatype Exchange = Exchange(session: Option<SessionParams>, response: HttpResponse)

  /** The request handler. */
  function Handle(req: Request, stripe: StripeReply): (x: Exchange)
    ensures req.verb == "OPTIONS" ==>
      x.session.None? && x.response == HttpResponse(200, Text("ok"), PreflightHeaders)
    ensures req.verb != "OPTIONS" ==> x.response.headers == AllowOrigin
    ensures req.verb != "OPTIONS" && req.payload.Err? ==>
      x.session.None? && x.response.status == 500 && x.response.body == ErrorJson(req.payload.message)
    ensures req.verb != "OPTIONS" && req.payload.Ok? ==>
      x.session == Some(ParamsOf(req.payload.value))
    ensures x.response.status == 200 <==> req.verb == "OPTIONS" || (req.payload.Ok? && stripe.Created?)
    ensures x.response.body.UrlJson? <==> req.verb != "OPTIONS" && req.payload.Ok? && stripe.Created?
    ensures x.response.body.UrlJson? ==> x.response.body.url == stripe.url
    ensures req.verb != "OPTIONS" && req.payload.Ok? && stripe.Created? ==>
      x.response == HttpResponse(200, UrlJson(stripe.url), AllowOrigin)
    ensures req.verb != "OPTIONS" && req.payload.Ok? && stripe.Failed? ==>
      x.response == HttpResponse(500, ErrorJson(stripe.message), AllowOrigin)
  {
    if req.verb == "OPTIONS" then Exchange(None, HttpResponse(200, Text("ok"), PreflightHeaders))
    else
      match req.payload
      case Err(message) => Exchange(None, HttpResponse(500, ErrorJson(message), AllowOrigin))
      case Ok(p) =>
        var params := ParamsOf(p);
        match stripe
        case Created(url) => Exchange(Some(params), HttpResponse(200, UrlJson(url), AllowOrigin))
        case Failed(message) => Exchange(Some(params), HttpResponse(500, ErrorJson(message), AllowOrigin))
  }

  /** Charging whole-cent prices costs exactly the sum of price times quantity. */
  lemma {:induction false} AmountDueExact(items: seq<FlatItem>)
    requires forall k :: 0 <= k < |items| ==> WholeCents(items[k].price)
    ensures AmountDue(LineItems(items)) as real == 100.0 * FlatTotal(items)
  {
    if |items| > 0 {
      var n := |items|;
      var init, last := items[..n - 1], items[n - 1];
      var lines := LineItems(items);
      JsArray.MapSnoc(items, LineItemOf);
      assert lines[..n - 1] == LineItems(init);
      AmountDueExact(init);
      LineCostExact(last.price, last.quantity);
      assert AmountDue(lines) == AmountDue(LineItems(init)) + UnitAmount(last.price) * last.quantity;
    }
  }

  /** One line's cost in cents is 100 times its cost in dollars. */
  lemma LineCostExact(price: real, quantity: int)
    requires WholeCents(price)
    ensures (UnitAmount(price) * quantity) as real == 100.0 * (price * quantity as real)
  {
    var u := UnitAmount(price);
    UnitAmountExact(price);
    assert (u * quantity) as real == u as real * quantity as real;
  }

  /** Σ price × quantity over flattened items, folded from the left. */
  function FlatTotal(items: seq<FlatItem>): real {
    if |items| == 0 then 0.0
    else FlatTotal(items[..|items| - 1]) + items[|items| - 1].price * items[|items| - 1].quantity as real
  }
}
