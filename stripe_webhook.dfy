/** The edge function supabase/functions/stripe-webhook/index.ts: on a
    completed checkout session it decodes the session metadata with
    defaults, records one order, then sends two notification emails, each
    of whose failure is only logged.  Every readable event is acknowledged
    with 200 "ok".  The order insert and the email sends are recorded as
    effects; whether each send throws is a parameter. */
module StripeWebhook {
  import opened Types
  import JsArray

  /** `event.data.object`: the session's metadata (`None` when missing or
      null) and its `amount_total` in cents (`None` when missing or null). */
  datatype SessionObject = SessionObject(metadata: Option<SessionMetadata>, amountTotal: Option<int>)

  datatype Event = Event(kind: string, session: SessionObject)

  const Completed := "checkout.session.completed"

  /** `{}`: metadata with no keys. */
  const NoMetadata := SessionMetadata(None, None, None, None, None, NoItems)

  /** The row inserted into the `orders` table. */
  datatype OrderRecord = OrderRecord(items: seq<FlatItem>, customer: CustomerInfo, total: real, status: Status)

  const Sender := "Artisan Woodcraft <onboarding@resend.dev>"
  const AdminSubject := "New Order Received"
  const CustomerSubject := "Thank you for your order!"
  const AdminFailed := "Admin email failed:"
  const CustomerFailed := "Customer email failed:"

  datatype Effect =
    | InsertOrder(record: OrderRecord)
    | SendEmail(from: string, to: string, subject: string)
    | LogError(message: string)

  const Acknowledge := HttpResponse(200, Text("ok"), [])

  /** What the server answers when the handler throws. */
  const Crash := HttpResponse(500, Text("Internal Server Error"), [])

  /** `JSON.parse(metadata.items || "[]")`, with a parse error caught: the
      array `rawItems` ends up holding, or `None` when it is not an array. */
  function ParsedItems(t: ItemsText): (r: Option<seq<RawItem>>)
    ensures r.None? <==> t.NotAList?
    ensures t.Items? ==> r == Some(t.entries)
    ensures t.NoItems? || t.Unparsable? ==> r == Some([])
  {
    match t
    case NoItems => Some([])
    case Unparsable => Some([])
    case NotAList => None
    case Items(entries) => Some(entries)
  }

  /** The defaults of one item: `??` keeps every present value, `0` and `""` included. */
  function FlattenEntry(e: RawItem): (f: FlatItem)
    requires e.RawEntry?
    ensures f.id == e.id.GetOr("") && f.name == e.name.GetOr("")
    ensures f.price == e.price.GetOr(0.0) && f.quantity == e.quantity.GetOr(1)
    ensures f.image == e.image
  {
    FlatItem(e.id.GetOr(""), e.name.GetOr(""), e.price.GetOr(0.0), e.quantity.GetOr(1), e.image)
  }

  /** `rawItems.map(i => ...)`: one item per entry, in order; reading a
      member of a `null` entry throws (`None`). */
  function FlattenItems(raw: seq<RawItem>): (r: Option<seq<FlatItem>>)
    ensures r.None? <==> exists k :: 0 <= k < |raw| && raw[k].NullItem?
    ensures r.Some? ==> |r.value| == |raw|
    ensures r.Some? ==> forall k :: 0 <= k < |raw| ==> raw[k].RawEntry? && r.value[k] == FlattenEntry(raw[k])
  {
    if |raw| == 0 then Some([])
    else if raw[0].NullItem? then None
    else
      match FlattenItems(raw[1..])
      case None => None
      case Some(rest) => Some([FlattenEntry(raw[0])] + rest)
  }

  /** The `customer` object: each `customer_*` value, or "" when absent. */
  function DecodeCustomer(m: SessionMetadata): (c: CustomerInfo)
    ensures c.name == m.customerName.GetOr("") && c.email == m.customerEmail.GetOr("")
    ensures c.phone == m.customerPhone.GetOr("") && c.address == m.customerAddress.GetOr("")
    ensures c.notes == m.customerNotes.GetOr("")
  {
    CustomerInfo(m.customerName.GetOr(""), m.customerEmail.GetOr(""), m.customerPhone.GetOr(""),
      m.customerAddress.GetOr(""), m.customerNotes.GetOr(""))
  }

  /** `(session.amount_total ?? 0) / 100`: dollars from cents. */
  function Total(amountTotal: Option<int>): (t: real)
    ensures t * 100.0 == amountTotal.GetOr(0) as real
    ensures amountTotal.None? ==> t == 0.0
  {
    amountTotal.GetOr(0) as real / 100.0
  }

  /** The order a completed session is recorded as, or `None` when decoding
      its items throws. */
  function OrderRecordOf(s: SessionObject): (r: Option<OrderRecord>)
    ensures var m := s.metadata.GetOr(NoMetadata);
      r.Some? <==> ParsedItems(m.items).Some? && FlattenItems(ParsedItems(m.items).value).Some?
    ensures var m := s.metadata.GetOr(NoMetadata);
      r.Some? ==> r.value == OrderRecord(FlattenItems(ParsedItems(m.items).value).value,
        DecodeCustomer(m), Total(s.amountTotal), Pending)
  {
    var m := s.metadata.GetOr(NoMetadata);
    match ParsedItems(m.items)
    case None => None
    case Some(raw) =>
      match FlattenItems(raw)
      case None => None
      case Some(items) => Some(OrderRecord(items, DecodeCustomer(m), Total(s.amountTotal), Pending))
  }

  /** A session without metadata records an order with no items and every
      customer field empty. */
  lemma MissingMetadataDecodes(amountTotal: Option<int>)
    ensures OrderRecordOf(SessionObject(None, amountTotal)) ==
      Some(OrderRecord([], CustomerInfo("", "", "", "", ""), Total(amountTotal), Pending))
  {
  }

  /** The handler.  `event` is `None` when `req.json()` throws. */
  method HandleWebhook(event: Option<Event>, adminEmail: string, adminSendThrows: bool, customerSendThrows: bool)
    returns (response: HttpResponse, effects: seq<Effect>)
    ensures event.None? ==> response == Crash && effects == []
    ensures event.Some? && event.value.kind != Completed ==> response == Acknowledge && effects == []
    ensures event.Some? && event.value.kind == Completed && OrderRecordOf(event.value.session).None? ==>
      response == Crash && effects == []
    ensures event.Some? && event.value.kind == Completed && OrderRecordOf(event.value.session).Some? ==>
      var record := OrderRecordOf(event.value.session).value;
      response == Acknowledge &&
      effects == [InsertOrder(record), SendEmail(Sender, adminEmail, AdminSubject)]
        + (if adminSendThrows then [LogError(AdminFailed)] else [])
        + [SendEmail(Sender, record.customer.email, CustomerSubject)]
        + (if customerSendThrows then [LogError(CustomerFailed)] else [])
    ensures forall k :: 0 < k < |effects| ==> !effects[k].InsertOrder?
  {
    effects := [];
    if event.None? {
      return Crash, effects;
    }
    var e := event.value;
    if e.kind == Completed {
      var session := e.session;
      var metadata := session.metadata.GetOr(NoMetadata);
      var rawItems := ParsedItems(metadata.items);
      if rawItems.None? {
        return Crash, effects;
      }
      var items := FlattenItems(rawItems.value);
      if items.None? {
        return Crash, effects;
      }
      var customer := DecodeCustomer(metadata);
      var total := Total(session.amountTotal);
      var record := OrderRecord(items.value, customer, total, Pending);
      effects := effects + [InsertOrder(record)];
      effects := effects + [SendEmail(Sender, adminEmail, AdminSubject)];
      if adminSendThrows {
        effects := effects + [LogError(AdminFailed)];
      }
      effects := effects + [SendEmail(Sender, customer.email, CustomerSubject)];
      if customerSendThrows {
        effects := effects + [LogError(CustomerFailed)];
      }
    }
    response := Acknowledge;
  }
}
