/** The checkout page of src/pages/Checkout.tsx: the empty-cart redirect, the
    required-field check, the flattened request body it posts to the
    checkout-session function, and what it does with the reply.  The page's
    effects are listed in the order it performs them; the reply of the
    network call is a parameter. */
module Checkout {
  import opened Types
  import opened JsString
  import JsArray

  /** What the page renders for a cart. */
  datatype View = RedirectToCart | CheckoutForm

  /** An empty cart navigates to `/cart` and renders nothing. */
  function PageView(cart: seq<CartItem>): (v: View)
    ensures v == RedirectToCart <==> |cart| == 0
  {
    if |cart| == 0 then RedirectToCart else CheckoutForm
  }

  /** `useState({ name: '', email: '', phone: '', address: '', notes: '' })` */
  const EmptyForm := CustomerInfo("", "", "", "", "")

  /** The five form boxes. */
  datatype Field = Name | Email | Phone | Address | Notes

  function FieldValue(form: CustomerInfo, f: Field): string {
    match f
    case Name => form.name
    case Email => form.email
    case Phone => form.phone
    case Address => form.address
    case Notes => form.notes
  }

  /** `setForm(prev => ({ ...prev, [field]: value }))` for one of the boxes. */
  function Edit(form: CustomerInfo, f: Field, value: string): (r: CustomerInfo)
    ensures FieldValue(r, f) == value
    ensures forall g: Field :: g != f ==> FieldValue(r, g) == FieldValue(form, g)
  {
    match f
    case Name => form.(name := value)
    case Email => form.(email := value)
    case Phone => form.(phone := value)
    case Address => form.(address := value)
    case Notes => form.(notes := value)
  }

  /** Name, email, phone and address are non-blank once trimmed; notes may be anything. */
  predicate CustomerComplete(form: CustomerInfo) {
    !IsBlank(form.name) && !IsBlank(form.email) && !IsBlank(form.phone) && !IsBlank(form.address)
  }

  /** Notes are never required: they do not affect the check. */
  lemma NotesNotRequired(form: CustomerInfo, notes: string)
    ensures CustomerComplete(form.(notes := notes)) == CustomerComplete(form)
  {
  }

  /** A required field that is white space only blocks submission. */
  lemma BlankFieldBlocks(form: CustomerInfo, f: Field)
    requires f != Notes
    requires forall i :: 0 <= i < |FieldValue(form, f)| ==> IsSpace(FieldValue(form, f)[i])
    ensures !CustomerComplete(form)
  {
    BlankIffAllSpace(FieldValue(form, f));
  }

  /** `{ id, name, price, quantity, image }` for one cart line. */
  function FlatItemOf(i: CartItem): FlatItem {
    FlatItem(i.product.id, i.product.name, i.product.price, i.quantity, i.product.image)
  }

  /** `items.map(i => ({ ... }))`: one flat item per cart line, in cart order. */
  function FlattenCart(cart: seq<CartItem>): (r: seq<FlatItem>)
    ensures |r| == |cart|
    ensures forall k :: 0 <= k < |cart| ==>
      r[k].id == cart[k].product.id && r[k].name == cart[k].product.name &&
      r[k].price == cart[k].product.price && r[k].quantity == cart[k].quantity &&
      r[k].image == cart[k].product.image
  {
    JsArray.Map(cart, FlatItemOf)
  }

  /** The JSON body posted to the checkout-session function. */
  datatype CheckoutRequest = CheckoutRequest(items: seq<FlatItem>, customer: CustomerInfo)

  /** How the call ended: `fetch` or `res.json()` threw, or the body was read
      and its `url` member is the given value (`None` when absent or null). */
  datatype Reply = Threw | Answered(url: Option<string>)

  /** JavaScript truthiness of `data.url`. */
  predicate HasUrl(reply: Reply) {
    reply.Answered? && reply.url.Some? && reply.url.value != ""
  }

  /** What the page does, in order.  `ClearCart` and `PlaceOrder` name the
      cart's `clearCart` and the store's `placeOrder`, which the page takes
      from its contexts but never calls. */
  datatype Effect =
    | ShowError(message: string)
    | Post(request: CheckoutRequest)
    | GoTo(url: string)
    | ClearCart
    | PlaceOrder

  const MissingFields := "Please fill in all required fields."
  const CannotStart := "Unable to start checkout."
  const WentWrong := "Something went wrong."

  /** `handleSubmit` for a rendered page. */
  function Submit(cart: seq<CartItem>, form: CustomerInfo, reply: Reply): (effects: seq<Effect>)
    ensures 1 <= |effects| <= 2
    ensures forall k :: 0 <= k < |effects| ==> !effects[k].ClearCart? && !effects[k].PlaceOrder?
    ensures !CustomerComplete(form) ==> effects == [ShowError(MissingFields)]
    ensures CustomerComplete(form) ==>
      effects[0] == Post(CheckoutRequest(FlattenCart(cart), form)) && |effects| == 2
    ensures forall u :: GoTo(u) in effects <==> CustomerComplete(form) && reply == Answered(Some(u)) && u != ""
    ensures ShowError(WentWrong) in effects <==> CustomerComplete(form) && reply.Threw?
    ensures ShowError(CannotStart) in effects <==> CustomerComplete(form) && reply.Answered? && !HasUrl(reply)
  {
    if !CustomerComplete(form) then [ShowError(MissingFields)]
    else
      var request := CheckoutRequest(FlattenCart(cart), form);
      match reply
      case Threw => [Post(request), ShowError(WentWrong)]
      case Answered(url) =>
        if HasUrl(reply) then [Post(request), GoTo(url.value)]
        else [Post(request), ShowError(CannotStart)]
  }

  /** The untouched form is refused before anything is posted. */
  lemma EmptyFormRefused(cart: seq<CartItem>, reply: Reply)
    ensures Submit(cart, EmptyForm, reply) == [ShowError(MissingFields)]
  {
    assert Trim("") == "";
  }
}
