# Artisan Woodcraft Emporium: a verified model of the storefront core

The storefront sells handmade woodwork. This Dafny project models its core logic:

- **The catalogue/order store** (`src/context/StoreContext.tsx`). A class holds two
  sequences, `products` and `orders`. Each operation replaces one of them with a
  spread, `map`, `filter` or `reduce`, written here as a pure function.
- **The admin dashboard** (`src/pages/Admin.tsx`):
  - the product form's submit: the required-field check, the `Key: Value` specs
    parser (an imperative loop) and the `featured` default;
  - the specs formatter that fills the form for an edit;
  - the order-status buttons.
- **The checkout page** (`src/pages/Checkout.tsx`): the empty-cart redirect, the
  required-field check, the flattened request and the reaction to the reply. It is
  written as a sequence of effects.
- **The checkout-session edge function**
  (`supabase/functions/create-checkout-session/index.ts`): the CORS preflight, the
  line items, the session metadata, and the url or error response.
- **The payment webhook** (`supabase/functions/stripe-webhook/index.ts`): the
  event-type gate, and decoding the session metadata with defaults. It then
  inserts one order record and sends two emails, each guarded by its own catch.
  The method lists what it does as effects.
- **The catalogue views**: the shop's category buttons and filter
  (`src/pages/Shop.tsx`), and the home page's first three featured products
  (`src/pages/Index.tsx`).
- **The contact form** (`src/pages/Contact.tsx`): a class whose form is emptied only
  after an ok response.
- **The whole purchase** (module `OrderFlow`). Lemmas connect the page, the session
  function and the webhook:
  - the order recorded holds the page's flattened cart and form, unchanged;
  - the total the webhook records is the cart total, when the processor charges
    the line items and prices are whole cents.

Modelling choices:
- **Money.** Prices and totals are exact `real` dollars. Processor amounts are
  integer cents. `Math.round` is `floor(x + 0.5)`.
- **String and array built-ins.** `trim` removes the ECMAScript white-space and
  line-terminator set. `indexOf`, `split` and `join` work on one character. `map`
  and `filter` are written out in modules `JsString` and `JsArray`.
- **Specs records.** A `Record<string, string>` is its list of own entries, in
  insertion order. Assignment replaces an existing key in place or appends a new
  one. The exception is the key `__proto__`: assigning a string to it reaches the
  prototype setter, which ignores the value, so the record is unchanged.
  JavaScript lists integer-like keys before the others; the model does not (see
  "Left out").
- **JSON `metadata.items`.** It is represented by what `JSON.parse` makes of it:
  missing or empty, unparseable, not an array, or an array of entries. Each entry's
  members may be absent.
- **Parameters.** Ids, timestamps and environment values (`Date.now()`, the admin
  address) are passed in. So is the outcome of every network call: the `fetch`
  replies, the processor's session creation, and whether each email send throws.

Facts about the code that the model keeps:
- **No backend refresh.** The store in `StoreContext.tsx` is local only: no
  operation refreshes from a backend.
- **Any status move.** `updateOrderStatus` accepts any target status. Only the
  dashboard's buttons restrict moves to forward ones.
- **`CartItem`s in orders.** `placeOrder` stores the cart items themselves, while
  `types.ts` declares `OrderItem[]`.
- **Total not recomputed.** The webhook's total is `amount_total / 100`. It is not
  recomputed from the items.
- **Not all malformed metadata is absorbed.** `metadata.items` that parses to a
  non-array, or to an array holding `null`, makes `rawItems.map` throw. The server
  then answers 500 with nothing inserted. Missing or unparseable items become `[]`.
- **Unused callbacks.** The checkout page takes `clearCart` and `placeOrder` from
  its contexts but calls neither.

## Model

| member | source | states |
|---|---|---|
| `StoreContext.Store.constructor` | src/context/StoreContext.tsx:18-19 | The store starts with the seed catalogue and no orders. |
| `StoreContext.Store.AddProduct` | src/context/StoreContext.tsx:21-24 | Appends exactly one product, the draft with the supplied id. Earlier products are kept in order and orders are untouched. |
| `StoreContext.Merge` | src/context/StoreContext.tsx:27 | Defined as the spread `{ ...p, ...updates }`: each field the patch has wins, the others are kept. No contract of its own; its laws are `MergeLaws`. |
| `StoreContext.MergeLaws` | src/context/StoreContext.tsx:26-28 | The spread merge with an empty patch is the identity. Merging a patch twice is merging it once. A patch without an id keeps the id. |
| `StoreContext.UpdateProducts` | src/context/StoreContext.tsx:26-28 | Same length and positions. Products with another id are unchanged. Matching ones take every field present in the patch and keep the rest. |
| `StoreContext.UpdateUnknownProduct` | src/context/StoreContext.tsx:27 | Updating an id no product has leaves the list unchanged. |
| `StoreContext.Store.UpdateProduct` | src/context/StoreContext.tsx:26-28 | The new product list is `UpdateProducts` of the old one. Orders are untouched. |
| `StoreContext.DeleteProducts` | src/context/StoreContext.tsx:30-32 | No survivor has the id. Every product with another id survives, as many times as it appeared. |
| `StoreContext.DeleteLaws` | src/context/StoreContext.tsx:31 | Deletion works product by product and keeps order: it distributes over concatenation. It is idempotent. |
| `StoreContext.DeleteUnknownProduct` | src/context/StoreContext.tsx:31 | Deleting an id no product has leaves the list unchanged. |
| `StoreContext.DeleteUndoesAdd` | src/context/StoreContext.tsx:21-32 | Deleting the id just added undoes the addition. |
| `StoreContext.Store.DeleteProduct` | src/context/StoreContext.tsx:30-32 | The new product list is `DeleteProducts` of the old one. Orders are untouched. |
| `StoreContext.OrderTotal` | src/context/StoreContext.tsx:39 | Defined as the left fold Σ price×quantity over the items, starting at 0. No contract of its own; see `OrderTotalConcat` and `OrderTotalNonNegative`. |
| `StoreContext.OrderTotalConcat` | src/context/StoreContext.tsx:39 | The `reduce` total adds up over any split of the items. |
| `StoreContext.OrderTotalNonNegative` | src/context/StoreContext.tsx:39 | With non-negative prices and quantities the total is non-negative. |
| `StoreContext.NewOrder` | src/context/StoreContext.tsx:35-42 | Defined as the order with the given id, items, customer and creation time, total `OrderTotal(items)` and status pending. No contract of its own; `Store.PlaceOrder` states those fields. |
| `StoreContext.Store.PlaceOrder` | src/context/StoreContext.tsx:34-44 | Appends one order that is pending and totals Σ price×quantity. Earlier orders and the products are unchanged. |
| `StoreContext.UpdateStatuses` | src/context/StoreContext.tsx:46-48 | Same length. Matching orders change only their status. Other orders are unchanged. |
| `StoreContext.UpdateUnknownOrder` | src/context/StoreContext.tsx:47 | Updating an id no order has leaves the list unchanged. |
| `StoreContext.StoreAcceptsAnyStatus` | src/context/StoreContext.tsx:46-48 | The store accepts any target status, backwards included. |
| `StoreContext.Store.UpdateOrderStatus` | src/context/StoreContext.tsx:46-48 | The new order list is `UpdateStatuses` of the old one. Products are untouched. |
| `Admin.Assign` | src/pages/Admin.tsx:37 | After `specs[k] = v`, `k` reads `v` and every other key reads what it read before. For `__proto__` the record is unchanged. |
| `Admin.AssignKeys` | src/pages/Admin.tsx:37 | An existing key keeps its place. A new key is appended last, except that `__proto__` is never added. |
| `Admin.ProtoKeyNeverStored` | src/pages/Admin.tsx:34-38 | A `__proto__: …` line never puts a `__proto__` key into the parsed record. |
| `Admin.AssignDistinct` | src/pages/Admin.tsx:34-38 | Assignment never duplicates a key. |
| `Admin.ParseSpecLine` | src/pages/Admin.tsx:36-37 | A line is accepted exactly when it has a `:` that is not at index 0. The key is the trimmed text before the first `:`. The value is the trimmed rest, and may contain `:`. |
| `Admin.ParseSpecs` | src/pages/Admin.tsx:34-38 | The `forEach` loop builds exactly the record of the non-empty lines, with distinct keys. |
| `Admin.SpecsFromLinesLookup` | src/pages/Admin.tsx:35-37 | A key's value is the one from the last accepted line carrying it: later lines overwrite earlier ones. |
| `Admin.FormatSpecs` | src/pages/Admin.tsx:25 | Defined as one `k: v` line per entry, in entry order, joined with newlines. No contract of its own; `FormatParseRoundTrip` states that the parser reads it back. |
| `Admin.ParseSpecLineOfFormat` | src/pages/Admin.tsx:24-38 | A formatted `k: v` line parses back to `(k, v)` for a clean key and value. |
| `Admin.SpecsFromFormattedLines` | src/pages/Admin.tsx:24-38 | Parsing the formatted lines of a clean record rebuilds the record, in order. |
| `Admin.FormatParseRoundTrip` | src/pages/Admin.tsx:24-38 | Formatting then parsing returns a record when its keys are non-empty, not `__proto__`, trimmed and free of `:` and newline, and its values are trimmed and free of newline. |
| `Admin.EditKeepsSpecs` | src/pages/Admin.tsx:24-26 | Saving an edit with the specs box untouched keeps a clean record as it was. |
| `Admin.SubmitProductForm` | src/pages/Admin.tsx:28-40 | Nothing is saved exactly when the name, price or category box is blank after trimming. Otherwise the saved draft holds the boxes and the parsed specs. `featured` is kept from the edited product and is false for a new one. |
| `Admin.PatchOf` | src/pages/Admin.tsx:16 | The form's data carries no id key. |
| `Admin.EditSaveKeepsId` | src/pages/Admin.tsx:127-129 | Saving an edit keeps the product's id and creation time and takes every other field from the form. |
| `Admin.StatusControls` | src/pages/Admin.tsx:191-201 | Defined as: pending offers processing and fulfilled, processing offers fulfilled, fulfilled offers nothing. No contract of its own; `ControlsMoveForward` states that each offer moves forward. |
| `Admin.ControlsMoveForward` | src/pages/Admin.tsx:191-201 | Every button offered moves the status strictly forward. None is offered exactly when the order is fulfilled. |
| `Admin.PressesOnlyForward` | src/pages/Admin.tsx:191-201 | Any valid sequence of button presses moves an order only forward. One or more presses leave it strictly further on, and at most two presses are possible. |
| `Checkout.PageView` | src/pages/Checkout.tsx:18-21 | The page redirects to the cart exactly when the cart is empty. |
| `Checkout.Edit` | src/pages/Checkout.tsx:65-66 | Editing a box sets that field and leaves the other four. |
| `Checkout.CustomerComplete` | src/pages/Checkout.tsx:26 | Defined as: name, email, phone and address are all non-blank after trimming. No contract of its own; see `NotesNotRequired` and `BlankFieldBlocks`. |
| `Checkout.NotesNotRequired` | src/pages/Checkout.tsx:26 | The notes box never affects validation. |
| `Checkout.BlankFieldBlocks` | src/pages/Checkout.tsx:26-29 | A required field that is all white space fails validation. |
| `Checkout.EmptyFormRefused` | src/pages/Checkout.tsx:16-29 | The initial, empty form is refused with the missing-fields error. |
| `Checkout.FlattenCart` | src/pages/Checkout.tsx:41-47 | The flattened items are in cart order and of the same length. Each carries the product's id, name, price and image and the cart quantity. |
| `Checkout.Submit` | src/pages/Checkout.tsx:23-63 | An incomplete form posts nothing. A complete one posts `{items: FlattenCart(cart), customer: form}`. The page redirects to exactly `u` iff the reply's url is a non-empty `u`. Otherwise it reports "Unable to start checkout.", or "Something went wrong." when the call threw. It never clears the cart or places an order. |
| `CheckoutSession.Round` | supabase/functions/create-checkout-session/index.ts:29 | `Math.round` gives the integer within one half, halves rounded up. |
| `CheckoutSession.UnitAmountExact` | supabase/functions/create-checkout-session/index.ts:29 | For a whole-cent price the unit amount is exactly the price in cents. |
| `CheckoutSession.LineItems` | supabase/functions/create-checkout-session/index.ts:23-32 | Same length and order as the items. Each line is in `usd`, with the item's name, quantity and rounded cent price. |
| `CheckoutSession.AmountDueExact` | supabase/functions/create-checkout-session/index.ts:23-32 | For whole-cent prices the line items' amount is 100 × Σ price×quantity. |
| `CheckoutSession.Serialize` | supabase/functions/create-checkout-session/index.ts:46 | The metadata items are the received items, every member present. |
| `CheckoutSession.NotesOrEmpty` | supabase/functions/create-checkout-session/index.ts:45 | Notes are kept when non-empty and become "" when missing. |
| `CheckoutSession.MetadataOf` | supabase/functions/create-checkout-session/index.ts:40-47 | The metadata copies name, email, phone and address, sets notes to "" when notes are missing, and holds the serialized items. |
| `CheckoutSession.ParamsOf` | supabase/functions/create-checkout-session/index.ts:34-47 | Defined as a payment-mode, card-only session with the line items, the fixed success and cancel urls, and the metadata. No contract of its own; its parts are stated by `LineItems` and `MetadataOf`. |
| `CheckoutSession.Handle` | supabase/functions/create-checkout-session/index.ts:4-60 | OPTIONS gives the preflight response with three CORS headers and creates no session. An unreadable body gives 500 `{error}` and no session. Otherwise one session is requested. The response is 200 `{url}` when the processor created it and 500 `{error: message}` when it threw, both with the CORS origin header. |
| `StripeWebhook.ParsedItems` | supabase/functions/stripe-webhook/index.ts:29-34 | Missing or unparseable items give `[]`. A parsed array is kept. Only JSON that is not an array leaves no array. |
| `StripeWebhook.FlattenEntry` | supabase/functions/stripe-webhook/index.ts:37-43 | Absent fields default to "", "", 0 and 1. Present values, 0 and "" included, are kept. The image is passed through. |
| `StripeWebhook.FlattenItems` | supabase/functions/stripe-webhook/index.ts:37-43 | The map fails exactly when an entry is null. Otherwise it keeps length and order, each item being its entry with defaults. |
| `StripeWebhook.DecodeCustomer` | supabase/functions/stripe-webhook/index.ts:46-52 | Each customer field is its `customer_*` value, or "" when absent. |
| `StripeWebhook.Total` | supabase/functions/stripe-webhook/index.ts:54 | The total is `amount_total` / 100, and 0 when absent. It depends on nothing else. |
| `StripeWebhook.OrderRecordOf` | supabase/functions/stripe-webhook/index.ts:26-61 | Missing metadata is `{}`. The record holds the decoded items, the customer, the total and status pending. There is no record exactly when decoding the items throws. |
| `StripeWebhook.MissingMetadataDecodes` | supabase/functions/stripe-webhook/index.ts:26-52 | A session without metadata records an order with no items and an empty customer. |
| `StripeWebhook.HandleWebhook` | supabase/functions/stripe-webhook/index.ts:7-209 | Another event type does nothing and answers 200 "ok". A completed session does three things in order: one insert, the admin email, then the customer email. Each email failure is logged only. The answer is 200 "ok" whatever the sends do. Items that make the map throw give 500 with no effect. |
| `Shop.Dedup` | src/pages/Shop.tsx:11 | The set's values are distinct, and exactly the input's values. |
| `Shop.DedupFirstOccurrenceOrder` | src/pages/Shop.tsx:11 | The values come in order of their first occurrence. |
| `Shop.Categories` | src/pages/Shop.tsx:10-13 | There is always at least one button, and the first is `All`. |
| `Shop.CategoriesLaws` | src/pages/Shop.tsx:10-13 | After the first button, `All`, the rest are distinct. Every product's category is among them, and each one is some product's category. |
| `Shop.CategoriesInCatalogueOrder` | src/pages/Shop.tsx:10-13 | The categories after `All` follow the catalogue's first use of each. |
| `Shop.SeedCategories` | src/pages/Shop.tsx:10-13 | The seed catalogue gives `All, Games, Personalized, Storage`. |
| `Shop.Filtered` | src/pages/Shop.tsx:15 | `All` shows the catalogue unchanged. Any other filter shows exactly the products of that category, each as often as it occurs. |
| `Shop.FilteredInOrder` | src/pages/Shop.tsx:15 | Filtering works product by product, so the original order is kept. |
| `Shop.Shown` | src/pages/Shop.tsx:43-48 | "No products found." shows exactly when nothing matches. Otherwise one card is shown per filtered product. |
| `IndexPage.FeaturedProducts` | src/pages/Index.tsx:11 | Exactly the featured products of the catalogue, each as often as it occurs. |
| `IndexPage.Featured` | src/pages/Index.tsx:11 | At most three, all featured, a prefix of the featured products. All of them when there are at most three, otherwise exactly three. |
| `IndexPage.FeaturedInOrder` | src/pages/Index.tsx:11 | The featured products are taken in catalogue order. |
| `IndexPage.FeaturedIgnoresLaterProducts` | src/pages/Index.tsx:11 | Products after the first three featured ones never change the selection. |
| `IndexPage.SeedFeatured` | src/pages/Index.tsx:11 | The seed catalogue's three products are all shown. |
| `Contact.EditField` | src/pages/Contact.tsx:46-47 | Editing a box sets that field and leaves the other two. |
| `Contact.Complete` | src/pages/Contact.tsx:16 | Defined as: name, email and message are all non-blank after trimming. No contract of its own; `Submitted` states its role. |
| `Contact.Submitted` | src/pages/Contact.tsx:13-44 | A blank field means no request and "Please fill in all fields.". Success is always "Message sent! We'll get back to you soon.". Otherwise the body is exactly the form. Only an ok response shows success and empties all three fields. A non-ok response or a throw reports its error and keeps the form. |
| `Contact.ResetBlocksResend` | src/pages/Contact.tsx:16-40 | After a successful send, the emptied form is refused until refilled. |
| `Contact.ContactPage.constructor` | src/pages/Contact.tsx:11 | The form starts with three empty fields. |
| `Contact.ContactPage.Edit` | src/pages/Contact.tsx:46-47 | The form becomes the edited form. |
| `Contact.ContactPage.Submit` | src/pages/Contact.tsx:13-44 | The request, notice and new form are those of `Submitted` on the old form. |
| `OrderFlow.PayloadOf` | src/pages/Checkout.tsx:40-49 | The function receives the page's items unchanged and the form's notes as a present string. |
| `OrderFlow.ReplyOf` | src/pages/Checkout.tsx:53 | `{url}` is read as that url. `{error}` is read as having no url. A plain-text body makes `res.json()` throw. |
| `OrderFlow.DecodeSerialized` | supabase/functions/stripe-webhook/index.ts:29-43 | Items serialized by the session function decode to the same items, image included. |
| `OrderFlow.RecordedOrderMatchesCheckout` | supabase/functions/stripe-webhook/index.ts:26-61 | For a session created from the page's request, the recorded order holds the flattened cart and the form unchanged. |
| `OrderFlow.FlatTotalOfCart` | src/pages/Checkout.tsx:41-47 | Flattening keeps Σ price×quantity equal to the store's order total. |
| `OrderFlow.RecordedTotalMatchesCart` | supabase/functions/stripe-webhook/index.ts:54 | When the processor charges the line items' amount and prices are whole cents, the recorded total equals the cart total. |
| `OrderFlow.CheckoutRedirects` | src/pages/Checkout.tsx:31-62 | A complete form always leads to a session request. A created session with a non-empty url redirects the page there. A processor error shows "Unable to start checkout.". |

## Left out

- Rendering, styling, toasts and routing. Only the messages a branch would show,
  and the page's redirect, are modelled.
- The network. Backend calls (`fetch`, session creation, email sends, the database
  insert) are parameters or effects.
  - **Database insert.** The webhook ignores the insert's result, and so does the
    model.
  - **Failed sends.** A send that reports an error without throwing is not logged
    in the source. The model's effect is the same as for a successful send.
- Floating point. Money is exact `real`, and `parseFloat` of the price box is passed
  in as a number.
  - `CheckoutSession.UnitAmountExact`: states the cent amount only for whole-cent
    prices, because the source's `Math.round(price * 100)` acts on binary floats.
  - `OrderFlow.RecordedTotalMatchesCart`: assumes the processor charges
    Σ unit_amount × quantity. That computation happens at the processor, which is
    not part of this model.
- JSON text. Serialization and parsing are represented by the values they produce.
  Members of the wrong JSON type (a string price, say) are not modelled.
- `Admin.Assign`: keeps insertion order for every key. A JavaScript object lists
  integer-like keys (such as `"2"`) first, in ascending numeric order, whenever it
  is enumerated. Lookups are unaffected; only enumeration order differs.
- `Admin.AssignKeys`: "a new key goes last" holds only for keys that are not
  integer-like. For an integer-like key, `Object.keys`/`Object.entries` put it
  among the integer keys at the front.
  - As a consequence, the line order of `Admin.FormatSpecs` differs from the
    source's for records with integer-like keys. For example, the source formats
    `{b: "1", 2: "x"}` as `2: x` then `b: 1`.
- The HTML bodies of the webhook's emails. They are string templates over float
  subtotals; only sender, recipient and subject are kept.
- Webhook event shapes other than `{type, data.object}`. A completed event without
  `data.object` would throw.
- Signature checks. The webhook does not verify the processor's signature, and
  neither does the model.
- Processor metadata limits on value length.
- Uniqueness of `Date.now()` ids. Ids and timestamps are parameters.
- The initial text of the product form's other boxes (`initial?.price?.toString()`
  and the rest). The submit takes the boxes as given; only the specs box's initial
  text is modelled.
- The cart operations (`addItem`, `updateQuantity`, `removeItem`, `total`). The cart
  context's source is not part of this model, so the cart is a given sequence.
- The wrappers that are only call-throughs: product CRUD over the database,
  authentication, storage and the contact-email function.
