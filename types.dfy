/** Data shapes shared by the storefront: the records of src/lib/types.ts, the
    flattened line item the checkout page sends and the webhook stores, and a
    minimal HTTP response.  Money is an exact `real` number of dollars; amounts
    that the payment processor reports are integers in cents. */
module Types {

  datatype Option<+T> = None | Some(value: T) {
    /** The `??` operator: the held value, or `default` when absent. */
    function GetOr(default: T): T {
      match this
      case Some(v) => v
      case None => default
    }
  }

  /** A `Record<string, string>`, as the list of its entries in insertion order. */
  type Specs = seq<(string, string)>

  datatype Product = Product(
    id: string,
    name: string,
    price: real,
    image: Option<string>,
    category: string,
    description: Option<string>,
    specs: Specs,
    featured: bool,
    createdAt: Option<string>)

  /** `Omit<Product, 'id'>`: what the admin form produces and `addProduct` takes. */
  datatype ProductDraft = ProductDraft(
    name: string,
    price: real,
    image: Option<string>,
    category: string,
    description: Option<string>,
    specs: Specs,
    featured: bool,
    createdAt: Option<string>)
  {
    /** `{ ...draft, id }` */
    function WithId(id: string): (p: Product) {
      Product(id, name, price, image, category, description, specs, featured, createdAt)
    }
  }

  /** `Partial<Product>`: `None` means the key is absent.  For the optional
      fields a present key may hold `undefined`, hence the nested option. */
  datatype ProductPatch = ProductPatch(
    id: Option<string>,
    name: Option<string>,
    price: Option<real>,
    image: Option<Option<string>>,
    category: Option<string>,
    description: Option<Option<string>>,
    specs: Option<Specs>,
    featured: Option<bool>,
    createdAt: Option<Option<string>>)

  datatype CartItem = CartItem(product: Product, quantity: int)

  datatype Status = Pending | Processing | Fulfilled

  datatype CustomerInfo = CustomerInfo(
    name: string, email: string, phone: string, address: string, notes: string)

  /** An order as the in-memory store keeps it: its items are the cart items
      themselves, although types.ts declares them as `OrderItem[]`. */
  datatype Order = Order(
    id: string,
    items: seq<CartItem>,
    customer: CustomerInfo,
    total: real,
    status: Status,
    createdAt: string)

  /** `{ id, name, price, quantity, image }`: the flattened item built by the
      checkout page and by the webhook; `image` may be undefined. */
  datatype FlatItem = FlatItem(
    id: string, name: string, price: real, quantity: int, image: Option<string>)

  /** What the checkout-session function gives the payment processor as
      `metadata`, and what the webhook reads back from the completed session.
      `None` is a key that is missing (or null); `items` stands for the JSON
      text by what `JSON.parse` makes of it. */
  datatype SessionMetadata = SessionMetadata(
    customerName: Option<string>,
    customerEmail: Option<string>,
    customerPhone: Option<string>,
    customerAddress: Option<string>,
    customerNotes: Option<string>,
    items: ItemsText)

  /** `metadata.items`: missing or the empty string, text that is not JSON,
      JSON that is not an array, or an array of entries. */
  datatype ItemsText = NoItems | Unparsable | NotAList | Items(entries: seq<RawItem>)

  /** One element of the parsed array: JSON `null`, or a value whose members
      `id`, `name`, `price`, `quantity` and `image` may each be missing or
      null (`None`).  A number or a string has none of them. */
  datatype RawItem =
    | NullItem
    | RawEntry(id: Option<string>, name: Option<string>, price: Option<real>,
               quantity: Option<int>, image: Option<string>)

  /** A value, or the message of the error thrown instead. */
  datatype Result<+T> = Ok(value: T) | Err(message: string)

  /** A response body: plain text, `{ url }` (`None` when the url is null) or `{ error }`. */
  datatype Body = Text(text: string) | UrlJson(url: Option<string>) | ErrorJson(message: string)

  datatype HttpResponse = HttpResponse(status: int, body: Body, headers: seq<(string, string)>)
}
