/** The catalogue/order store of src/context/StoreContext.tsx: two state cells,
    the product list and the order list, each replaced wholesale by every
    operation.  Ids and timestamps (`Date.now()`, `new Date().toISOString()`)
    are passed in. */
module StoreContext {
  import opened Types
  import JsArray
  import Data

  /** `{ ...p, ...updates }`: every key present in the patch wins, the rest stay. */
  function Merge(p: Product, u: ProductPatch): Product {
    Product(
      u.id.GetOr(p.id), u.name.GetOr(p.name), u.price.GetOr(p.price), u.image.GetOr(p.image),
      u.category.GetOr(p.category), u.description.GetOr(p.description), u.specs.GetOr(p.specs),
      u.featured.GetOr(p.featured), u.createdAt.GetOr(p.createdAt))
  }

  /** The patch with no keys at all. */
  const NoChanges := ProductPatch(None, None, None, None, None, None, None, None, None)

  /** An empty patch changes nothing, applying a patch twice is applying it once. */
  lemma MergeLaws(p: Product, u: ProductPatch)
    ensures Merge(p, NoChanges) == p
    ensures Merge(Merge(p, u), u) == Merge(p, u)
    ensures u.id.None? ==> Merge(p, u).id == p.id
  {
  }

  /** `prev.map(p => p.id === id ? { ...p, ...updates } : p)` */
  function UpdateProducts(ps: seq<Product>, id: string, updates: ProductPatch): (r: seq<Product>)
    ensures |r| == |ps|
    ensures forall i :: 0 <= i < |ps| && ps[i].id != id ==> r[i] == ps[i]
    ensures forall i :: 0 <= i < |ps| && ps[i].id == id ==> r[i] == Merge(ps[i], updates)
  {
    JsArray.Map(ps, (p: Product) => if p.id == id then Merge(p, updates) else p)
  }

  /** Updating an id that no product carries leaves the list as it was. */
  lemma UpdateUnknownProduct(ps: seq<Product>, id: string, updates: ProductPatch)
    requires forall i :: 0 <= i < |ps| ==> ps[i].id != id
    ensures UpdateProducts(ps, id, updates) == ps
  {
  }

  /** `prev.filter(p => p.id !== id)` */
  function DeleteProducts(ps: seq<Product>, id: string): (r: seq<Product>)
    ensures forall i :: 0 <= i < |r| ==> r[i].id != id && r[i] in ps
    ensures forall i :: 0 <= i < |ps| && ps[i].id != id ==> ps[i] in r
    ensures forall p :: multiset(r)[p] == if p.id != id then multiset(ps)[p] else 0
  {
    JsArray.Filter(ps, (p: Product) => p.id != id)
  }

  /** Deleting keeps the survivors in order, and deleting twice is deleting once. */
  lemma DeleteLaws(a: seq<Product>, b: seq<Product>, id: string)
    ensures DeleteProducts(a + b, id) == DeleteProducts(a, id) + DeleteProducts(b, id)
    ensures DeleteProducts(DeleteProducts(a, id), id) == DeleteProducts(a, id)
  {
    JsArray.FilterConcat(a, b, (p: Product) => p.id != id);
    JsArray.FilterIdempotent(a, (p: Product) => p.id != id);
  }

  /** Deleting an id that no product carries leaves the list as it was. */
  lemma DeleteUnknownProduct(ps: seq<Product>, id: string)
    requires forall i :: 0 <= i < |ps| ==> ps[i].id != id
    ensures DeleteProducts(ps, id) == ps
  {
    JsArray.FilterKeepsAll(ps, (p: Product) => p.id != id);
  }

  /** Deleting the id just added undoes the addition (and removes any older
      product that shared the id). */
  lemma DeleteUndoesAdd(ps: seq<Product>, product: ProductDraft, id: string)
    ensures DeleteProducts(ps + [product.WithId(id)], id) == DeleteProducts(ps, id)
  {
    JsArray.FilterConcat(ps, [product.WithId(id)], (p: Product) => p.id != id);
  }

  /** The value of one cart line, `i.product.price * i.quantity`. */
  function LineTotal(i: CartItem): real {
    i.product.price * i.quantity as real
  }

  /** `items.reduce((sum, i) => sum + i.product.price * i.quantity, 0)`,
      folded from the left as `reduce` does. */
  function OrderTotal(items: seq<CartItem>): real {
    if |items| == 0 then 0.0
    else OrderTotal(items[..|items| - 1]) + LineTotal(items[|items| - 1])
  }

  /** The total is a sum: it adds up over any split of the items. */
  lemma {:induction false} OrderTotalConcat(a: seq<CartItem>, b: seq<CartItem>)
    ensures OrderTotal(a + b) == OrderTotal(a) + OrderTotal(b)
  {
    if |b| > 0 {
      assert (a + b)[..|a + b| - 1] == a + b[..|b| - 1];
      OrderTotalConcat(a, b[..|b| - 1]);
    } else {
      assert a + b == a;
    }
  }

  /** With non-negative prices and quantities the total is never negative. */
  lemma {:induction false} OrderTotalNonNegative(items: seq<CartItem>)
    requires forall i :: 0 <= i < |items| ==> items[i].product.price >= 0.0 && items[i].quantity >= 0
    ensures OrderTotal(items) >= 0.0
  {
    if |items| > 0 {
      OrderTotalNonNegative(items[..|items| - 1]);
    }
  }

  /** The order `placeOrder` builds: status pending, total over its items. */
  function NewOrder(items: seq<CartItem>, customer: CustomerInfo, id: string, createdAt: string): Order {
    Order(id, items, customer, OrderTotal(items), Pending, createdAt)
  }

  /** `prev.map(o => o.id === id ? { ...o, status } : o)` */
  function UpdateStatuses(os: seq<Order>, id: string, status: Status): (r: seq<Order>)
    ensures |r| == |os|
    ensures forall i :: 0 <= i < |os| && os[i].id != id ==> r[i] == os[i]
    ensures forall i :: 0 <= i < |os| && os[i].id == id ==> r[i] == os[i].(status := status)
  {
    JsArray.Map(os, (o: Order) => if o.id == id then o.(status := status) else o)
  }

  /** Updating an id that no order carries leaves the list as it was. */
  lemma UpdateUnknownOrder(os: seq<Order>, id: string, status: Status)
    requires forall i :: 0 <= i < |os| ==> os[i].id != id
    ensures UpdateStatuses(os, id, status) == os
  {
  }

  /** The store moves a status anywhere, backwards included: a fulfilled
      order can be put back to pending. */
  lemma StoreAcceptsAnyStatus(o: Order, status: Status)
    ensures UpdateStatuses([o], o.id, status) == [o.(status := status)]
  {
  }

  class Store {
    var products: seq<Product>
    var orders: seq<Order>

    /** `useState(initialProducts)` and `useState([])` */
    constructor ()
      ensures products == Data.InitialProducts && orders == []
    {
      products := Data.InitialProducts;
      orders := [];
    }

    /** `addProduct`: appends one product carrying the supplied id. */
    method AddProduct(product: ProductDraft, id: string)
      modifies this
      ensures products == old(products) + [product.WithId(id)]
      ensures orders == old(orders)
    {
      products := products + [product.WithId(id)];
    }

    method UpdateProduct(id: string, updates: ProductPatch)
      modifies this
      ensures products == UpdateProducts(old(products), id, updates)
      ensures orders == old(orders)
    {
      products := UpdateProducts(products, id, updates);
    }

    method DeleteProduct(id: string)
      modifies this
      ensures products == DeleteProducts(old(products), id)
      ensures orders == old(orders)
    {
      products := DeleteProducts(products, id);
    }

    /** `placeOrder`: appends one pending order; `id` and `createdAt` stand
        for the clock readings the source takes. */
    method PlaceOrder(items: seq<CartItem>, customer: CustomerInfo, id: string, createdAt: string)
      modifies this
      ensures orders == old(orders) + [NewOrder(items, customer, id, createdAt)]
      ensures orders[|orders| - 1].status == Pending
      ensures orders[|orders| - 1].total == OrderTotal(items)
      ensures products == old(products)
    {
      orders := orders + [NewOrder(items, customer, id, createdAt)];
    }

    method UpdateOrderStatus(id: string, status: Status)
      modifies this
      ensures orders == UpdateStatuses(old(orders), id, status)
      ensures products == old(products)
    {
      orders := UpdateStatuses(orders, id, status);
    }
  }
}
