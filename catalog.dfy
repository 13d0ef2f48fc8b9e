/**
 * The public catalog (public/js/products.js): each product row becomes a
 * card whose availability is derived from the row's quantity, never stored.
 */
module Catalog {
  import opened Wrappers
  import opened Js
  import opened Backend

  /** The three availability states of a product, defined independently of the card code. */
  datatype Availability = Untracked | InStock | OutOfStock

  /** The reference definition: no numeric quantity, a positive one, or a non-positive one. */
  function AvailabilityOf(p: ProductFields): Availability {
    match p.quantity
    case Num(x) => if x > 0.0 then InStock else OutOfStock
    case _ => Untracked
  }

  /** `typeof p.quantity === 'number' ? p.quantity : null`. */
  function TrackedQuantity(p: ProductFields): (q: Option<real>)
    ensures q.Some? <==> IsNumber(p.quantity)
    ensures q.Some? ==> p.quantity == Num(q.value)
  {
    if p.quantity.Num? then Some(p.quantity.x) else None
  }

  /** `qty !== null && qty <= 0`. */
  predicate IsOutOfStock(p: ProductFields): (r: bool)
    ensures r <==> AvailabilityOf(p) == OutOfStock
  {
    var q := TrackedQuantity(p);
    q.Some? && q.value <= 0.0
  }

  /** The card's out-of-stock test agrees with the availability state, and untracked is never out of stock. */
  lemma OutOfStockIff(p: ProductFields)
    ensures IsOutOfStock(p) <==> AvailabilityOf(p) == OutOfStock
    ensures AvailabilityOf(p) == Untracked <==> !IsNumber(p.quantity)
    ensures !IsNumber(p.quantity) ==> !IsOutOfStock(p)
  {
  }

  /** What a catalog card shows and how its order button behaves. */
  datatype ProductCard = ProductCard(
    title: Value,             // `p.name || 'Product'`
    price: Value,             // `p.price_per_1000 || '—'`
    initialQuantity: Value,   // `p.default_order_quantity || 1000`
    buttonLabel: string,
    buttonDisabled: bool,
    overlay: Option<string>,  // the out-of-stock notice laid over the card
    opacity: Option<string>,  // the card's reduced opacity, when set
    orderPrice: Value)        // `p.price_per_1000 || 0`, passed to the order flow

  const OutOfStockNotice := "Out of Stock, will be available soon"

  /** `createProductCard(p)`. */
  function CreateProductCard(p: Product): (c: ProductCard)
    ensures c.buttonDisabled <==> AvailabilityOf(p.fields) == OutOfStock
    ensures c.buttonLabel == (if AvailabilityOf(p.fields) == OutOfStock then "Out of Stock" else "Order Now")
    ensures c.overlay.Some? <==> AvailabilityOf(p.fields) == OutOfStock
    ensures c.opacity.Some? <==> AvailabilityOf(p.fields) == OutOfStock
    ensures Truthy(p.fields.defaultOrderQuantity) ==> c.initialQuantity == p.fields.defaultOrderQuantity
    ensures !Truthy(p.fields.defaultOrderQuantity) ==> c.initialQuantity == Num(1000.0)
    ensures Truthy(c.title)
  {
    var outOfStock := IsOutOfStock(p.fields);
    ProductCard(
      Or(p.fields.name, Str("Product")),
      Or(p.fields.pricePer1000, Str("—")),
      Or(p.fields.defaultOrderQuantity, Num(1000.0)),
      if outOfStock then "Out of Stock" else "Order Now",
      outOfStock,
      if outOfStock then Some(OutOfStockNotice) else None,
      if outOfStock then Some("0.6") else None,
      Or(p.fields.pricePer1000, Num(0.0)))
  }

  /**
   * `loadProducts()`: nothing when the container is missing, an error or
   * "no products" message, or one card per returned row in the returned
   * order.  `reply` is the result of the listing query.
   */
  method LoadProducts(containerPresent: bool, reply: Result<seq<Product>, string>)
    returns (view: Option<Container<ProductCard>>)
    ensures !containerPresent ==> view == None
    ensures containerPresent && reply.Failure? ==> view == Some(Message("Error loading catalog: " + reply.error))
    ensures containerPresent && reply == Success([]) ==> view == Some(Message("No products available."))
    ensures containerPresent && reply.Success? && reply.value != [] ==>
      && view.Some? && view.value.Items?
      && |view.value.items| == |reply.value|
      && forall i :: 0 <= i < |reply.value| ==> view.value.items[i] == CreateProductCard(reply.value[i])
  {
    if !containerPresent {
      return None;
    }
    if reply.Failure? {
      return Some(Message("Error loading catalog: " + reply.error));
    }
    var rows := reply.value;
    if |rows| == 0 {
      return Some(Message("No products available."));
    }
    var cards: seq<ProductCard> := [];
    var i := 0;
    while i < |rows|
      invariant 0 <= i <= |rows|
      invariant |cards| == i
      invariant forall k :: 0 <= k < i ==> cards[k] == CreateProductCard(rows[k])
    {
      cards := cards + [CreateProductCard(rows[i])];
      i := i + 1;
    }
    view := Some(Items(cards));
  }

  /** Setting a quantity moves the product to out-of-stock when it is at most 0 and to in-stock otherwise. */
  lemma AvailabilityAfterSetQuantity(ps: map<nat, Product>, id: nat, n: int)
    requires id in ps
    ensures AvailabilityOf(WithQuantity(ps, id, n)[id].fields) == (if n <= 0 then OutOfStock else InStock)
    ensures CreateProductCard(WithQuantity(ps, id, n)[id]).buttonDisabled <==> n <= 0
  {
  }

  /** A missing quantity key and a null quantity lead to the same card. */
  lemma UndefinedQuantityIsUntracked(p: Product)
    requires p.fields.quantity == Undefined
    ensures CreateProductCard(p) == CreateProductCard(p.(fields := p.fields.(quantity := Null)))
  {
  }
}
