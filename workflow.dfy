/**
 * How the pieces fit together: an order placed by a buyer shows up in the
 * admin listing as pending with the buyer's snapshot contacts, and raises
 * the new-orders badge until the admin marks it notified.
 */
module Workflow {
  import opened Wrappers
  import opened Js
  import opened Backend
  import Catalog
  import Ordering
  import Admin

  /** A freshly placed order lists as "pending", with contact buttons exactly for the non-empty snapshot fields. */
  lemma PlacedOrderListing(id: nat, productId: nat, qty: int, user: User, profile: Option<Profile>, prodMap: map<nat, Product>)
    ensures var c := Admin.OrderCardOf(Order(id, Ordering.OrderPayload(productId, qty, user, profile)), prodMap);
      && c.status == Str("pending")
      && c.quantity == qty && c.userId == user.id && c.orderId == id
      && (c.emailButton.Some? <==> Truthy(Ordering.ProfileEmail(profile)) || Truthy(user.email))
      && (c.callButton.Some? <==> Truthy(Ordering.ProfilePhone(profile)) || Truthy(user.phone))
      && (c.noContactNote <==>
            !Truthy(Ordering.ProfileEmail(profile)) && !Truthy(user.email) &&
            !Truthy(Ordering.ProfilePhone(profile)) && !Truthy(user.phone))
  {
  }

  /** A placed order is among the unnotified ones, so the badge is shown afterwards. */
  lemma PlacedOrderRaisesBadge(os: seq<Order>, id: nat, productId: nat, qty: int, user: User, profile: Option<Profile>)
    ensures var o := Order(id, Ordering.OrderPayload(productId, qty, user, profile));
      && UnnotifiedIds(os + [o]) == UnnotifiedIds(os) + [id]
      && Admin.BarFor(|UnnotifiedIds(os + [o])|).Shown?
  {
    UnnotifiedIdsAppend(os, Order(id, Ordering.OrderPayload(productId, qty, user, profile)));
  }

  /** A form the scenarios below can be run with: 500 bags at 100 per thousand. */
  function BagForm(): Admin.ProductForm {
    Admin.ProductForm("Bag", "M", "Black", Some(50), Some(100.0), Some(500))
  }

  /** The bag form passes the add-product check, so it meets the scenarios' precondition. */
  lemma BagFormAccepted()
    ensures !Admin.AddProductRejected(BagForm()) && BagForm().quantity == Some(500)
  {
  }

  /** Submits an accepted form with a quantity through the add-product handler: a new row holding that quantity. */
  method Stock(db: Tables, f: Admin.ProductForm) returns (pid: nat)
    requires db.Valid()
    requires !Admin.AddProductRejected(f) && f.quantity.Some?
    modifies db
    ensures db.Valid()
    ensures db.orders == old(db.orders)
    ensures pid !in old(db.products) && db.products.Keys == old(db.products).Keys + {pid}
    ensures forall k :: k in old(db.products) ==> db.products[k] == old(db.products)[k]
    ensures db.products[pid].id == pid && db.products[pid].fields.quantity == Num(f.quantity.value as real)
  {
    var added := Admin.AddProduct(db, f, true);
    pid := added.id;
  }

  /**
   * A client of the order handler: against a product with 500 units on
   * hand, an order of 200 is accepted, pending and unnotified.
   */
  method PlaceOrderScenario(f: Admin.ProductForm)
    requires !Admin.AddProductRejected(f) && f.quantity == Some(500)
  {
    var db := new Tables();
    var pid := Stock(db, f);

    var user := User("U1", Str("buyer@example.com"), Undefined);
    var first := Ordering.InitiateOrder(db, pid, Some(user), Entered(Some(200)), true, None, true);
    assert first.Placed?;
    assert first.order.fields.quantity == 200 && first.order.fields.status == Str("pending");
    assert !first.order.fields.notifiedAdmins && |db.orders| == 1;
  }

  /** A request without a signed-in user is refused and writes nothing. */
  method SignedOutScenario(f: Admin.ProductForm)
    requires !Admin.AddProductRejected(f) && f.quantity == Some(500)
  {
    var db := new Tables();
    var pid := Stock(db, f);
    var refused := Ordering.InitiateOrder(db, pid, None, Entered(Some(200)), true, None, true);
    assert refused == Ordering.Rejected(Ordering.SignInRequired) && db.orders == [];
  }

  /** Stock is not checked: an order of 9999 against 500 units on hand is placed all the same. */
  method OverStockScenario(f: Admin.ProductForm)
    requires !Admin.AddProductRejected(f) && f.quantity == Some(500)
  {
    var db := new Tables();
    var pid := Stock(db, f);
    assert db.products[pid].fields.quantity == Num(500.0);
    var user := User("U1", Str("buyer@example.com"), Undefined);
    var placed := Ordering.InitiateOrder(db, pid, Some(user), Entered(Some(9999)), true, None, true);
    assert placed.Placed? && placed.order.fields.quantity == 9999 && |db.orders| == 1;
  }

  /**
   * A client of the order handler and the admin badge: the placed order
   * keeps the account's email and a null phone, raises the badge, and the
   * bulk update clicked twice leaves the same orders as clicking once.
   */
  method BadgeScenario() {
    var db := new Tables();
    var user := User("U1", Str("buyer@example.com"), Undefined);
    var placed := Ordering.InitiateOrder(db, 1, Some(user), Entered(Some(200)), true, None, true);
    assert placed.order.fields.customerEmail == Str("buyer@example.com") && placed.order.fields.customerPhone == Null;

    var bar := Admin.RefreshNewOrdersCount(db, true);
    assert !db.orders[0].fields.notifiedAdmins;
    assert bar.Some? && bar.value.Shown?;

    ghost var beforeMark := db.orders;
    bar := Admin.MarkNotified(db, true);
    assert bar == Some(Admin.Hidden);
    ghost var afterFirst := db.orders;
    bar := Admin.MarkNotified(db, true);
    Admin.MarkTwiceIsMarkOnce(beforeMark);
    assert db.orders == afterFirst;
  }

  /**
   * A client of the inventory handlers: after setting a product's
   * quantity to 0 it is out of stock; after setting it to 5 it is in stock.
   */
  method InventoryScenario(f: Admin.ProductForm)
    requires !Admin.AddProductRejected(f) && f.quantity == Some(500)
  {
    var db := new Tables();
    var pid := Stock(db, f);
    assert Catalog.AvailabilityOf(db.products[pid].fields) == Catalog.InStock;

    ghost var before := db.products;
    var upd := Admin.UpdateProductQuantity(db, pid, Entered(Some(0)), true);
    Catalog.AvailabilityAfterSetQuantity(before, pid, 0);
    assert Catalog.AvailabilityOf(db.products[pid].fields) == Catalog.OutOfStock;
    before := db.products;
    upd := Admin.UpdateProductQuantity(db, pid, Entered(Some(5)), true);
    Catalog.AvailabilityAfterSetQuantity(before, pid, 5);
    assert Catalog.AvailabilityOf(db.products[pid].fields) == Catalog.InStock;

    var gone := Admin.DeleteProduct(db, pid, true, true);
    assert pid !in db.products;
  }
}
