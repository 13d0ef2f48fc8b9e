/**
 * The backend's `products` and `orders` tables, the account and profile
 * records the scripts read, and the table operations the scripts issue
 * (insert, update by id, delete by id, the bulk flag update and the
 * filtered select).  Every operation is atomic; the rows the backend
 * returns from a listing query are supplied to the rendering functions as
 * inputs.
 */
module Backend {
  import opened Js

  /** The columns of a `products` row (apart from its id). */
  datatype ProductFields = ProductFields(
    name: Value,
    size: Value,
    color: Value,
    thicknessMicrons: Value,
    pricePer1000: Value,
    quantity: Value,
    defaultOrderQuantity: Value)

  datatype Product = Product(id: nat, fields: ProductFields)

  /** The columns of an `orders` row (apart from its id). */
  datatype OrderFields = OrderFields(
    productId: nat,
    quantity: int,
    userId: string,
    status: Value,
    notifiedAdmins: bool,
    customerEmail: Value,
    customerPhone: Value)

  datatype Order = Order(id: nat, fields: OrderFields)

  /** The signed-in account, as the auth client reports it. */
  datatype User = User(id: string, email: Value, phone: Value)

  /** A `profiles` row. */
  datatype Profile = Profile(
    email: Value,
    phone: Value,
    isAdmin: Value,
    displayName: Value,
    fullName: Value,
    contactEmail: Value,
    contactPhone: Value)

  // ---------------------------------------------------------------------
  // What the update statements do to the tables
  // ---------------------------------------------------------------------

  /** `update({ quantity: n }).eq('id', id)`: no row matches an unknown id. */
  function WithQuantity(ps: map<nat, Product>, id: nat, n: int): (r: map<nat, Product>)
    ensures r.Keys == ps.Keys
    ensures forall k :: k in ps && k != id ==> r[k] == ps[k]
    ensures id in ps ==> r[id].id == ps[id].id && r[id].fields == ps[id].fields.(quantity := Num(n as real))
  {
    if id in ps then ps[id := ps[id].(fields := ps[id].fields.(quantity := Num(n as real)))] else ps
  }

  /** One row under `update({ notified_admins: true }).eq('notified_admins', false)`. */
  function Notify(o: Order): (r: Order)
    ensures r.fields.notifiedAdmins
    ensures r.id == o.id && r.fields.(notifiedAdmins := o.fields.notifiedAdmins) == o.fields
    ensures r != o <==> !o.fields.notifiedAdmins
  {
    if !o.fields.notifiedAdmins then o.(fields := o.fields.(notifiedAdmins := true)) else o
  }

  /** The whole table under the bulk flag update. */
  function MarkedNotified(os: seq<Order>): (r: seq<Order>)
    ensures |r| == |os|
  {
    if os == [] then [] else [Notify(os[0])] + MarkedNotified(os[1..])
  }

  lemma {:induction false} MarkedNotifiedAt(os: seq<Order>, k: nat)
    requires k < |os|
    ensures |MarkedNotified(os)| == |os| && MarkedNotified(os)[k] == Notify(os[k])
  {
    if k > 0 {
      MarkedNotifiedAt(os[1..], k - 1);
    } else if |os| > 1 {
      MarkedNotifiedAt(os[1..], 0);
    }
  }

  /** `select('id').eq('notified_admins', false)`: the ids of the unnotified orders, in table order. */
  function UnnotifiedIds(os: seq<Order>): (r: seq<nat>)
    ensures |r| <= |os|
  {
    if os == [] then []
    else UnnotifiedIds(os[..|os| - 1]) + (if os[|os| - 1].fields.notifiedAdmins then [] else [os[|os| - 1].id])
  }

  /** Appending a row adds its id to the selection exactly when the row is unnotified. */
  lemma UnnotifiedIdsAppend(os: seq<Order>, o: Order)
    ensures UnnotifiedIds(os + [o]) == UnnotifiedIds(os) + (if o.fields.notifiedAdmins then [] else [o.id])
  {
    assert (os + [o])[..|os + [o]| - 1] == os;
  }

  /** An id is selected exactly when some unnotified order has it. */
  lemma {:induction false} UnnotifiedIdsMembers(os: seq<Order>, id: nat)
    ensures id in UnnotifiedIds(os) <==> exists k :: 0 <= k < |os| && os[k].id == id && !os[k].fields.notifiedAdmins
  {
    if os != [] {
      var init := os[..|os| - 1];
      UnnotifiedIdsMembers(init, id);
      if exists k :: 0 <= k < |os| && os[k].id == id && !os[k].fields.notifiedAdmins {
        var k :| 0 <= k < |os| && os[k].id == id && !os[k].fields.notifiedAdmins;
        if k < |os| - 1 {
          assert init[k] == os[k];
        }
      }
      forall k | 0 <= k < |init| && init[k].id == id && !init[k].fields.notifiedAdmins
        ensures 0 <= k < |os| && os[k].id == id && !os[k].fields.notifiedAdmins
      {
        assert init[k] == os[k];
      }
    }
  }

  /** The positions of the unnotified orders: the reference for the badge count. */
  ghost function UnnotifiedPositions(os: seq<Order>): set<int> {
    set k | 0 <= k < |os| && !os[k].fields.notifiedAdmins
  }

  /** The selection has one id per unnotified order. */
  lemma {:induction false} UnnotifiedCount(os: seq<Order>)
    ensures |UnnotifiedIds(os)| == |UnnotifiedPositions(os)|
  {
    if os != [] {
      var init := os[..|os| - 1];
      var last := |os| - 1;
      UnnotifiedCount(init);
      assert forall k :: 0 <= k < |init| ==> init[k] == os[k];
      assert last !in UnnotifiedPositions(init);
      assert UnnotifiedPositions(os) ==
        UnnotifiedPositions(init) + (if os[last].fields.notifiedAdmins then {} else {last});
    }
  }

  /** No id is selected exactly when every order is already notified. */
  lemma {:induction false} UnnotifiedIdsEmptyIff(os: seq<Order>)
    ensures UnnotifiedIds(os) == [] <==> forall k :: 0 <= k < |os| ==> os[k].fields.notifiedAdmins
  {
    if os != [] {
      var init := os[..|os| - 1];
      UnnotifiedIdsEmptyIff(init);
      assert forall k :: 0 <= k < |init| ==> init[k] == os[k];
    }
  }

  /**
   * The backend tables.  Ids are handed out by counters that start at 1,
   * as the backend's identity columns do; order ids grow with insertion.
   */
  class Tables {
    var products: map<nat, Product>
    var orders: seq<Order>
    var nextProductId: nat
    var nextOrderId: nat

    ghost predicate Valid()
      reads this
    {
      && 1 <= nextProductId
      && (forall k :: k in products ==> 1 <= k < nextProductId && products[k].id == k)
      && (forall i :: 0 <= i < |orders| ==> orders[i].id < nextOrderId)
      && (forall i, j :: 0 <= i < j < |orders| ==> orders[i].id < orders[j].id)
    }

    constructor ()
      ensures Valid() && products == map[] && orders == []
    {
      products := map[];
      orders := [];
      nextProductId := 1;
      nextOrderId := 1;
    }

    /** `from('orders').insert([row])`: the row is appended under a new id. */
    method InsertOrder(row: OrderFields) returns (id: nat)
      requires Valid()
      modifies this
      ensures Valid()
      ensures orders == old(orders) + [Order(id, row)]
      ensures forall i :: 0 <= i < |old(orders)| ==> old(orders)[i].id != id
      ensures products == old(products) && nextProductId == old(nextProductId)
    {
      id := nextOrderId;
      orders := orders + [Order(id, row)];
      nextOrderId := nextOrderId + 1;
    }

    /** `from('products').insert([row])`: a new row under an unused id. */
    method InsertProduct(row: ProductFields) returns (id: nat)
      requires Valid()
      modifies this
      ensures Valid()
      ensures id >= 1 && id !in old(products)
      ensures products == old(products)[id := Product(id, row)]
      ensures orders == old(orders) && nextOrderId == old(nextOrderId)
    {
      id := nextProductId;
      products := products[id := Product(id, row)];
      nextProductId := nextProductId + 1;
    }

    /** `from('products').update({ quantity: n }).eq('id', id)`. */
    method UpdateQuantity(id: nat, n: int)
      requires Valid()
      modifies this
      ensures Valid()
      ensures products == WithQuantity(old(products), id, n)
      ensures orders == old(orders)
      ensures nextProductId == old(nextProductId) && nextOrderId == old(nextOrderId)
    {
      products := WithQuantity(products, id, n);
    }

    /** `from('products').delete().eq('id', id)`; orders that refer to the row stay. */
    method DeleteProduct(id: nat)
      requires Valid()
      modifies this
      ensures Valid()
      ensures products == old(products) - {id}
      ensures orders == old(orders)
      ensures nextProductId == old(nextProductId) && nextOrderId == old(nextOrderId)
    {
      products := products - {id};
    }

    /** `from('orders').update({ notified_admins: true }).eq('notified_admins', false)`, row by row. */
    method MarkUnnotified()
      requires Valid()
      modifies this
      ensures Valid()
      ensures orders == MarkedNotified(old(orders))
      ensures products == old(products)
      ensures nextProductId == old(nextProductId) && nextOrderId == old(nextOrderId)
    {
      var i := 0;
      while i < |orders|
        invariant 0 <= i <= |orders| == |old(orders)|
        invariant forall k :: 0 <= k < i ==> orders[k] == Notify(old(orders)[k])
        invariant forall k :: i <= k < |orders| ==> orders[k] == old(orders)[k]
        invariant products == old(products)
        invariant nextProductId == old(nextProductId) && nextOrderId == old(nextOrderId)
      {
        if !orders[i].fields.notifiedAdmins {
          orders := orders[i := orders[i].(fields := orders[i].fields.(notifiedAdmins := true))];
        }
        i := i + 1;
      }
      ghost var was := old(orders);
      forall k | 0 <= k < |orders| ensures |MarkedNotified(was)| == |orders| && MarkedNotified(was)[k] == orders[k] {
        MarkedNotifiedAt(was, k);
      }
      if orders == [] {
        assert was == [];
      }
    }

    /** `from('orders').select('id').eq('notified_admins', false)`. */
    method SelectUnnotifiedIds() returns (ids: seq<nat>)
      ensures ids == UnnotifiedIds(orders)
    {
      ids := [];
      var i := 0;
      while i < |orders|
        invariant 0 <= i <= |orders|
        invariant ids == UnnotifiedIds(orders[..i])
      {
        assert orders[..i + 1][..i] == orders[..i];
        if !orders[i].fields.notifiedAdmins {
          ids := ids + [orders[i].id];
        }
        i := i + 1;
      }
      assert orders[..i] == orders;
    }
  }
}
