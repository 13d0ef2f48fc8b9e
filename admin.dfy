/**
 * The admin dashboard (public/js/admin.js): who may see it, how the
 * inventory and the order listing are rendered, the add / update / delete
 * product handlers, and the new-orders badge with its "mark notified" button.
 */
module Admin {
  import opened Wrappers
  import opened Js
  import opened Backend
  import opened Catalog

  // ---------------------------------------------------------------------
  // Access
  // ---------------------------------------------------------------------

  /**
   * `isUserAdmin(user)`: `Boolean(user.email && user.email.includes('admin'))`.
   * An email that is truthy but not a string would make `includes` throw;
   * the auth client only reports strings, and such a value is treated as
   * not granting access here.
   */
  predicate IsUserAdmin(user: Option<User>): (r: bool)
    ensures user.None? ==> !r
    ensures r ==> user.value.email.Str? && |user.value.email.s| >= |"admin"|
    ensures (&& user.Some? && user.value.email.Str? && |user.value.email.s| >= |"admin"|
             && user.value.email.s[|user.value.email.s| - |"admin"|..] == "admin") ==> r
  {
    user.Some? && Truthy(user.value.email) && user.value.email.Str? && Includes(user.value.email.s, "admin")
  }

  /** The email heuristic: a null user never passes; otherwise the email must contain "admin" (so it is non-empty). */
  lemma IsUserAdminIff(user: Option<User>)
    ensures IsUserAdmin(user) <==>
      user.Some? && user.value.email.Str? && exists i :: OccursAt(user.value.email.s, "admin", i)
    ensures IsUserAdmin(user) ==> user.value.email.s != ""
  {
    if user.Some? && user.value.email.Str? {
      IncludesIff(user.value.email.s, "admin");
    }
  }

  /** The profile flag counts only when it is strictly `true`. */
  predicate HasAdminFlag(profile: Option<Profile>) {
    profile.Some? && profile.value.isAdmin == Bool(true)
  }

  datatype ContactForm = ContactForm(displayName: Value, contactEmail: Value, contactPhone: Value)

  datatype AdminScreen = SignInForm | AccessDenied | Dashboard(form: Option<ContactForm>)

  /** The admin's own contact form, prefilled from the profile row. */
  function ContactFormOf(p: Profile): (f: ContactForm)
    ensures f.displayName == FirstTruthy(p.displayName, p.fullName, Str(""))
    ensures f.contactEmail == FirstTruthy(p.contactEmail, p.email, Str(""))
    ensures f.contactPhone == FirstTruthy(p.contactPhone, p.phone, Str(""))
  {
    ContactForm(
      Or(Or(p.displayName, p.fullName), Str("")),
      Or(Or(p.contactEmail, p.email), Str("")),
      Or(Or(p.contactPhone, p.phone), Str("")))
  }

  /**
   * `checkAdmin()`: the sign-in form without a session and a user; the
   * dashboard when the profile flag is strictly `true` or the email rule
   * holds; access denied otherwise (the delayed sign-out is not modelled).
   */
  function CheckAdmin(hasSession: bool, user: Option<User>, profile: Option<Profile>): (s: AdminScreen)
    ensures !(hasSession && user.Some?) <==> s == SignInForm
    ensures s.Dashboard? <==> (
      && hasSession && user.Some?
      && ((profile.Some? && profile.value.isAdmin == Bool(true)) ||
          (user.value.email.Str? && exists i :: OccursAt(user.value.email.s, "admin", i))))
    ensures s.Dashboard? ==> (s.form.Some? <==> profile.Some?)
  {
    IsUserAdminIff(user);
    if !(hasSession && user.Some?) then SignInForm
    else if HasAdminFlag(profile) || IsUserAdmin(user) then
      Dashboard(if profile.Some? then Some(ContactFormOf(profile.value)) else None)
    else AccessDenied
  }

  /** A profile flag that is merely truthy (`"true"`, `1`) does not open the dashboard for a non-admin email. */
  lemma TruthyFlagIsNotEnough(user: User, profile: Profile)
    requires profile.isAdmin != Bool(true)
    requires !IsUserAdmin(Some(user))
    ensures CheckAdmin(true, Some(user), Some(profile)) == AccessDenied
  {
    IsUserAdminIff(Some(user));
  }

  // ---------------------------------------------------------------------
  // Inventory listing
  // ---------------------------------------------------------------------

  datatype InventoryCard = InventoryCard(
    id: nat,
    title: Value,
    quantityShown: Value,  // `qty === null ? '—' : qty`
    inputSeed: real,       // `qty === null ? 0 : qty`
    outOfStock: bool,
    notice: Option<string>,
    opacity: Option<string>)

  /** One card of the admin inventory; its out-of-stock rule is the catalog's. */
  function InventoryCardOf(p: Product): (c: InventoryCard)
    ensures c.outOfStock <==> AvailabilityOf(p.fields) == OutOfStock
    ensures c.outOfStock <==> CreateProductCard(p).buttonDisabled
    ensures c.notice.Some? <==> c.outOfStock
    ensures c.opacity.Some? <==> c.outOfStock
    ensures !IsNumber(p.fields.quantity) ==> c.quantityShown == Str("—") && c.inputSeed == 0.0
    ensures IsNumber(p.fields.quantity) ==> c.quantityShown == p.fields.quantity && c.inputSeed == p.fields.quantity.x
  {
    OutOfStockIff(p.fields);
    var qty := TrackedQuantity(p.fields);
    var outOfStock := IsOutOfStock(p.fields);
    InventoryCard(
      p.id,
      p.fields.name,
      if qty.None? then Str("—") else Num(qty.value),
      if qty.None? then 0.0 else qty.value,
      outOfStock,
      if outOfStock then Some(OutOfStockNotice) else None,
      if outOfStock then Some("0.6") else None)
  }

  /** The dashboard's `loadProducts()`. */
  method LoadInventory(containerPresent: bool, reply: Result<seq<Product>, string>)
    returns (view: Option<Container<InventoryCard>>)
    ensures !containerPresent ==> view == None
    ensures containerPresent && reply.Failure? ==> view == Some(Message("Error loading products: " + reply.error))
    ensures containerPresent && reply == Success([]) ==> view == Some(Message("No products found."))
    ensures containerPresent && reply.Success? && reply.value != [] ==>
      && view.Some? && view.value.Items?
      && |view.value.items| == |reply.value|
      && forall i :: 0 <= i < |reply.value| ==> view.value.items[i] == InventoryCardOf(reply.value[i])
  {
    if !containerPresent {
      return None;
    }
    if reply.Failure? {
      return Some(Message("Error loading products: " + reply.error));
    }
    var rows := reply.value;
    if |rows| == 0 {
      return Some(Message("No products found."));
    }
    var cards: seq<InventoryCard> := [];
    var i := 0;
    while i < |rows|
      invariant 0 <= i <= |rows|
      invariant |cards| == i
      invariant forall k :: 0 <= k < i ==> cards[k] == InventoryCardOf(rows[k])
    {
      cards := cards + [InventoryCardOf(rows[i])];
      i := i + 1;
    }
    view := Some(Items(cards));
  }

  // ---------------------------------------------------------------------
  // Order listing
  // ---------------------------------------------------------------------

  /** `new Map(products.map(p => [p.id, p]))`: a later row with the same id replaces an earlier one. */
  function ProductIndex(rows: seq<Product>): (m: map<nat, Product>)
    ensures forall k :: k in m ==> m[k].id == k
    ensures forall i :: 0 <= i < |rows| ==> rows[i].id in m
  {
    if rows == [] then map[]
    else ProductIndex(rows[..|rows| - 1])[rows[|rows| - 1].id := rows[|rows| - 1]]
  }

  /** An id is in the index exactly when some row has it, and it maps to the last such row. */
  lemma {:induction false} ProductIndexLookup(rows: seq<Product>, id: nat)
    ensures id in ProductIndex(rows) <==> exists k :: 0 <= k < |rows| && rows[k].id == id
    ensures id in ProductIndex(rows) ==>
      exists k :: 0 <= k < |rows| && rows[k].id == id && ProductIndex(rows)[id] == rows[k] &&
        forall j :: k < j < |rows| ==> rows[j].id != id
  {
    if rows != [] {
      var init := rows[..|rows| - 1];
      var last := |rows| - 1;
      ProductIndexLookup(init, id);
      assert forall k :: 0 <= k < |init| ==> init[k] == rows[k];
      var m := ProductIndex(rows);
      assert m == ProductIndex(init)[rows[last].id := rows[last]];
      if rows[last].id == id {
        assert m[id] == rows[last];
      } else if id in ProductIndex(init) {
        var k :| 0 <= k < |init| && init[k].id == id && ProductIndex(init)[id] == init[k] &&
          forall j :: k < j < |init| ==> init[j].id != id;
        assert 0 <= k < |rows| && rows[k].id == id && m[id] == rows[k] &&
          forall j :: k < j < |rows| ==> rows[j].id != id;
      } else {
        assert id !in m;
        forall k | 0 <= k < |rows| ensures rows[k].id != id {
          if k < last {
            assert init[k] == rows[k];
          }
        }
      }
    }
  }

  /** The rows list exactly the products of `ps`: each row is the stored product under its id, and every stored product has a row. */
  ghost predicate ListsExactly(rows: seq<Product>, ps: map<nat, Product>) {
    && (forall i :: 0 <= i < |rows| ==> rows[i].id in ps && ps[rows[i].id] == rows[i])
    && (forall k :: k in ps ==> exists i :: 0 <= i < |rows| && rows[i].id == k)
  }

  /** Rows that list exactly the table's products index back to the table. */
  lemma ProductIndexOfTable(rows: seq<Product>, ps: map<nat, Product>)
    requires ListsExactly(rows, ps)
    ensures ProductIndex(rows) == ps
  {
    forall k: nat ensures k in ProductIndex(rows) <==> k in ps {
      ProductIndexLookup(rows, k);
    }
    assert ProductIndex(rows).Keys == ps.Keys;
    forall k | k in ps ensures ProductIndex(rows)[k] == ps[k] {
      ProductIndexLookup(rows, k);
    }
  }

  const NoContactNote := "No buyer contact on record"

  datatype OrderCard = OrderCard(
    title: Value,
    quantity: int,
    status: Value,
    userId: string,
    orderId: nat,
    emailButton: Option<Value>,  // the address behind "Email Buyer", when the button is shown
    callButton: Option<Value>,   // the number behind "Call Buyer", when the button is shown
    noContactNote: bool)

  /** The label used for an order whose product is not (or no longer) in the catalog. */
  function FallbackTitle(productId: nat): (r: string)
    ensures |r| > |"Product ID: "| && r[..|"Product ID: "|] == "Product ID: "
    ensures var digits := r[|"Product ID: "|..];
      (forall i :: 0 <= i < |digits| ==> IsDigit(digits[i])) && DecimalValue(digits) == productId
  {
    DecimalRoundTrip(productId);
    assert ("Product ID: " + Decimal(productId))[|"Product ID: "|..] == Decimal(productId);
    "Product ID: " + Decimal(productId)
  }

  /** Different missing products get different fallback labels. */
  lemma FallbackTitlesDistinct(a: nat, b: nat)
    requires a != b
    ensures FallbackTitle(a) != FallbackTitle(b)
  {
    DecimalInjective(a, b);
    var prefix := "Product ID: ";
    assert FallbackTitle(a)[|prefix|..] == Decimal(a);
    assert FallbackTitle(b)[|prefix|..] == Decimal(b);
  }

  /** One entry of the admin order listing. */
  function OrderCardOf(o: Order, prodMap: map<nat, Product>): (c: OrderCard)
    ensures o.fields.productId in prodMap ==> c.title == prodMap[o.fields.productId].fields.name
    ensures o.fields.productId !in prodMap ==> c.title == Str(FallbackTitle(o.fields.productId))
    ensures Truthy(o.fields.status) ==> c.status == o.fields.status
    ensures !Truthy(o.fields.status) ==> c.status == Str("PENDING")
    ensures c.emailButton.Some? <==> Truthy(o.fields.customerEmail)
    ensures c.emailButton.Some? ==> c.emailButton.value == o.fields.customerEmail
    ensures c.callButton.Some? <==> Truthy(o.fields.customerPhone)
    ensures c.callButton.Some? ==> c.callButton.value == o.fields.customerPhone
    ensures c.noContactNote <==> !Truthy(o.fields.customerEmail) && !Truthy(o.fields.customerPhone)
    ensures c.quantity == o.fields.quantity && c.userId == o.fields.userId && c.orderId == o.id
  {
    var name := if o.fields.productId in prodMap then prodMap[o.fields.productId].fields.name
                else Str(FallbackTitle(o.fields.productId));
    var buyerEmail := Or(o.fields.customerEmail, Str(""));
    var buyerPhone := Or(o.fields.customerPhone, Str(""));
    OrderCard(
      name,
      o.fields.quantity,
      Or(o.fields.status, Str("PENDING")),
      o.fields.userId,
      o.id,
      if Truthy(buyerEmail) then Some(buyerEmail) else None,
      if Truthy(buyerPhone) then Some(buyerPhone) else None,
      !Truthy(buyerEmail) && !Truthy(buyerPhone))
  }

  /**
   * `loadOrders()`: the order rows and the product rows are the two query
   * results; a failed product query reads as no products.
   */
  method LoadOrders(containerPresent: bool, ordersReply: Result<seq<Order>, string>, productRows: Option<seq<Product>>)
    returns (view: Option<Container<OrderCard>>)
    ensures !containerPresent ==> view == None
    ensures containerPresent && ordersReply.Failure? ==> view == Some(Message("Error loading orders: " + ordersReply.error))
    ensures containerPresent && ordersReply == Success([]) ==> view == Some(Message("No orders found."))
    ensures containerPresent && ordersReply.Success? && ordersReply.value != [] ==>
      && view.Some? && view.value.Items?
      && |view.value.items| == |ordersReply.value|
      && forall i :: 0 <= i < |ordersReply.value| ==>
           view.value.items[i] == OrderCardOf(ordersReply.value[i], ProductIndex(if productRows.Some? then productRows.value else []))
  {
    if !containerPresent {
      return None;
    }
    if ordersReply.Failure? {
      return Some(Message("Error loading orders: " + ordersReply.error));
    }
    var prodMap := ProductIndex(if productRows.Some? then productRows.value else []);
    var rows := ordersReply.value;
    if |rows| == 0 {
      return Some(Message("No orders found."));
    }
    var cards: seq<OrderCard> := [];
    var i := 0;
    while i < |rows|
      invariant 0 <= i <= |rows|
      invariant |cards| == i
      invariant forall k :: 0 <= k < i ==> cards[k] == OrderCardOf(rows[k], prodMap)
    {
      cards := cards + [OrderCardOf(rows[i], prodMap)];
      i := i + 1;
    }
    view := Some(Items(cards));
  }

  /**
   * After its product is deleted, an order still lists, under the fallback
   * label, when the product rows are those left in the table.
   */
  lemma ListingAfterDelete(rows: seq<Product>, ps: map<nat, Product>, o: Order)
    requires ListsExactly(rows, ps - {o.fields.productId})
    ensures OrderCardOf(o, ProductIndex(rows)).title == Str(FallbackTitle(o.fields.productId))
  {
    ProductIndexOfTable(rows, ps - {o.fields.productId});
  }

  // ---------------------------------------------------------------------
  // Add / update / delete product
  // ---------------------------------------------------------------------

  /**
   * The add-product form: the raw texts (a missing input reads as "") and
   * the parses of thickness, price and quantity (`None` for NaN).
   */
  datatype ProductForm = ProductForm(
    name: string,
    size: string,
    color: string,
    thickness: Option<int>,
    price: Option<real>,
    quantity: Option<int>)

  /**
   * `!name || !price` after trimming: refused exactly when the name is all
   * white space, or the price is NaN or 0.
   */
  predicate AddProductRejected(f: ProductForm): (r: bool)
    ensures r <==>
      (forall i :: 0 <= i < |f.name| ==> IsSpace(f.name[i])) || !(f.price.Some? && f.price.value != 0.0)
  {
    TrimEmptyIff(f.name);
    Trim(f.name) == "" || f.price.None? || f.price.value == 0.0
  }

  /** The insert payload; the quantity key is left out (`Undefined`) when its parse is NaN. */
  function NewProductRow(f: ProductForm): (r: ProductFields)
    ensures !AddProductRejected(f) ==> r.name.Str? && r.name.s != [] && r.pricePer1000 == Num(f.price.value)
    ensures r.thicknessMicrons == (if f.thickness.None? then Null else Num(f.thickness.value as real))
    ensures r.quantity == (if f.quantity.None? then Undefined else Num(f.quantity.value as real))
    ensures r.defaultOrderQuantity == Undefined
  {
    ProductFields(
      name := Str(Trim(f.name)),
      size := Str(Trim(f.size)),
      color := Str(Trim(f.color)),
      thicknessMicrons := if f.thickness.None? then Null else Num(f.thickness.value as real),
      pricePer1000 := if f.price.None? then Null else Num(f.price.value),
      quantity := if f.quantity.None? then Undefined else Num(f.quantity.value as real),
      defaultOrderQuantity := Undefined)
  }

  /** The stored name of an accepted product neither starts nor ends with white space. */
  lemma NewProductNameTrimmed(f: ProductForm)
    requires !AddProductRejected(f)
    ensures var n := NewProductRow(f).name.s; !IsSpace(n[0]) && !IsSpace(n[|n| - 1])
  {
    var a, b := TrimShape(f.name);
  }

  datatype AddOutcome = NameAndPriceRequired | AddFailed | Added(id: nat)

  /** The `addProdBtn` handler. */
  method AddProduct(db: Tables, f: ProductForm, storeAvailable: bool) returns (outcome: AddOutcome)
    requires db.Valid()
    modifies db
    ensures db.Valid()
    ensures db.orders == old(db.orders)
    ensures AddProductRejected(f) ==> outcome == NameAndPriceRequired && db.products == old(db.products)
    ensures !AddProductRejected(f) && !storeAvailable ==> outcome == AddFailed && db.products == old(db.products)
    ensures !AddProductRejected(f) && storeAvailable ==>
      && outcome.Added? && outcome.id !in old(db.products)
      && db.products == old(db.products)[outcome.id := Product(outcome.id, NewProductRow(f))]
  {
    if AddProductRejected(f) {
      return NameAndPriceRequired;
    }
    if !storeAvailable {
      return AddFailed;
    }
    var id := db.InsertProduct(NewProductRow(f));
    outcome := Added(id);
  }

  datatype UpdateOutcome = InputNotFound | InvalidQuantity | UpdateFailed | Updated(quantity: int)

  /** `updateProductQuantity(id)`: the quantity input is read and parsed (`el.value || '0'`). */
  method UpdateProductQuantity(db: Tables, id: nat, input: Field<int>, storeAvailable: bool)
    returns (outcome: UpdateOutcome)
    requires db.Valid()
    modifies db
    ensures db.Valid()
    ensures db.orders == old(db.orders)
    ensures input.Absent? ==> outcome == InputNotFound && db.products == old(db.products)
    ensures input == Entered(None) ==> outcome == InvalidQuantity && db.products == old(db.products)
    ensures input.Entered? && input.parsed.Some? && !storeAvailable ==>
      outcome == UpdateFailed && db.products == old(db.products)
    ensures input.Entered? && input.parsed.Some? && storeAvailable ==>
      outcome == Updated(input.parsed.value) && db.products == WithQuantity(old(db.products), id, input.parsed.value)
  {
    if input.Absent? {
      return InputNotFound;
    }
    if input.parsed.None? {
      return InvalidQuantity;
    }
    if !storeAvailable {
      return UpdateFailed;
    }
    db.UpdateQuantity(id, input.parsed.value);
    outcome := Updated(input.parsed.value);
  }

  datatype DeleteOutcome = NoId | Cancelled | DeleteFailed | Deleted

  /** `deleteProduct(id)`: `!id` is true only for id 0. */
  method DeleteProduct(db: Tables, id: nat, confirmed: bool, storeAvailable: bool) returns (outcome: DeleteOutcome)
    requires db.Valid()
    modifies db
    ensures db.Valid()
    ensures db.orders == old(db.orders)
    ensures id == 0 ==> outcome == NoId && db.products == old(db.products)
    ensures id != 0 && !confirmed ==> outcome == Cancelled && db.products == old(db.products)
    ensures id != 0 && confirmed && !storeAvailable ==> outcome == DeleteFailed && db.products == old(db.products)
    ensures id != 0 && confirmed && storeAvailable ==> outcome == Deleted && db.products == old(db.products) - {id}
  {
    if id == 0 {
      return NoId;
    }
    if !confirmed {
      return Cancelled;
    }
    if !storeAvailable {
      return DeleteFailed;
    }
    db.DeleteProduct(id);
    outcome := Deleted;
  }

  // ---------------------------------------------------------------------
  // New-order notifications
  // ---------------------------------------------------------------------

  /** The badge and the "mark notified" button: both shown, with the count, or both hidden. */
  datatype NotificationBar = Hidden | Shown(badgeText: string)

  /** Shown exactly for a positive count, with a badge text that reads back as the count followed by " new". */
  function BarFor(count: nat): (r: NotificationBar)
    ensures r.Shown? <==> count > 0
    ensures r.Shown? ==>
      var n := |r.badgeText| - |" new"|;
      && n >= 1 && r.badgeText[n..] == " new"
      && (forall i :: 0 <= i < n ==> IsDigit(r.badgeText[i]))
      && DecimalValue(r.badgeText[..n]) == count
  {
    if count > 0 then
      DecimalRoundTrip(count);
      var text := Decimal(count) + " new";
      assert text[..|text| - |" new"|] == Decimal(count);
      Shown(text)
    else Hidden
  }

  /**
   * `refreshNewOrdersCount()`: `None` when the query fails (the page is
   * left as it was); otherwise the bar for the number of unnotified orders.
   */
  method RefreshNewOrdersCount(db: Tables, storeAvailable: bool) returns (bar: Option<NotificationBar>)
    ensures !storeAvailable ==> bar == None
    ensures storeAvailable ==> bar == Some(BarFor(|UnnotifiedIds(db.orders)|))
    ensures storeAvailable ==>
      (bar.value.Shown? <==> exists k :: 0 <= k < |db.orders| && !db.orders[k].fields.notifiedAdmins)
  {
    if !storeAvailable {
      return None;
    }
    var ids := db.SelectUnnotifiedIds();
    UnnotifiedIdsEmptyIff(db.orders);
    bar := Some(BarFor(|ids|));
  }

  /** After the bulk update every order is notified, and no id is selected any more. */
  lemma {:induction false} NoneUnnotifiedAfterMark(os: seq<Order>)
    ensures |MarkedNotified(os)| == |os|
    ensures forall k :: 0 <= k < |os| ==> MarkedNotified(os)[k].fields.notifiedAdmins
    ensures UnnotifiedIds(MarkedNotified(os)) == []
  {
    if os == [] {
      assert MarkedNotified(os) == [];
    } else {
      MarkedNotifiedAt(os, 0);
    }
    forall k | 0 <= k < |os| ensures MarkedNotified(os)[k].fields.notifiedAdmins {
      MarkedNotifiedAt(os, k);
    }
    UnnotifiedIdsEmptyIff(MarkedNotified(os));
  }

  /**
   * The bulk update changes exactly the unnotified orders, and in those
   * only the flag; it keeps the order of the table.
   */
  lemma MarkChangesOnlyFlags(os: seq<Order>, k: nat)
    requires k < |os|
    ensures MarkedNotified(os)[k] != os[k] <==> !os[k].fields.notifiedAdmins
    ensures MarkedNotified(os)[k].id == os[k].id
    ensures MarkedNotified(os)[k].fields.(notifiedAdmins := os[k].fields.notifiedAdmins) == os[k].fields
  {
    MarkedNotifiedAt(os, k);
  }

  /** A second bulk update leaves the table as the first one left it. */
  lemma MarkTwiceIsMarkOnce(os: seq<Order>)
    ensures MarkedNotified(MarkedNotified(os)) == MarkedNotified(os)
  {
    var once := MarkedNotified(os);
    NoneUnnotifiedAfterMark(os);
    NoneUnnotifiedAfterMark(once);
    forall k | 0 <= k < |once| ensures MarkedNotified(once)[k] == once[k] {
      MarkedNotifiedAt(once, k);
    }
  }

  /**
   * The `mark-notified-btn` handler: the bulk update, then the badge is
   * refreshed.  When the backend answers, the bar is hidden afterwards and
   * a repeated click leaves the ledger as it is.
   */
  method MarkNotified(db: Tables, storeAvailable: bool) returns (bar: Option<NotificationBar>)
    requires db.Valid()
    modifies db
    ensures db.Valid()
    ensures db.products == old(db.products)
    ensures storeAvailable ==> db.orders == MarkedNotified(old(db.orders)) && bar == Some(Hidden)
    ensures !storeAvailable ==> db.orders == old(db.orders) && bar == None
  {
    if storeAvailable {
      db.MarkUnnotified();
      NoneUnnotifiedAfterMark(old(db.orders));
    }
    bar := RefreshNewOrdersCount(db, storeAvailable);
  }
}
