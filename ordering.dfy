/**
 * Order placement (public/js/order.js, `initiateOrder`): three guards in
 * order (signed in, a quantity of at least 1, the buyer's confirmation),
 * then one `orders` row with a fixed initial state and a snapshot of the
 * buyer's contact details.  Stock is neither read nor changed.
 */
module Ordering {
  import opened Wrappers
  import opened Js
  import opened Backend

  /** Why a request was turned away before anything was written. */
  datatype Rejection = SignInRequired | InvalidQuantity | Declined

  datatype Outcome =
    | Rejected(reason: Rejection)
    | InsertFailed           // the insert reached the backend and it answered with an error
    | Placed(order: Order)

  /** `qtyEl ? parseInt(qtyEl.value || '0', 10) : 0`. */
  function RequestedQuantity(field: Field<int>): (r: Option<int>)
    ensures r.Some? && r.value >= 1 <==> field.Entered? && field.parsed.Some? && field.parsed.value >= 1
  {
    match field
    case Absent => Some(0)
    case Entered(q) => q
  }

  /** `!qty || isNaN(qty) || qty < 1`. */
  predicate QuantityRejected(q: Option<int>): (r: bool)
    ensures r <==> q.None? || q.value < 1
  {
    match q
    case None => true
    case Some(n) => n == 0 || n < 1
  }

  /** A request quantity passes exactly when it parses to an integer of at least 1. */
  lemma QuantityRejectedIff(field: Field<int>)
    ensures !QuantityRejected(RequestedQuantity(field)) <==>
      field.Entered? && field.parsed.Some? && field.parsed.value >= 1
  {
  }

  /** The guard sequence: the first failing check decides the rejection; on success, the validated quantity. */
  function CheckRequest(user: Option<User>, field: Field<int>, confirmed: bool): (r: Result<int, Rejection>)
    ensures user.None? ==> r == Failure(SignInRequired)
    ensures user.Some? && !(field.Entered? && field.parsed.Some? && field.parsed.value >= 1) ==> r == Failure(InvalidQuantity)
    ensures user.Some? && field.Entered? && field.parsed.Some? && field.parsed.value >= 1 && !confirmed ==> r == Failure(Declined)
    ensures r.Success? <==> user.Some? && field.Entered? && field.parsed.Some? && field.parsed.value >= 1 && confirmed
    ensures r.Success? ==> field == Entered(Some(r.value)) && r.value >= 1
  {
    if user.None? then Failure(SignInRequired)
    else if QuantityRejected(RequestedQuantity(field)) then Failure(InvalidQuantity)
    else if !confirmed then Failure(Declined)
    else Success(RequestedQuantity(field).value)
  }

  /** `profile?.<field>`: undefined when there is no profile row. */
  function ProfileEmail(profile: Option<Profile>): Value {
    if profile.Some? then profile.value.email else Undefined
  }

  function ProfilePhone(profile: Option<Profile>): Value {
    if profile.Some? then profile.value.phone else Undefined
  }

  /** `profile?.email || user.email || null`. */
  function EmailSnapshot(profile: Option<Profile>, user: User): (r: Value)
    ensures r == FirstTruthy(ProfileEmail(profile), user.email, Null)
  {
    Or(Or(ProfileEmail(profile), user.email), Null)
  }

  /** `profile?.phone || (user.phone || null)`; grouped differently from the email, with the same effect. */
  function PhoneSnapshot(profile: Option<Profile>, user: User): (r: Value)
    ensures r == FirstTruthy(ProfilePhone(profile), user.phone, Null)
  {
    Or(ProfilePhone(profile), Or(user.phone, Null))
  }

  /** The payload of the insert. */
  function OrderPayload(productId: nat, qty: int, user: User, profile: Option<Profile>): (r: OrderFields)
    ensures r.status == Str("pending") && !r.notifiedAdmins
    ensures r.productId == productId && r.quantity == qty && r.userId == user.id
    ensures r.customerEmail == FirstTruthy(ProfileEmail(profile), user.email, Null)
    ensures r.customerPhone == FirstTruthy(ProfilePhone(profile), user.phone, Null)
  {
    OrderFields(
      productId := productId,
      quantity := qty,
      userId := user.id,
      status := Str("pending"),
      notifiedAdmins := false,
      customerEmail := EmailSnapshot(profile, user),
      customerPhone := PhoneSnapshot(profile, user))
  }

  /** Every order in the ledger has a positive quantity. */
  ghost predicate PositiveQuantities(os: seq<Order>) {
    forall i :: 0 <= i < |os| ==> os[i].fields.quantity >= 1
  }

  /**
   * `initiateOrder(productId, productName, price)`.  The answers the page
   * gets from the auth client (`user`), the quantity input, `confirm()`,
   * the profile lookup and the insert's success (`storeAvailable`) are
   * inputs.  A rejected request writes nothing.
   */
  method InitiateOrder(db: Tables, productId: nat, user: Option<User>, qtyField: Field<int>,
                       confirmed: bool, profile: Option<Profile>, storeAvailable: bool)
    returns (outcome: Outcome)
    requires db.Valid()
    modifies db
    ensures db.Valid()
    ensures db.products == old(db.products)
    ensures CheckRequest(user, qtyField, confirmed).Failure? ==>
      outcome == Rejected(CheckRequest(user, qtyField, confirmed).error) && db.orders == old(db.orders)
    ensures CheckRequest(user, qtyField, confirmed).Success? && !storeAvailable ==>
      outcome == InsertFailed && db.orders == old(db.orders)
    ensures CheckRequest(user, qtyField, confirmed).Success? && storeAvailable ==>
      && outcome.Placed?
      && outcome.order.fields == OrderPayload(productId, CheckRequest(user, qtyField, confirmed).value, user.value, profile)
      && db.orders == old(db.orders) + [outcome.order]
      && (forall i :: 0 <= i < |old(db.orders)| ==> old(db.orders)[i].id != outcome.order.id)
    ensures PositiveQuantities(old(db.orders)) ==> PositiveQuantities(db.orders)
  {
    var check := CheckRequest(user, qtyField, confirmed);
    if check.Failure? {
      return Rejected(check.error);
    }
    if !storeAvailable {
      return InsertFailed;
    }
    var row := OrderPayload(productId, check.value, user.value, profile);
    var id := db.InsertOrder(row);
    outcome := Placed(Order(id, row));
  }
}
