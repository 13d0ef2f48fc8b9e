# Plastic-bag storefront: order placement, catalog availability and admin reconciliation

This project models the decision logic of a small storefront for plastic-bag
products. The browser scripts talk to a hosted backend with two tables,
`products` and `orders`. The model covers three parts:

- **Order placement** (`public/js/order.js`, `initiateOrder`). Three guards run in order: a signed-in
  user, a quantity of at least 1, and the buyer's confirmation. If all pass, one
  `orders` row is inserted with status `pending`, `notified_admins = false`, and a
  snapshot of the buyer's email and phone. Each contact falls back from profile to account to null.
- **Catalog availability** (`public/js/products.js`). A product's availability is derived from its
  quantity: no numeric quantity means untracked, a positive one means in stock, and 0 or less
  means out of stock. Out of stock disables the order button and adds the overlay. The initial order
  quantity falls back to 1000.
- **Admin dashboard** (`public/js/admin.js`). This part covers:
  - the access decision: the profile flag must be strictly `true`, or the email must contain `"admin"`;
  - the inventory and order listings, with the `Product ID: <id>` fallback, the `PENDING` default and the
    buyer-contact buttons;
  - the add-product, update-quantity and delete handlers;
  - the new-orders badge and the bulk "mark notified" update.

The backend tables are the class `Backend.Tables`. It holds `products: map<nat, Product>`,
`orders: seq<Order>` and two id counters that start at 1. Its table operations are atomic methods:
insert, update by id, delete by id, the bulk flag update and the filtered select.

Dynamic JavaScript values are `Js.Value` (`Undefined | Null | Bool | Num | Str`). `Js.Truthy` and
`Js.Or` model the `||` fallbacks and `!x` guards.

Some things are inputs rather than computed. Parsed numbers are `Option` values, where `None`
stands for NaN. A form input whose element may be missing is a `Js.Field`. The answers of `confirm()`
are booleans. Auth and profile lookups are `Option<User>` and `Option<Profile>`. Whether the backend
answered a write, or the unnotified-count read, without error is a boolean `storeAvailable`.

Modules follow the scripts: `Js` (values and string built-ins), `Backend` (tables),
`Catalog` (products.js), `Ordering` (order.js), `Admin` (admin.js) and `Workflow`. `Workflow`
holds lemmas that join placement to the admin listing and badge, plus client methods that run the
handlers in sequence: adding stock, placing orders, raising and clearing the badge, and editing inventory.

Behaviour of the code worth stating explicitly:

- `initiateOrder` never reads or checks stock, and no order changes a product's quantity. A request for
  9999 units of a product with 500 on hand is accepted (`Workflow.OverStockScenario`).
- `updateProductQuantity` accepts any integer, negative ones included. It refuses only a missing input element and NaN.
- The add-product handler accepts a negative price. It refuses only an empty trimmed name and a price that is 0 or NaN.
- No script changes an order's `status` after the insert, so every order stays `pending`.
- `deleteProduct` refuses only an id that is falsy. For the backend's integer ids that means id 0,
  which the id counter never hands out.

## Model

| member | source | states |
|---|---|---|
| Js.Decimal | plastic-bag-site/public/js/admin.js:195 | the decimal text of an id or count is non-empty, all digits, without a leading zero |
| Js.DecimalRoundTrip | plastic-bag-site/public/js/admin.js:374 | reading back the decimal text of n gives n |
| Js.DecimalInjective | plastic-bag-site/public/js/admin.js:195 | different numbers render to different texts |
| Js.Includes | plastic-bag-site/public/js/admin.js:17 | a contained text is never longer than the text, and a text that ends with `sub` contains it |
| Js.IncludesIff | plastic-bag-site/public/js/admin.js:17 | `s.includes(sub)` holds exactly when sub occurs at some index of s |
| Js.TrimStartShape | plastic-bag-site/public/js/admin.js:255 | trimming the start drops exactly the leading run of white space |
| Js.TrimEndShape | plastic-bag-site/public/js/admin.js:255 | trimming the end drops exactly the trailing run of white space |
| Js.TrimShape | plastic-bag-site/public/js/admin.js:255-257 | `trim()` yields the slice between the white-space runs at both ends, and it neither starts nor ends with white space |
| Js.Trim | plastic-bag-site/public/js/admin.js:255-257 | the trimmed text is no longer than the input and neither starts nor ends with white space |
| Js.TrimEmptyIff | plastic-bag-site/public/js/admin.js:255 | the trimmed text is empty exactly when every character is white space |
| Backend.WithQuantity | plastic-bag-site/public/js/admin.js:322 | updating one id's quantity keeps the key set, changes only that row's quantity, and is a no-op for an unknown id |
| Backend.Notify | plastic-bag-site/public/js/admin.js:384 | an order ends up notified, keeps its id and other fields, and changes exactly when it was unnotified |
| Backend.MarkedNotified | plastic-bag-site/public/js/admin.js:384 | the bulk update keeps the number of orders |
| Backend.MarkedNotifiedAt | plastic-bag-site/public/js/admin.js:384 | the k-th order after the bulk update is the k-th order notified |
| Backend.UnnotifiedIds | plastic-bag-site/public/js/admin.js:369 | the select returns at most one id per order |
| Backend.UnnotifiedCount | plastic-bag-site/public/js/admin.js:369-371 | the count is the number of positions in the ledger that hold an unnotified order |
| Backend.UnnotifiedIdsAppend | plastic-bag-site/public/js/admin.js:369 | appending an order adds its id to the unnotified selection exactly when it is unnotified |
| Backend.UnnotifiedIdsMembers | plastic-bag-site/public/js/admin.js:369 | an id is selected exactly when some unnotified order has it |
| Backend.UnnotifiedIdsEmptyIff | plastic-bag-site/public/js/admin.js:369-371 | nothing is selected exactly when every order is notified |
| Backend.Tables.InsertOrder | plastic-bag-site/public/js/order.js:46 | the row is appended under an id no earlier order has; products are untouched |
| Backend.Tables.InsertProduct | plastic-bag-site/public/js/admin.js:280 | the row is added under a new, non-zero id; orders are untouched |
| Backend.Tables.UpdateQuantity | plastic-bag-site/public/js/admin.js:322 | the products become `WithQuantity` of the old ones; orders are untouched |
| Backend.Tables.DeleteProduct | plastic-bag-site/public/js/admin.js:306 | the id is removed from the products and the orders that refer to it stay |
| Backend.Tables.MarkUnnotified | plastic-bag-site/public/js/admin.js:384 | the orders become `MarkedNotified` of the old ones; products are untouched |
| Backend.Tables.SelectUnnotifiedIds | plastic-bag-site/public/js/admin.js:369 | returns the ids of the unnotified orders, in table order |
| Catalog.TrackedQuantity | plastic-bag-site/public/js/products.js:8 | the quantity is tracked exactly when it is a number, and is then that number |
| Catalog.IsOutOfStock | plastic-bag-site/public/js/products.js:9 | the card's out-of-stock test holds exactly when the availability state is out of stock |
| Catalog.OutOfStockIff | plastic-bag-site/public/js/products.js:8-9 | out of stock (tracked and at most 0) agrees with the availability state; untracked is never out of stock |
| Catalog.CreateProductCard | plastic-bag-site/public/js/products.js:7-79 | button disabled, label "Out of Stock", overlay and dimming exactly when out of stock; initial quantity is the default when truthy, else 1000; the title is never empty |
| Catalog.LoadProducts | plastic-bag-site/public/js/products.js:81-103 | nothing without a container, the error or "no products" message, otherwise one card per returned row in order |
| Catalog.AvailabilityAfterSetQuantity | plastic-bag-site/public/js/admin.js:322 | after setting a quantity n the product is out of stock if n is at most 0 and in stock otherwise |
| Catalog.UndefinedQuantityIsUntracked | plastic-bag-site/public/js/admin.js:278 | a product inserted without a quantity key gets the same card as one with a null quantity |
| Ordering.RequestedQuantity | plastic-bag-site/public/js/order.js:15-16 | the read quantity is at least 1 exactly when the input exists and parses to at least 1; a missing input reads as 0 |
| Ordering.QuantityRejected | plastic-bag-site/public/js/order.js:17 | the quantity guard refuses exactly NaN and values below 1; its `!qty` test adds nothing beyond those |
| Ordering.QuantityRejectedIff | plastic-bag-site/public/js/order.js:15-20 | a quantity passes exactly when the input exists and parses to an integer of at least 1 |
| Ordering.CheckRequest | plastic-bag-site/public/js/order.js:9-25 | the first failing guard among sign-in, quantity and confirmation decides the rejection; success exactly when all pass, with the entered quantity |
| Ordering.EmailSnapshot | plastic-bag-site/public/js/order.js:42 | the profile email if truthy, else the account email if truthy, else null |
| Ordering.PhoneSnapshot | plastic-bag-site/public/js/order.js:43 | the same first-non-empty rule for the phone, despite the different grouping |
| Ordering.OrderPayload | plastic-bag-site/public/js/order.js:36-44 | status `pending`, not notified, the requested product, the validated quantity, the user's id and both contact snapshots |
| Ordering.InitiateOrder | plastic-bag-site/public/js/order.js:5-54 | a rejected request or a failed insert leaves the ledger unchanged; otherwise exactly one order with the payload is appended under a fresh id; products never change; positive quantities in the ledger are preserved |
| Admin.IsUserAdmin | plastic-bag-site/public/js/admin.js:14-18 | false for a null user; true only for a string email of at least five characters; true for an email ending in "admin" |
| Admin.IsUserAdminIff | plastic-bag-site/public/js/admin.js:14-18 | false for a null user; otherwise true exactly when the email is a string containing "admin" (hence non-empty) |
| Admin.CheckAdmin | plastic-bag-site/public/js/admin.js:20-55 | sign-in form exactly without a session and user; dashboard exactly when the profile flag is strictly true or the email contains "admin"; the contact form is prefilled exactly when a profile exists |
| Admin.ContactFormOf | plastic-bag-site/public/js/admin.js:41-43 | each field is the first truthy of its two profile columns, else the empty text |
| Admin.TruthyFlagIsNotEnough | plastic-bag-site/public/js/admin.js:34 | a profile flag that is not the boolean true does not grant access to a non-admin email |
| Admin.InventoryCardOf | plastic-bag-site/public/js/admin.js:115-162 | out of stock by the catalog's rule and in agreement with the catalog card; an untracked quantity shows as "—" and seeds the input with 0 |
| Admin.LoadInventory | plastic-bag-site/public/js/admin.js:95-166 | nothing without a container, the error or "no products" message, otherwise one inventory card per row in order |
| Admin.ProductIndex | plastic-bag-site/public/js/admin.js:185 | every key maps to a product with that id, and every row's id is a key |
| Admin.ProductIndexLookup | plastic-bag-site/public/js/admin.js:185 | an id is in the product map exactly when some row has it, mapped to the last such row |
| Admin.ProductIndexOfTable | plastic-bag-site/public/js/admin.js:185 | rows that list exactly a table's products index back to that table |
| Admin.FallbackTitle | plastic-bag-site/public/js/admin.js:195 | the label is `Product ID: ` followed by digits that read back as the product id |
| Admin.FallbackTitlesDistinct | plastic-bag-site/public/js/admin.js:195 | orders of different missing products get different fallback labels |
| Admin.OrderCardOf | plastic-bag-site/public/js/admin.js:193-243 | the product's name when its id is in the map, else `Product ID: <id>`; status defaults to PENDING; email and call buttons exactly for non-empty contacts; the no-contact note exactly when both are empty |
| Admin.LoadOrders | plastic-bag-site/public/js/admin.js:168-247 | nothing without a container, the error or "no orders" message, otherwise one order card per row in order, against the map of the product rows |
| Admin.ListingAfterDelete | plastic-bag-site/public/js/admin.js:185-195 | when the product rows list exactly the table without an order's product, that order still lists, under the fallback label |
| Admin.AddProductRejected | plastic-bag-site/public/js/admin.js:255-262 | the form is refused exactly when the name is all white space or the price is NaN or 0 |
| Admin.NewProductRow | plastic-bag-site/public/js/admin.js:270-278 | an accepted payload has a non-empty name and a numeric price; thickness is null on NaN; the quantity key is absent exactly on NaN |
| Admin.NewProductNameTrimmed | plastic-bag-site/public/js/admin.js:255 | the stored name of an accepted product neither starts nor ends with white space |
| Admin.AddProduct | plastic-bag-site/public/js/admin.js:252-299 | a refused form or a failed insert changes nothing; otherwise exactly the new row is added under a fresh id |
| Admin.UpdateProductQuantity | plastic-bag-site/public/js/admin.js:315-332 | a missing input or a NaN parse changes nothing; otherwise only that product's quantity is set |
| Admin.DeleteProduct | plastic-bag-site/public/js/admin.js:302-313 | id 0 or a declined confirmation changes nothing; otherwise exactly that product is removed |
| Admin.BarFor | plastic-bag-site/public/js/admin.js:372-379 | the badge shows exactly when the count is positive, with the text `<digits> new` whose digits read back as the count |
| Admin.RefreshNewOrdersCount | plastic-bag-site/public/js/admin.js:368-380 | the badge counts the unnotified orders and is shown, with the mark button, exactly when one exists |
| Admin.NoneUnnotifiedAfterMark | plastic-bag-site/public/js/admin.js:384 | after the bulk update every order is notified and the count is 0 |
| Admin.MarkChangesOnlyFlags | plastic-bag-site/public/js/admin.js:384 | the bulk update changes exactly the unnotified orders, and only their flag |
| Admin.MarkTwiceIsMarkOnce | plastic-bag-site/public/js/admin.js:384 | running the bulk update again leaves the ledger unchanged |
| Admin.MarkNotified | plastic-bag-site/public/js/admin.js:382-389 | the orders become the bulk-updated ones and the badge is hidden; on a backend error nothing changes |
| Workflow.PlacedOrderListing | plastic-bag-site/public/js/order.js:36-44 | a just-placed order lists as pending, with contact buttons exactly for the non-empty snapshot fields |
| Workflow.PlacedOrderRaisesBadge | plastic-bag-site/public/js/order.js:41 | a just-placed order joins the unnotified selection, so the badge shows |

## Left out

- The other scripts are not part of this model. `supabase.js` only constructs the client. `payments.js` is a
  payment-provider redirect with float money arithmetic. `auth.js` and `reset-password.js` are sign-in, sign-up and
  password-reset calls to the backend. `orders.js` renders a user's own orders from a filtered remote query.
- The order total `price * (qty / 1000)` and the confirmation text are only displayed, so they are left out.
  `initiateOrder`'s `productName` and `price` arguments feed only those two and are dropped.
- `parseInt`, `parseFloat` and the numbers' exact JavaScript semantics are left out. Parses are inputs, and prices
  and quantities are exact `real` values with no floating-point rounding.
- DOM construction is left out, and so is turning numbers into text, except the decimal text of ids and
  counts (`Js.Decimal`, used by `Admin.FallbackTitle` and `Admin.BarFor`). The catalog's size, colour and
  thickness lines and the `mailto:`/`tel:` link strings are not built. Cards carry the values that
  decide what is shown.
- `alert`, the redirects, the delayed sign-out of a denied user, `setTimeout`, `Promise.all` and the reloads after
  each write are left out. Each handler is modelled as one atomic step.
- The admin login and logout handlers (admin.js:57-88) are left out because they are auth calls to the backend. The
  admin contact save (admin.js:334-365) is left out because it upserts the `profiles` table, which is not one of the
  two tables modelled.
- The backend's row ordering (`order('id', { ascending: false })`), row-level security and concurrent clients are
  left out. Listing functions take the rows as the query returned them.
- Admin.IsUserAdmin: an email that is truthy but not a string would make `includes` throw. The model
  treats it as not an admin, since the auth client only reports strings.
- Admin.MarkNotified: one `storeAvailable` answer covers both the bulk update and the count query that follows
  it. The source issues them separately, and either one can fail on its own. In every handler, `storeAvailable`
  stands for the backend answering without error, for the reads (the unnotified count in
  `Admin.RefreshNewOrdersCount`) as well as the writes.
- Backend.Tables.InsertProduct: a key missing from the payload is stored as `Undefined`, not as the column's
  default. Every derivation treats `Undefined` exactly like `null` (see `Catalog.UndefinedQuantityIsUntracked`).
