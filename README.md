# BanglaBaari server core, modelled in Dafny

This project models the request handlers of the BanglaBaari clothing-shop backend (an
Express/Mongoose server) and the Mongoose models they rely on:

- customer accounts and carts (`routes/auth.js`, plus the older, unmounted router kept in
  `middleware/auth.js`);
- order placement and the customer's order pages (`routes/orders.js`, `models/Order.js`);
- the public catalog (`routes/products.js`, `models/Product.js`);
- the admin panel: admin login, the bearer-token guard, order status changes, product
  create/update/delete and the dashboard figures (`routes/admin.js`, `middleware/adminAuth.js`);
- the start-up bootstrap of the first admin (`createInitialAdmin` in `config/db.js`).

The MongoDB collections are the fields of one `Store.Db` object: users keyed by their
(lower-cased) email, admins keyed by username, orders and products as sequences in insertion
order, and a counter `nextId` that hands out fresh object ids. `Db.Valid()` is the store
invariant: ids are issued and distinct, emails are stored lower-case, carts hold one line per
(product, size, colour) with distinct line ids, order numbers are present and distinct, and
every stored product satisfies the schema's validators.

Every handler that writes is a method `HandleX(db, …)` whose contract says that it keeps
`db.Valid()` and that its reply and the collections it touches are exactly what a pure
function `X` of the old collections gives. The properties of the route are proved about `X`.
Read-only handlers are pure functions of the collections. The following become parameters:

- the JWT verifier is `verify: string -> Option<Claims>`;
- `Date.now()` is `now`, read once per request and also used as the creation time of what the request stores;
- a failing cart write after an order is saved is `cartWriteFails`;
- the bcrypt salt is `salt`.

bcrypt is idealised: a hash matches exactly the password it was made from.

## Model

| member | source | states |
|---|---|---|
| Base.OrElse | routes/orders.js:39 | `x \|\| fallback` on a string: the given value when it is truthy (present and non-empty), else the fallback |
| Base.FindById | routes/products.js:36 | `findById` on orders and products alike: the index of the first document with that id, or -1 exactly when no document has it |
| Base.HashPassword | routes/auth.js:25-26 | a stored hash accepts the password it was made from and no other |
| Strings.ToLower | routes/auth.js:18 | same length and lower-case: each upper-case ASCII letter becomes its lower-case letter (code + 32), every other character is kept |
| Strings.ToLowerIdempotent | routes/auth.js:30 | lower-casing a stored (already lower-cased) email changes nothing |
| Strings.Trim | models/Product.js:5 | the trimmed title is no longer than the input and starts and ends with a non-space |
| Strings.TrimRemovesOnlySpace | models/Product.js:5 | the trimmed title is a slice of the input with only white space before and after it, so `trim` removes white space at both ends and nothing else |
| Strings.TrimIdempotent | models/Product.js:5 | trimming twice is trimming once |
| Strings.ReplaceFirst | middleware/adminAuth.js:5 | without an occurrence the string is unchanged; otherwise the first occurrence of the pattern is replaced by the replacement and the rest is kept |
| Strings.BeforeFirst | routes/auth.js:141 | `email.split('@')[0]`: the prefix before the first '@', which contains no '@' |
| Strings.DecimalRoundTrip | routes/orders.js:31 | reading back the decimal digits of `n` gives `n` |
| Strings.PaddedDecimalValue | routes/orders.js:31 | `padStart(4, '0')` keeps the numeric value of the counter |
| Strings.DecimalLengthMonotone | routes/orders.js:31 | a later timestamp never has fewer decimal digits |
| Sorting.SortBy | routes/products.js:21-23 | the result is sorted by the key and is a permutation of the input |
| Sorting.Insert | routes/products.js:21-23 | inserting into a sorted sequence keeps it sorted and adds exactly that element |
| Sorting.Limit | routes/products.js:25 | `.limit(n)`: 0 means no limit, a negative n acts as its absolute value, the result is a prefix |
| Sorting.PrefixKeepsOrder | routes/products.js:25 | a prefix of a sorted sequence is sorted |
| UserModel.SessionOf | routes/auth.js:38-42 | the JWT payload carries the user's id and email |
| AdminModel.AdminClaims | routes/admin.js:27-31 | the admin token's payload carries the admin's id and username and the admin flag |
| Cart.KeyIndex | routes/auth.js:226-230 | `findIndex` over (product, size, colour): the first matching line, or -1 when none matches |
| Cart.LineIndex | routes/auth.js:361-367 | `cart.id(itemId)`: the first line with that id, or -1 when none has it |
| Cart.AddLine | routes/auth.js:232-243 | adding merges into a matching line (same length) or appends a line (one longer, old lines kept) |
| Cart.AddMergesIntoMatchingLine | routes/auth.js:232-235 | with a matching line only that line's quantity rises by the added amount; all other lines are unchanged |
| Cart.AddAppendsNewLine | routes/auth.js:236-243 | without a matching line the new line, with a fresh id, is appended |
| Cart.AddKeepsKeysUnique | routes/auth.js:226-243 | adding keeps one line per (product, size, colour) |
| Cart.AddKeepsIdsUnique | routes/auth.js:236-243 | adding with a fresh line id keeps line ids distinct |
| Cart.AddRaisesOnlyItsKey | routes/auth.js:226-243 | the total quantity of the added key rises by the added amount; every other key's total is unchanged |
| Cart.AddTwiceMerges | routes/auth.js:226-243 | adding the same key twice leaves one line holding the sum of both quantities |
| Cart.KeyIndexOfAppended | routes/auth.js:226-230 | an appended line with a new key is found at the end |
| Cart.SetQuantity | routes/auth.js:361-369 | setting a quantity keeps the cart's length |
| Cart.SetQuantityChangesOneLine | routes/auth.js:361-369 | only the line with that id changes, and only its quantity |
| Cart.SetQuantityKeepsUnique | routes/auth.js:361-369 | setting a quantity keeps keys and line ids distinct |
| Cart.WithoutLine | routes/auth.js:318 | the filter leaves no line with that id and never lengthens the cart |
| Cart.WithoutLineMembers | routes/auth.js:318 | a line survives the filter exactly when it was in the cart and has another id |
| Cart.WithoutLineIdempotent | routes/auth.js:318 | removing the same line twice is removing it once |
| Cart.WithoutAbsentLine | routes/auth.js:318 | removing an id that is not in the cart changes nothing |
| Cart.WithoutPresentLine | routes/auth.js:318 | with distinct line ids, removing a present id takes out exactly the line `cart.id(id)` finds: the result is the lines before it followed by the lines after it, in their order |
| Cart.WithoutLineKeepsUnique | routes/auth.js:318 | removing lines keeps keys and line ids distinct |
| Store.IssuedStaysIssued | routes/orders.js:33-42 | the store invariant at one id counter holds at any later counter |
| Store.ReplaceUserKeepsWellFormed | routes/auth.js:129-138 | replacing a user by one with the same id keeps the users well formed |
| Store.InsertUserKeepsWellFormed | routes/auth.js:28-36 | inserting a user with the fresh id under its lower-case email keeps the users well formed |
| Store.CartChangeKeepsWellFormed | routes/auth.js:232-246 | storing a well-formed cart keeps the users well formed |
| Store.AppendProductKeepsWellFormed | routes/admin.js:82-85 | appending a valid product with the fresh id keeps the products well formed |
| Store.ReplaceProductKeepsWellFormed | routes/admin.js:95-99 | replacing a product by a valid one with the same id keeps the products well formed |
| Store.RemoveProductKeepsWellFormed | routes/admin.js:113 | deleting a product keeps the products well formed |
| Store.AddLineKeepsCartWellFormed | routes/auth.js:226-243 | adding with the fresh line id keeps the cart well formed |
| Store.SetQuantityKeepsCartWellFormed | routes/auth.js:361-369 | setting a quantity keeps the cart well formed |
| Store.WithoutLineKeepsCartWellFormed | routes/auth.js:318 | removing a line keeps the cart well formed |
| Store.Db.FreshId | routes/auth.js:28-34 | a new document's id is the counter, which then advances |
| Store.Db.SetUsers | routes/auth.js:36 | saving well-formed users keeps the store invariant |
| Store.Db.SetCart | routes/auth.js:246 | saving one user's cart changes only that user's cart |
| Store.Db.SetOrders | routes/admin.js:68-72 | saving well-formed orders keeps the store invariant |
| Store.Db.SetProducts | routes/admin.js:95-99 | saving well-formed products keeps the store invariant |
| Store.Db.InsertProduct | routes/admin.js:82-85 | a valid product with the fresh id is appended, and the counter advances |
| Store.Db.InsertOrder | routes/orders.js:42 | an order with the fresh id and an unused number is appended, and the counter advances |
| Store.Db.SetAdmins | config/db.js:32-37 | saving well-formed admins keeps the store invariant |
| AuthRoutes.Register | routes/auth.js:8-61 | 400 when a field is missing or the lower-cased email is taken; otherwise 201 and exactly one new user: lower-case email, fresh id, credentials provider, empty cart, a hash of the password |
| AuthRoutes.HandleRegister | routes/auth.js:8-61 | the users after the call and the reply are `Register` of the old users, and the store invariant holds |
| AuthRoutes.Login | routes/auth.js:63-116 | 400 without email and password; 200 with the user exactly when the account exists, is not a Google account, has a password and the password matches; 401 otherwise |
| AuthRoutes.NewGoogleUser | routes/auth.js:139-148 | a Google account gets the lower-case email, the given name or the part of the email before '@', no password, an empty cart |
| AuthRoutes.Refreshed | routes/auth.js:136-138 | signing in again updates only the name and image, and only with truthy values |
| AuthRoutes.GoogleSignIn | routes/auth.js:119-173 | 400 without an email or for an existing credentials account; otherwise the existing account is refreshed or a new one created |
| AuthRoutes.HandleGoogleSignIn | routes/auth.js:119-173 | the users after the call and the reply are `GoogleSignIn` of the old users |
| AuthRoutes.AddToCart | routes/auth.js:202-266 | 400 when a field is missing, 404 for an unknown user; otherwise 200 and the user's cart becomes `AddLine` of the old cart, and nothing else changes |
| AuthRoutes.HandleAddToCart | routes/auth.js:202-266 | the users after the call and the reply are `AddToCart` of the old users |
| AuthRoutes.GetCart | routes/auth.js:269-301 | 200 with the stored cart when the lower-cased email is registered, 404 otherwise |
| AuthRoutes.RemoveFromCart | routes/auth.js:304-337 | 404 for an unknown user; otherwise only that user's cart changes, to the cart without the line |
| AuthRoutes.HandleRemoveFromCart | routes/auth.js:304-337 | the users after the call and the reply are `RemoveFromCart` of the old users |
| AuthRoutes.UpdateCart | routes/auth.js:339-388 | 400 for a quantity below 1; 404 for an unknown user or line; otherwise only that line's quantity changes |
| AuthRoutes.HandleUpdateCart | routes/auth.js:339-388 | the users after the call and the reply are `UpdateCart` of the old users |
| AuthRoutes.RegisterThenLogin | routes/auth.js:8-116 | after registering, logging in with the same password and any casing of the email returns the new user |
| AuthRoutes.RegisterTwiceRefused | routes/auth.js:18-23 | a second registration of the same email, in any casing, is refused and changes nothing |
| AuthRoutes.GoogleAccountRefusesPassword | routes/auth.js:80-84 | an account created by Google sign-in cannot log in with a password (401) |
| AuthRoutes.GoogleSignInIdempotent | routes/auth.js:127-148 | signing in with Google twice with the same data leaves the users as after the first time |
| AuthRoutes.RegisterKeepsWellFormed | routes/auth.js:28-36 | registration keeps the users well formed at the advanced id counter |
| AuthMiddleware.HandleRegister | middleware/auth.js:9-58 | the older router's registration is `AuthRoutes.Register` |
| AuthMiddleware.Login | middleware/auth.js:61-112 | like the mounted login but without the provider check: any account with a matching password logs in |
| AuthMiddleware.EnsureUser | middleware/auth.js:115-154 | 400 without an email; an existing user is returned unchanged; otherwise a user is created with the lower-cased email, the given name and image (or ""), the given provider or 'google', no password and an empty cart |
| AuthMiddleware.HandleEnsureUser | middleware/auth.js:115-154 | the users after the call and the reply are `EnsureUser` of the old users |
| AuthMiddleware.EnsureUserIdempotent | middleware/auth.js:126-136 | calling it twice gives the same user and the same users as calling it once |
| AuthMiddleware.AddToCart | middleware/auth.js:189-243 | no field check: 500 when the email is absent, 404 for an unknown user, otherwise `AddLine` with whatever was given |
| AuthMiddleware.HandleAddToCart | middleware/auth.js:189-243 | the users after the call and the reply are the older router's `AddToCart` of the old users |
| AuthMiddleware.UpdateCart | middleware/auth.js:246-293 | 404 for an unknown user or line; a quantity below 1 removes the line, otherwise it is set |
| AuthMiddleware.HandleUpdateCart | middleware/auth.js:246-293 | the users after the call and the reply are the older router's `UpdateCart` of the old users |
| AuthMiddleware.UpdateBelowOneShrinksCart | middleware/auth.js:270-273 | a quantity below 1 shortens the cart by exactly one line |
| AuthMiddleware.HandleRemoveFromCart | middleware/auth.js:296-327 | the older router's delete is `AuthRoutes.RemoveFromCart` |
| CartVariants.Loosened | middleware/auth.js:191 | a complete request body read by the older router carries the same fields |
| CartVariants.AddAgreesOnCompleteBodies | middleware/auth.js:189-243 | on a body with every field present the two add-to-cart handlers agree |
| CartVariants.ZeroQuantityDiverges | middleware/auth.js:189-243 | quantity 0 is refused by the mounted router, but the older one answers 200 and leaves every key's total unchanged |
| CartVariants.UpdateAgreesFromOne | middleware/auth.js:246-293 | for quantities of at least 1 the two update handlers agree |
| CartVariants.UpdateBelowOneDiverges | middleware/auth.js:270-273 | below 1 the mounted router answers 400 while the older one deletes the line |
| CartVariants.LoginAgreesOffGoogle | middleware/auth.js:61-112 | the two logins agree whenever the account is not a Google account |
| CartVariants.LoginDivergesOnGoogleWithHash | middleware/auth.js:80-94 | a Google account with a matching hash is refused by the mounted router and let in by the older one |
| OrderModel.NewOrder | models/Order.js:38-47 | a new order is Cash on Delivery and Pending, carries the given fields, and is valid when numbered |
| OrderModel.OrderNumber | routes/orders.js:31 | the number is "BB", the timestamp and a 4-digit-padded counter |
| OrderModel.OrderNumberDecodes | routes/orders.js:31 | the number's digits after "BB" read back as the timestamp, then the counter plus one |
| OrderModel.SameMillisecondDistinct | routes/orders.js:30-31 | two different counts in the same millisecond give different numbers |
| OrderModel.CounterTail | routes/orders.js:31 | the counter can be read back from the number at the timestamp's width |
| OrderModel.ShiftedCounterIsSmaller | routes/orders.js:31 | read at a wider timestamp width, an older number's counter part is smaller than its counter |
| OrderModel.ProperSuffixIsSmaller | routes/orders.js:31 | dropping leading digits of a decimal makes its value smaller |
| OrderModel.SequentialNumbersDistinct | routes/orders.js:30-31 | orders placed in sequence, with a rising count and a non-decreasing clock, get different numbers |
| OrderModel.NumberIfMissing | models/Order.js:52-58 | the hook keeps a present number and fills a missing one with the generated number |
| OrderModel.NumberIfMissingIdempotent | models/Order.js:53 | running the hook twice is running it once |
| OrderModel.SaveAsWritten | models/Order.js:9-13 | save as Mongoose orders it: validation runs before the hook, so a saved order is the order given |
| OrderModel.HookNeverNumbersAsWritten | models/Order.js:52-58 | as written, an order without a number is never saved, so the hook never numbers it |
| OrderModel.Save | models/Order.js:38-58 | the hook's evident intent: a missing number is generated before validation, and a saved order is valid |
| OrderModel.SaveAgreesWhenNumbered | models/Order.js:52-58 | for an order that already has a number the two readings of save agree |
| OrderRoutes.PlaceOrder | routes/orders.js:11-60 | 400 for an incomplete body, 404 for an email that is not stored exactly, 500 for a number in use; otherwise 201, the order is appended and the cart emptied; a failing cart write answers 500 with the users unchanged, but the order built from the body (`BuiltFrom`) is already appended |
| OrderRoutes.CartFailureKeepsOrder | routes/orders.js:42-45 | a failing cart write stores the same orders as a successful one, and its reply is an error |
| OrderRoutes.HandlePlaceOrder | routes/orders.js:11-60 | the orders and users after the call and the reply are `PlaceOrder` of the old ones, and the id counter advances once per stored order |
| OrderRoutes.NextNumberIsFree | routes/orders.js:30-31 | while orders are placed in sequence, the next generated number is not yet in use |
| OrderRoutes.PlacementInSequence | routes/orders.js:30-45 | placement keeps the orders in sequence and succeeds exactly when the cart write succeeds |
| OrderRoutes.AppendInSequence | routes/orders.js:30-42 | appending the order numbered from the current count keeps the orders in sequence |
| OrderRoutes.PlacementKeepsWellFormed | routes/orders.js:33-45 | placement keeps users and orders well formed at the advanced id counter |
| OrderRoutes.MixedCaseEmailNotFound | routes/orders.js:22-28 | an email that is not lower-case never finds its user, so the order is refused with 404 |
| OrderRoutes.OrdersOf | routes/orders.js:79 | exactly the orders whose user is the given id |
| OrderRoutes.UserOrders | routes/orders.js:67-95 | 404 for an unknown email; otherwise exactly that user's orders, newest first |
| OrderRoutes.GetOrder | routes/orders.js:102-125 | 200 with the order when the id exists, 404 otherwise |
| OrderRoutes.PlacedOrderIsReadable | routes/orders.js:11-95 | a placed order can be fetched by its id and is listed among its user's orders |
| ProductModel.ToColors | models/Product.js:16-19 | each colour keeps its name, which is non-empty, and its hex code, in order |
| ProductModel.CreateDocument | models/Product.js:4-24 | a product is created exactly when the body passes the schema; it is valid, every given path is stored (the title trimmed, the colours as entries) and every absent optional path takes its default |
| ProductModel.Document | models/Product.js:4-24 | a body that passes the schema yields a valid product that stores every given path and the schema defaults for the absent ones |
| ProductModel.ApplyPatch | routes/admin.js:95-99 | every path the update gives overwrites the stored one (the title trimmed, the colours as entries), every absent path is kept, and the id and creation time never change |
| ProductModel.GivenColors | models/Product.js:16-19 | the colours of a body, as stored entries, exactly when the body gives colours |
| ProductModel.PatchKeepsValid | routes/admin.js:95-99 | with `runValidators`, a patch that passes validation keeps a valid product valid |
| ProductModel.EmptyPatchIsIdentity | routes/admin.js:95-99 | an empty patch changes nothing |
| ProductRoutes.Select | routes/products.js:10-17 | a product is selected exactly when it passes every active filter |
| ProductRoutes.Catalog | routes/products.js:5-32 | only matching products, sorted as the query asks; with a limit exactly the smaller of its absolute value and the number of matches; without a limit all matching products |
| ProductRoutes.LimitTakesPrefix | routes/products.js:25 | a limited listing is the first products of the same listing without the limit |
| ProductRoutes.SameMembers | routes/products.js:21-23 | sorting keeps the set of products |
| ProductRoutes.PrefixKeepsOrderAndMembers | routes/products.js:25 | the limited list is sorted and holds only sorted products |
| ProductRoutes.KeyOrder | routes/products.js:21-23 | the sort key orders by ascending price, descending price, or newest first |
| ProductRoutes.ListProducts | routes/products.js:26-28 | the reply carries the catalog and its count |
| ProductRoutes.CatalogIsComplete | routes/products.js:10-25 | without a limit every matching product is listed |
| ProductRoutes.CategoryAllIsNoFilter | routes/products.js:10 | category 'All' lists the same as no category |
| ProductRoutes.SelectAgrees | routes/products.js:10-17 | queries with the same filter verdicts select the same products |
| ProductRoutes.GetProduct | routes/products.js:34-44 | 200 with the product when the id exists, 404 otherwise |
| AdminAuth.ExtractToken | middleware/adminAuth.js:5 | no header gives no token; a header without "Bearer " is used as it is; otherwise the token is the header with its first "Bearer " cut out, wherever it stands |
| AdminAuth.Guard | middleware/adminAuth.js:3-32 | 401 without a token or for one that fails verification, 403 for a non-admin token; the request passes exactly with a verified admin token, and carries its claims |
| AdminAuth.BearerHeaderYieldsToken | middleware/adminAuth.js:5 | "Bearer t" yields exactly t |
| AdminAuth.AdminTokenPasses | middleware/adminAuth.js:14-25 | an admin's verified token passes the guard with that admin's claims |
| AdminAuth.UserTokenForbidden | middleware/adminAuth.js:17-22 | a verified token without the admin flag is refused with 403 |
| AdminRoutes.AdminLogin | routes/admin.js:10-48 | 401 for an unknown username or a wrong password, 500 without a password; on success the admin's claims are returned and only that admin's last login is set |
| AdminRoutes.HandleAdminLogin | routes/admin.js:10-48 | the admins after the call and the reply are `AdminLogin` of the old admins |
| AdminRoutes.LoginTokenOpensAdminRoutes | routes/admin.js:27-50 | the token issued at admin login opens the guarded admin routes |
| AdminRoutes.AllOrders | routes/admin.js:52-62 | every order, newest first (a permutation of the stored orders) |
| AdminRoutes.SetOrderStatus | routes/admin.js:64-78 | only the order with that id gets the new status, every other order is unchanged, and the updated order is returned exactly when the id exists |
| AdminRoutes.UnlistedStatusIsStored | routes/admin.js:68-72 | without validators, a status outside the enum is stored and leaves an invalid order |
| AdminRoutes.SetOrderStatusKeepsWellFormed | routes/admin.js:68-72 | a status change keeps the orders well formed |
| AdminRoutes.CreateProduct | routes/admin.js:80-91 | 201 and the product appended exactly when the body passes the schema; the product stores every given path of the body with the admin as creator and the schema defaults otherwise; on a refused body 500 and nothing changes |
| AdminRoutes.UpdateProduct | routes/admin.js:93-109 | 500 for a patch that fails validation, 404 for an unknown id; otherwise only that product is replaced by the patched one |
| AdminRoutes.DeleteProduct | routes/admin.js:111-123 | 200 exactly when the id exists, and that product is removed; 404 and nothing changes otherwise |
| AdminRoutes.DeleteRemovesExactlyThatProduct | routes/admin.js:113 | with distinct ids, deletion removes one product, the one with that id, and keeps all others |
| AdminRoutes.UpdateProductKeepsWellFormed | routes/admin.js:95-99 | an update keeps the products well formed |
| AdminRoutes.DeleteProductKeepsWellFormed | routes/admin.js:113 | a deletion keeps the products well formed |
| AdminRoutes.CountStatus | routes/admin.js:129 | the count is at most the number of orders, is 0 exactly when no order has the status, and equals the number of orders exactly when all have it |
| AdminRoutes.CountStatusAppend | routes/admin.js:129 | counting over two runs of orders is the sum of the two counts |
| AdminRoutes.PlacementAddsPending | routes/admin.js:129 | a newly placed (Pending) order raises the pending count by one |
| AdminRoutes.LeavingPendingLowersCount | routes/admin.js:129 | moving one Pending order to another status lowers the pending count by one |
| AdminRoutes.DashboardStats | routes/admin.js:125-147 | the totals are the numbers of products and orders, the pending figure is the count of Pending orders, and the revenue is the sum of the totals of the orders not Cancelled (0 when none) |
| AdminRoutes.RevenueAppend | routes/admin.js:130-133 | revenue over two runs of orders is the sum of their revenues |
| AdminRoutes.RevenueNonNegative | routes/admin.js:130-141 | with non-negative totals, revenue is non-negative |
| AdminRoutes.AllCancelledEarnNothing | routes/admin.js:130-141 | when every order is cancelled, revenue is 0 (the `\|\| 0` case) |
| AdminRoutes.RevenueUpdate | routes/admin.js:130-133 | changing one order changes revenue by the difference of its contributions |
| AdminRoutes.PlacementAddsToRevenue | routes/admin.js:130-133 | a newly placed (Pending) order adds its total to revenue |
| AdminRoutes.CancellingRemovesRevenue | routes/admin.js:130-133 | cancelling an order removes exactly its total from revenue |
| AdminRoutes.Dispatch | routes/admin.js:50-147 | reads change nothing and succeed; a status update touches only orders; product routes touch only products; a new product is created by the calling admin |
| AdminRoutes.HandleSetOrderStatus | routes/admin.js:64-78 | the orders after the call and the reply are `SetOrderStatus` of the old orders |
| AdminRoutes.HandleCreateProduct | routes/admin.js:80-91 | the products after the call and the reply are `CreateProduct` of the old products, with the counter as the id |
| AdminRoutes.HandleUpdateProduct | routes/admin.js:93-109 | the products after the call and the reply are `UpdateProduct` of the old products |
| AdminRoutes.HandleDeleteProduct | routes/admin.js:111-123 | the products after the call and the reply are `DeleteProduct` of the old products |
| AdminRoutes.HandleAdminRequest | routes/admin.js:50 | a rejected request answers with the guard's status and changes nothing; an admitted one is `Dispatch` with the token's admin |
| AdminRoutes.ServeAdmin | routes/admin.js:50 | an admitted request's reply and the stored orders and products are `Dispatch` of the old store with that admin |
| AdminRoutes.ServeProductWrite | routes/admin.js:80-123 | for the create, update and delete product routes, the reply and the new store are `Dispatch` of the old store |
| DbConfig.BootstrapAdmins | config/db.js:23-44 | an existing admin or an unset password leaves the admins unchanged; otherwise exactly one superadmin is added under that username, with a hash of the password |
| DbConfig.BootstrapIdempotent | config/db.js:26-37 | running the bootstrap twice is running it once |
| DbConfig.BootstrapEstablishesAdmin | config/db.js:23-44 | with a password set, the configured admin exists afterwards |
| DbConfig.CreateInitialAdmin | config/db.js:23-44 | the admins after the call are `BootstrapAdmins` of the old admins, and the id counter advances only when one is added |

## Left out

- `GET /auth/me` (routes/auth.js:176-198) decodes a JWT and reads a user; token signing and verification are outside the model. A profile read adds nothing to the state model.
- `populate('user')` / `populate('cart.product')`: joins on read that change no state. Replies carry the stored ids instead.
- The user and admin schemas (`models/User.js`, `models/Admin.js`) are not part of this model. Their own validation failures, such as a malformed email, are not modelled.
- Token signing, secrets and expiry: the verifier is a parameter.
- `updatedAt` timestamps: they are never read.
- Console logging and the texts of JSON messages: replies carry only the status and the data.
- Floating point: prices, totals and quantities are integers.
- Concurrency: each request runs atomically against the store. Interleaved `countDocuments` calls that could produce the same order number are not modelled. A clash is answered with 500 through the unique index.
- Full `$regex` semantics: a search text is a literal, case-insensitive substring. Regex metacharacters are not interpreted.
- Case folding applies to ASCII letters only. `trim` removes ASCII white space (space, tab through carriage return) and the no-break space U+00A0; the other Unicode white space and line terminators that JavaScript also removes (U+1680, U+2000–U+200A, U+2028, U+2029, U+202F, U+205F, U+3000, U+FEFF) are kept.
- Request values of the wrong JSON type, such as a number where a string is expected or an array as a name, are out of scope.
- Malformed ObjectIds, which make Mongoose throw a cast error answered with 500, are out of scope. Ids are naturals.
- `parseInt` of a non-numeric limit (NaN) is out of scope. A limit is an optional integer.
- An absent `name` or `image` in the Google sign-in body or in `POST /user` is the same as an empty one.
- AuthMiddleware.AddToCart: the older router checks no field, but the model takes `productId`, `quantity`, `size` and `color` as given. An absent quantity would make a merge store NaN, which fails the cast and answers 500. On an append it would store a line without a quantity.
- AuthMiddleware.UpdateCart: a missing `quantity` is not modelled. `undefined < 1` is false, so the line's quantity would be set to undefined.
- ProductModel.ShortDescriptionOk: the 200 limit counts characters, while `maxlength` counts UTF-16 code units. A character outside the Basic Multilingual Plane, such as an emoji, counts once here and twice in the source.
- Base.HashPassword: bcrypt is idealised as matching exactly the hashed password. bcrypt's truncation of passwords to 72 bytes, under which two long passwords sharing those bytes both match, is not modelled.
- AuthRoutes.UpdateCart: a missing `quantity` is not modelled. `undefined < 1` is false in JavaScript, so such a request would store an undefined quantity.
- AdminRoutes.AdminLogin: an absent username is not modelled. `findOne({ username: undefined })` matches an arbitrary admin.
- DbConfig.BootstrapAdmins: an unset `ADMIN_USERNAME` is not modelled; the username is always a string. In config/db.js:26 `findOne({ username: undefined })` matches any stored admin, so with any admin present nothing would be inserted. With none, `Admin.create` would run without a username, and what the admin schema then does is not part of this model.
- OrderRoutes.PlaceOrder: one clock reading per request. The order number's timestamp (`Date.now()` at routes/orders.js:31) and `createdAt` (stamped by `timestamps: true` when the order is saved at routes/orders.js:42) are taken as the same instant `now`. In the source the number's millisecond is at most `createdAt`, and the two can differ. The lemmas about numbers (NextNumberIsFree, SequentialNumbersDistinct) use only the number's timestamp.
- AdminRoutes.UpdateProduct: with `runValidators` Mongoose validates the patch before looking the id up. So an invalid patch to an unknown id answers 500, and the model gives 500 in that case too. Cast errors of the patch are folded into "fails validation".
- The older router's `GET /cart/:email` and `DELETE /cart/:email/:itemId` behave exactly as `AuthRoutes.GetCart` and `AuthRoutes.RemoveFromCart`. `AuthMiddleware.HandleRemoveFromCart` reuses the latter.
- `server.js`, `checkAdmin.js` and `scripts/seedProducts.js` (wiring, a diagnostic script, seed data) are not part of this model.

## Findings

| source | as written | input that shows it | evidently intended | confidence | as-written member | corrected member |
|---|---|---|---|---|---|---|
| models/Order.js:52-58 | Mongoose runs schema validation before user `pre('save')` hooks, so `orderNumber`'s `required` rejects a document without a number before the hook can fill one in. | An order saved with an empty `orderNumber`: validation fails, and the hook never numbers it. | The hook numbers a new order before validation (a `pre('validate')` hook). | not executed | OrderModel.HookNeverNumbersAsWritten | OrderModel.Save |
