# Route handlers of an e-commerce REST backend, modelled in Dafny

The backend is an Express application over a PostgreSQL database reached
through Sequelize. This project models the handlers behind five routers:

- the shopping cart (`routes/cart.js`);
- user registration, login and profile update (`routes/user.js`);
- admin registration, login and details (`routes/admin.js`);
- the product catalogue (`routes/Product.js`);
- promo codes (`routes/promoCode.js`).

Every table is a `map` from primary key to a row datatype. A `XTables`
datatype holds the maps of one router plus the next value of each serial id
sequence, and a ghost `TablesValid` predicate states the keys and unique
columns the schema or the handlers maintain. Each handler is modelled twice:

- as a function from the tables before the request to a `Handled(response,
  tables)` pair, whose contract gives the status codes, the error cases and
  the new state;
- for the handlers that write, as a method on a class (`IdentityDb`,
  `CartDb`, `ProductDb`, `PromoCodeDb`) whose fields are the maps. The method
  follows the source step by step and is proved to end in exactly the state
  and response the function gives.

Read-only handlers (GET, login, admin details) are functions only. Each
handler runs atomically.

Request bodies are JavaScript values. A body field is a `Field<T>`, one of
`Undefined`, `Null` or `Given(v)`. This keeps apart the three tests the code
uses:

- truthiness (`if (firstname)`);
- `!== undefined`;
- Sequelize's treatment of a create or update value: `undefined` means the
  column default or no change, `null` hits a NOT NULL check.

bcrypt, jsonwebtoken and `validator.isEmail` are foreign code. They enter as
function parameters: `Auth.Crypto` holds `hash`, `compare`, `sign` and
`verify`. The round-trip lemmas assume `Auth.Sound`, which says:

- a password matches its own hash;
- a freshly signed token verifies to its claims;
- a token contains no space.

The id that `crypto.randomBytes` draws for a new user is a parameter of
`Register`.

The bearer-token gate is the same code in `routes/user.js:13-24` and
`routes/admin.js:11-22`. It is modelled once, as `Auth.Authenticate`.

## Behaviour worth noting

The code behaves as follows in four places where a reader might expect
otherwise:

- GET on a user without a cart answers 404 "Cart not found", not an empty
  cart.
- Nothing keeps cart quantities positive. `CartRoutes.EmptyingLineKeepsIt`
  shows that a line can be brought to 0.
- There is no separate set-quantity route for carts.
- The admin email check looks at both tables, but user registration looks
  only at `users`. `AdminRoutes.UserMayTakeAdminEmail` shows the result.

## Model

| member | source | states |
|---|---|---|
| Http.OrNull | routes/user.js:69-70 | `phone \|\| null`: a value is stored exactly when the field is truthy, and then it is the field's string |
| Validation.FirstError | routes/user.js:41-45 | no error exactly when every validation chain passes; otherwise the message of the first failing chain in declaration order |
| Auth.Split | routes/user.js:15 | `split(' ')` yields at least one piece, no piece holds the separator, and a string without it yields itself |
| Auth.SplitThenJoin | routes/user.js:15 | joining the pieces of a split with the separator gives back the string |
| Auth.JoinThenSplit | routes/user.js:15 | splitting a join of separator-free pieces gives back the pieces |
| Auth.BearerToken | routes/user.js:14-17 | a token is found only in a present header, is non-empty and holds no space, and is the word between the header's first space and the next space or the end |
| Auth.BearerTokenOfHeader | routes/user.js:15 | conversely, every header `<scheme> <token>`, optionally followed by a space and anything, yields that token, whatever the scheme word |
| Auth.Authenticate | routes/user.js:13-24 | 401 exactly when no token is found, 403 exactly when `verify` rejects it, and otherwise the verified claims reach the handler |
| Auth.Refusal | routes/user.js:17-20 | a missing token answers 401 and a rejected one 403 |
| Auth.SignedTokenPasses | routes/user.js:19-22 | a token from `sign`, sent as `Bearer <token>`, passes the gate with exactly the claims it was signed with |
| Identity.FindUser | routes/user.js:51 | `User.findOne` by email finds a row exactly when one holds that email, and it is that row |
| Identity.FindAdmin | routes/admin.js:86 | `Admin.findOne` by email finds a row exactly when one holds that email, and it is that row |
| Identity.FindUserUnique | models/Users.js:21-24 | with unique emails, the row found by a row's email is that row |
| Identity.FindAdminUnique | models/Admin.js:21-24 | with unique emails, the admin found by an admin's email is that admin |
| Identity.IdentityDb.FindUserByEmail | routes/user.js:51 | the lookup the handler runs returns what `FindUser` gives |
| Identity.IdentityDb.FindAdminByEmail | routes/admin.js:44 | the lookup the handler runs returns what `FindAdmin` gives |
| UserRoutes.RegisterChecks | routes/user.js:34-39 | the 400 message is that of the first failing rule in the order first name, last name, email, password length; none when all pass |
| UserRoutes.NewUser | routes/user.js:63-71 | the inserted row has the drawn id, the request's names and email and the hash of the password; phone and address are null exactly when not truthy, and otherwise hold the value sent |
| UserRoutes.Register | routes/user.js:31-79 | 400 exactly when a validation fails or the email is taken, carrying the first failing rule's message or else "User with this email already exists"; 201 exactly when it passes, the email is free and the drawn id is new; a 201 keeps every old row and adds one row under the new id, found by its email; any other outcome leaves both tables unchanged; emails stay unique |
| UserRoutes.PostRegister | routes/user.js:40-78 | the handler's steps end in the response and tables `Register` gives, and keep the tables valid |
| UserRoutes.LoginChecks | routes/user.js:84-87 | the 400 message is "Invalid email format" when the email fails, else "Password is required" when the password is empty; none when both pass |
| UserRoutes.Login | routes/user.js:82-123 | 400 exactly on a validation error, carrying the first failing rule's message; 200 exactly when a user with that email exists and the password matches its hash, and the body is the token signed over that user's email and id; every 401 is the same "Invalid credentials" |
| UserRoutes.LoginFailuresAlike | routes/user.js:99-108 | an unknown email and a wrong password for a known one get identical responses |
| UserRoutes.RegisterThenLogin | routes/user.js:105-117 | after a 201 registration, login with the same credentials succeeds, and its token passes the gate carrying the new email and id |
| UserRoutes.Merge | routes/user.js:170-179 | names and email are replaced only by truthy values; phone and address by anything but `undefined`, with null clearing them; the password by the hash of a truthy one; the id never changes |
| UserRoutes.UpdateChecks | routes/user.js:141-144 | a missing email or password passes; one that is present, null included, must be an email or at least 6 characters, and the first failure gives the 400 message |
| UserRoutes.MergeIdempotent | routes/user.js:170-179 | with each PUT hashing under its own bcrypt salt, a second identical PUT ends where a single PUT with its salt would, agrees with the first on every column but the password hash, and on that too when no password is sent |
| UserRoutes.MergeEmptyRequest | routes/user.js:170-179 | a body with none of the six keys changes nothing |
| UserRoutes.UpdateUser | routes/user.js:138-189 | 401/403 exactly as the gate decides; a validation 400 with the first failing rule's message exactly when the token passes and a rule fails; 200 exactly when the token passes, the rules pass, a user holds the token's email and a changed email is free; 404 exactly when no user holds the token's email; the email-in-use 400 exactly when a truthy new email differs from the user's and is held by another row; a 200 replaces that one row by its merge; every other outcome changes nothing; emails stay unique |
| UserRoutes.MergeKeepsEmailsUnique | routes/user.js:162-172 | replacing a row by its merge keeps emails unique when a changed email is free |
| UserRoutes.PutUpdateUser | routes/user.js:152-183 | the field-by-field assignments and `save` end in the response and tables `UpdateUser` gives |
| AdminRoutes.RegisterAdminChecks | routes/admin.js:27-31 | the 400 message is that of the first failing rule in the order username, email, password length; none when all pass |
| AdminRoutes.RegisterAdmin | routes/admin.js:25-66 | 400 exactly when a validation fails or the email is held by a user or an admin, carrying the first failing rule's message or else "Email already in use", and leaving both tables unchanged; a duplicate username fails with 500 after the id sequence has advanced; a 201 inserts the admin under the next id with the hashed password; `users` never changes |
| AdminRoutes.PostRegisterAdmin | routes/admin.js:39-60 | the handler's steps end in the response and tables `RegisterAdmin` gives |
| AdminRoutes.LoginAdmin | routes/admin.js:69-110 | 400 exactly on a validation error, carrying the first failing rule's message; 200 exactly when an admin with that email exists and the password matches, with the token signed over that admin's email and id; every 401 is the same message |
| AdminRoutes.RegisterAdminThenLogin | routes/admin.js:92-104 | after a 201 admin registration, admin login with the same credentials succeeds and its token passes the gate |
| AdminRoutes.AdminDetails | routes/admin.js:113-127 | 401/403 as the gate decides; 404 exactly when no admin holds the token's email; otherwise the username and email of that admin |
| AdminRoutes.UserMayTakeAdminEmail | routes/user.js:51-54 | user registration succeeds with an email an admin already holds, so the two tables then share it |
| AdminRoutes.UserTokenOpensAdminDetails | routes/admin.js:115-119 | a user's login token opens the admin details of an admin with the same email |
| CartRoutes.FindCart | routes/cart.js:34 | `Cart.findOne` by user finds a cart exactly when the user owns one, and it is owned by that user |
| CartRoutes.FindLine | routes/cart.js:40 | `CartItem.findOne` by cart and product finds a line exactly when one exists, and it belongs to that cart and product |
| CartRoutes.FindCartUnique | routes/cart.js:34-37 | with one cart per user, the cart found for a cart's owner is that cart |
| CartRoutes.FindLineUnique | routes/cart.js:40-48 | with one line per (cart, product), the line found for a line's cart and product is that line |
| CartRoutes.IsLineUnique | routes/cart.js:40-48 | at most one line holds a given product in a given user's cart |
| CartRoutes.Quantity | routes/cart.js:40 | the quantity of a product in a user's cart is defined exactly when a line holds it, and is that line's quantity |
| CartRoutes.QuantitiesAfterAddCart | routes/cart.js:35-37 | creating a cart keeps the tables valid and changes no quantity |
| CartRoutes.QuantitiesAfterSet | routes/cart.js:44-45 | saving a line's quantity changes the quantity under that line's key only |
| CartRoutes.QuantitiesAfterInsert | routes/cart.js:46-48 | inserting a line for a product the cart lacks adds that key only and keeps (cart, product) unique |
| CartRoutes.QuantitiesAfterDelete | routes/cart.js:66-67 | destroying a line removes the quantity under its key only |
| CartRoutes.FoundLine | routes/cart.js:40 | in the user's cart, a line is found exactly when the user has a quantity for the product, and it is the line of that user and product |
| CartRoutes.NoCartNoLines | routes/cart.js:60-63 | a user without a cart has no quantity for any product |
| CartRoutes.GetCart | routes/cart.js:9-27 | 404 "Cart not found" exactly when the user has no cart; otherwise the user's cart with the quantity of exactly the products it holds |
| CartRoutes.OpenCart | routes/cart.js:34-37 | after find-or-create the user owns a cart; an existing cart is reused and the tables are unchanged; otherwise one cart is created under the next id; no quantity changes |
| CartRoutes.Added | routes/cart.js:44-48 | `quantity += n` adds n and `+= null` adds nothing; `+= undefined` gives NaN and fails; a new line takes the quantity sent or the default 1, and a null fails the NOT NULL check |
| CartRoutes.WriteLine | routes/cart.js:40-51 | 200 exactly when the new quantity is defined and fits an INTEGER: the old quantity plus the added one, unchanged for `null`, the given one or the default 1 for a new line; only that key changes; carts never change |
| CartRoutes.AddToCart | routes/cart.js:30-55 | the user has a cart afterwards, created only when none existed and kept even when the write fails; 200 or 500 "Error updating cart" as `WriteLine` decides; only the targeted (user, product) quantity changes |
| CartRoutes.RemoveFromCart | routes/cart.js:58-75 | 404 "Cart not found" exactly without a cart; 404 "Product not found in cart" exactly when the cart lacks the product; both leave the store unchanged; 200 removes exactly that quantity |
| CartRoutes.AddTwiceSums | routes/cart.js:42-48 | two successful POSTs of q1 then q2 leave the line where one POST of q1 + q2 would |
| CartRoutes.AddedSums | routes/cart.js:44 | adding q1 then q2 to an existing or new line is adding q1 + q2 |
| CartRoutes.AddThenRemove | routes/cart.js:40-71 | adding a product the cart lacks and removing it restores every quantity |
| CartRoutes.RemoveTwice | routes/cart.js:65-71 | a second DELETE of the same product answers "Product not found in cart" |
| CartRoutes.EmptyingLineKeepsIt | routes/cart.js:44-45 | a POST of minus the current quantity succeeds and leaves a line holding 0 |
| CartRoutes.CartDb.FindCartOf | routes/cart.js:34 | the lookup returns what `FindCart` gives |
| CartRoutes.CartDb.FindLineIn | routes/cart.js:40 | the lookup returns what `FindLine` gives |
| CartRoutes.CartDb.OpenCartOf | routes/cart.js:34-37 | find-or-create on the fields ends in the tables and cart `OpenCart` gives |
| CartRoutes.CartDb.WriteLineOf | routes/cart.js:40-51 | the in-place increment and save, or the insert, end in the response and tables `WriteLine` gives |
| CartRoutes.CartDb.PostCart | routes/cart.js:30-55 | the handler ends in the response and tables `AddToCart` gives |
| CartRoutes.CartDb.DeleteCartLine | routes/cart.js:58-75 | the handler ends in the response and tables `RemoveFromCart` gives |
| ProductRoutes.NewProduct | routes/Product.js:10-11 | a row is created exactly when name, category, image and price are given, the quantity is not null and fits an INTEGER; it holds exactly the supplied values, with quantity 0 when absent |
| ProductRoutes.CreateProduct | routes/Product.js:8-16 | 201 exactly when `NewProduct` accepts the body, returning the row stored under the next id; otherwise 500 "Error adding product" with the table unchanged |
| ProductRoutes.GetProduct | routes/Product.js:29-40 | the row stored under the id, or 404 "Product not found" exactly when there is none |
| ProductRoutes.ListProducts | routes/Product.js:19-26 | a product is listed exactly when GET by its id returns it |
| ProductRoutes.Overwritten | routes/Product.js:49-54 | the five assignments succeed exactly when all five fields are given and the quantity fits, and then give the row `NewProduct` would build under the same id |
| ProductRoutes.UpdateProduct | routes/Product.js:43-62 | 404 exactly when the id is absent; 500 exactly when a field is absent or null; both leave the table unchanged; 200 replaces that one row by the overwritten one and returns it |
| ProductRoutes.RemoveProduct | routes/Product.js:65-77 | 404 exactly when the id is absent, with the table unchanged; otherwise exactly that id is removed |
| ProductRoutes.CreateThenGet | routes/Product.js:10-12 | a created product is returned by GET under its id with the supplied name and price, and the list grows by exactly that row |
| ProductRoutes.UpdateThenGet | routes/Product.js:46-55 | after a 200 update, GET returns the returned row, and every other id answers as before |
| ProductRoutes.UpdateIdempotent | routes/Product.js:49-55 | the same PUT twice ends where one PUT ends |
| ProductRoutes.PartialUpdateFails | routes/Product.js:49-54 | a PUT that leaves out any of the five fields fails with 500 and changes nothing |
| ProductRoutes.DeleteThenGet | routes/Product.js:67-73 | after DELETE, GET, PUT and a second DELETE of that id all answer 404 |
| ProductRoutes.ProductDb.PostProduct | routes/Product.js:8-16 | the handler ends in the response and table `CreateProduct` gives |
| ProductRoutes.ProductDb.PutProduct | routes/Product.js:43-62 | checking the five fields, then assigning them and saving, ends in the response and table `UpdateProduct` gives |
| ProductRoutes.ProductDb.DeleteProduct | routes/Product.js:65-77 | the handler ends in the response and table `RemoveProduct` gives |
| PromoCodeRoutes.Created | routes/promoCode.js:8-9 | a row is built exactly when code and name are given and the discount is not null; it holds the supplied values, with discount 10, active and no expiration date as the defaults |
| PromoCodeRoutes.CreatePromoCode | routes/promoCode.js:6-15 | 201 exactly when the row passes the model's validators (non-blank code and name, discount in [0, 100]) and the code is free; a duplicate code fails with 500 after the id sequence has advanced; every other 500 changes nothing; codes stay unique and valid |
| PromoCodeRoutes.GetPromoCode | routes/promoCode.js:29-40 | the row stored under the id, or 404 "Promo code not found" exactly when there is none |
| PromoCodeRoutes.ListPromoCodes | routes/promoCode.js:18-26 | a promo code is listed exactly when GET by its id returns it |
| PromoCodeRoutes.Updated | routes/promoCode.js:52 | `promoCode.update` ignores undefined keys and assigns the others; it fails exactly when code, name or discount would become null |
| PromoCodeRoutes.UpdatePromoCode | routes/promoCode.js:43-58 | 404 exactly when the id is absent; 200 exactly when the updated row passes the validators and its code is held by no other row, replacing that one row; every non-200 leaves the table unchanged; codes stay unique and valid |
| PromoCodeRoutes.RemovePromoCode | routes/promoCode.js:61-74 | 404 exactly when the id is absent, with the table unchanged; otherwise exactly that id is removed |
| PromoCodeRoutes.CreateThenGet | routes/promoCode.js:8-10 | a created code is returned by GET under its id, and the list grows by exactly that row |
| PromoCodeRoutes.CreateTwiceFails | routes/promoCode.js:9-14 | posting the same body again fails with 500 on the unique code and leaves a gap in the id sequence |
| PromoCodeRoutes.ValidatorsDecide | models/PromoCode.js:5-27 | a code or name made only of white space (JavaScript `\s`), or a discount outside [0, 100], is refused with 500 on create and on update with nothing written; a row passing them with a free code is created |
| PromoCodeRoutes.EmptyUpdateKeepsRow | routes/promoCode.js:52-53 | a PUT with an empty body answers 200 with the stored row and changes nothing |
| PromoCodeRoutes.UpdateKeepingCode | routes/promoCode.js:52 | re-sending a row's own code does not conflict with the row itself |
| PromoCodeRoutes.UpdateThenGet | routes/promoCode.js:52-53 | after a 200 update, GET returns the returned row, and every other id answers as before |
| PromoCodeRoutes.DeleteThenGet | routes/promoCode.js:63-69 | after DELETE, GET, PUT and a second DELETE of that id all answer 404 |
| PromoCodeRoutes.PromoCodeDb.PostPromoCode | routes/promoCode.js:6-15 | validate, draw an id, insert: ends in the response and table `CreatePromoCode` gives |
| PromoCodeRoutes.PromoCodeDb.PutPromoCode | routes/promoCode.js:43-58 | the handler ends in the response and table `UpdatePromoCode` gives |
| PromoCodeRoutes.PromoCodeDb.DeletePromoCode | routes/promoCode.js:61-74 | the handler ends in the response and table `RemovePromoCode` gives |

## Left out

- `routes/paypalRoutes.js` (HTTP calls to PayPal, and a floating-point
  total) and `routes/email.js` (mail transport and templating): network I/O.
- `middleware/auth.js` repeats the gate of `routes/user.js:13-24` with a
  different status code. It is not part of this model.
- Three small routes of `routes/user.js`. They change no table, and their
  only logic is the gate, which `Auth.Authenticate` covers:
  - the welcome route `GET /` sends a fixed text and has no gate;
  - logout sends fixed JSON behind the gate;
  - the protected route sends back the claims the gate attaches.
- `app.js`, `sync.js`, `config/database.js` and `webpack.config.js`:
  bootstrap and configuration.
- bcrypt, jsonwebtoken, `validator.isEmail` and `crypto.randomBytes` are
  parameters. The one-hour token expiry is folded into `verify`. Each call
  of `hash` stands for one salt: the handlers take the function as given, and
  `UserRoutes.MergeIdempotent` takes one per PUT.
- Interleaved requests are not modelled. Each handler is atomic, so the
  find-then-create race of the cart POST, which could create a second cart
  or line, is not covered.
- The catch-all 500 responses for database or connection failures ("Login
  failed", "Error fetching cart", "Error fetching products", "Failed to fetch
  promo codes", and the like). The model keeps only the 500s the data itself
  causes: NOT NULL, unique, INTEGER range and validator failures, and an id
  collision.
- Column widths (`VARCHAR(n)`), FLOAT precision (prices and discounts are
  `real`), the `createdAt`/`updatedAt` timestamps of `promo_codes`, and the
  precision of JavaScript numbers beyond the INTEGER range check.
- Body values of the wrong JSON type (a number where a string is expected,
  a non-integer quantity, a date string), and URL ids that are not integers.
- CartRoutes.AddToCart: the `productId` of the body is taken as a given
  integer. A missing or null `productId` is not modelled.
- CartRoutes.GetCart: returns the quantity of each product in the cart,
  not the joined product rows that `include: Product` adds.
- Foreign keys between the router's tables and others are not modelled:
  `carts` to `users`, `cart_items` to `products`, and the delete cascade
  from products to cart lines. Each router's tables are modelled on their
  own.
- Three wiring defects:
  - the cart route uses the column names `userId`, `cartId` and
    `productId`, which differ from those the models declare;
  - `app.js` mounts only the user and admin routers, so the cart, product
    and promo-code routers are never reached;
  - the `include: Product` of GET cart needs a Cart–Product association
    that the models do not declare.

  The model follows each router's logic as written, as if the router were
  mounted, the names matched and the association existed.
- The JSON key of an error body. `Http.Response.Failure` carries only the
  status and the text. The source sends `{ error: ... }` for the validation
  400s, "User with this email already exists", "Email is already in use by
  another account" and the user and admin 500s. Every other failure,
  including the admin route's "Email already in use" 400, is sent as
  `{ message: ... }`. The cart, product and promo-code 500s also attach the
  raw error object under `error`.
- `validator.isEmail` is an unconstrained parameter. The model therefore
  admits an oracle that accepts the empty string, which a missing or null
  email reads as. The real validator rejects it, so a null email never
  reaches the NOT NULL `email` column there.
- The Sequelize `isEmail` validators on the `users` and `admins` models
  repeat the request validation, which runs first. They are not modelled
  again.
