# Sabor & Cia ordering core, modelled in Dafny

Sabor & Cia is a restaurant's online ordering system. Customers browse a menu, fill a cart and check out. The Express back end stores the order, a delivery address and line items in MySQL in one transaction, and charges the card through Stripe. Staff use an admin panel to move orders through their statuses. This project models that core and proves properties of the model:

- **`Server`** (`server.dfy`) covers the order, payment, address and account handlers of `backend/server.js`.
  - The database is one value `Db`: five tables as sequences of rows in insertion order, each with its AUTO_INCREMENT counter.
  - A `Store` object holds the database. Each handler is a method of `Store`.
  - Each method's postcondition gives the new database as a function of the old one. It also gives the reply: the HTTP code and the error message.
  - Every method keeps the invariant `Consistent`. It says:
    - keys are positive, strictly increasing and below their counter;
    - every line item belongs to an existing order;
    - every address reference of an order resolves;
    - each user has at most one primary address;
    - e-mails are distinct.
  - Order submission writes to a staged working copy. COMMIT publishes the copy; ROLLBACK drops it.
- **`Tables`** (`tables.dfy`) holds the row types and the pure table operations the handlers perform:
  - the rows a submission inserts;
  - `UPDATE … SET status`;
  - clearing the primary flag;
  - the follow-up queries of the order read;
  - the reset-token columns.
- **`Cart`** (`cart.dfy`) covers the cart reducer of `frontend/src/context/CartContext.tsx`: add, change quantity, remove, clear, total and item count.
- **`Menu`** (`menu.dfy`) is the menu page's category and search filter.
- **`Admin`** (`admin.dfy`) holds the admin panel's status labels, its status options and its status filter.
- **`Confirmation`** (`confirmation.dfy`) holds the confirmation page's choice of which order to fetch, its capitalised labels and its payment-method labels.
- **`Text`** (`text.dfy`) holds the string functions the pages rely on:
  - `toLowerCase`;
  - `includes`;
  - `String(n)`;
  - `padStart(6, '0')`, which gives the six-digit order number.
- **`Common`** (`common.dfy`) holds `Option`, JavaScript truthiness (`x || null`), `filter` and `findIndex`.
- **`Catalog`** (`catalog.dfy`) holds the menu records and the seed menu.

How the model represents its inputs:

- **Money** is integer cents. The server stores prices and totals exactly as the client sends them.
- **Failing SQL statements** are an input. In `fault: Option<nat>`, `Some(n)` means the n-th write statement of the request throws.
- **External results** are inputs too. This covers what Stripe answers, what `jwt.verify` accepts and what `bcrypt.hash` returns.
- **The initial order status** is the `status` column default of `pedidos`. The schema sets it, so the model keeps it as the store's constant `defaultStatus`.

Three behaviours of the code that the model keeps as they are:

- `UpdateStatus` accepts any of the six status values from any prior status (`backend/server.js:95-97`). There is no transition order.
- `total` is stored as sent and never compared with the line items (`backend/server.js:334-337`). So `PlaceOrder` stores it as is, and the model proves no relation between the total and the items.
- The Stripe call comes before every write of the payment handler, so a gateway failure writes nothing. A failing order update *after* the payment insert keeps the payment row (`backend/server.js:424-431`), and `Pay` states exactly that.

## Model

| member | source | states |
|---|---|---|
| Common.IntOrNull | backend/server.js:336 | `usuario_id \|\| null` is null exactly for an absent, null or zero id, and otherwise keeps the id |
| Common.StrOrNull | backend/server.js:336 | `observacao \|\| null` is null exactly for the empty text, and otherwise keeps it |
| Common.Filter | frontend/src/context/CartContext.tsx:33 | `filter` keeps exactly the elements satisfying the predicate and never lengthens the list |
| Common.FindFirst | backend/server.js:367-369 | the first row a query returns: nothing iff no row matches, and otherwise the least index of a matching row |
| Cart.AddToCart | frontend/src/context/CartContext.tsx:19-25 | after adding, the item is in the cart; the length is unchanged if it was there and one more if not |
| Cart.MapQuantityAt | frontend/src/context/CartContext.tsx:23-29 | with unique ids, the `map` over the cart rewrites the quantity of the entry with that id and leaves every other position as it was |
| Cart.MapQuantityAbsent | frontend/src/context/CartContext.tsx:23-29 | the `map` over a cart without that id returns the cart unchanged |
| Cart.AddNewAppends | frontend/src/context/CartContext.tsx:24 | a new item is appended with quantity 1 |
| Cart.AddExistingIncrements | frontend/src/context/CartContext.tsx:21-23 | an item already present gets quantity + 1 and every other entry is unchanged |
| Cart.AddPreservesWellFormed | frontend/src/context/CartContext.tsx:19-25 | adding keeps ids unique and quantities positive |
| Cart.AddCount | frontend/src/context/CartContext.tsx:19-25 | adding raises the item count by exactly one |
| Cart.AddTotal | frontend/src/context/CartContext.tsx:37 | adding raises the total by exactly the price of the entry that represents the item |
| Cart.UpdateQuantity | frontend/src/context/CartContext.tsx:27-30 | the length is unchanged and the changed item's quantity is at least 1 |
| Cart.UpdateSetsQuantity | frontend/src/context/CartContext.tsx:29 | the matching entry gets `max(1, quantity + delta)` and keeps its item; every other entry is unchanged |
| Cart.UpdateAbsentUnchanged | frontend/src/context/CartContext.tsx:29 | updating an id not in the cart changes nothing |
| Cart.UpdatePreservesWellFormed | frontend/src/context/CartContext.tsx:27-30 | updating keeps ids unique and quantities positive |
| Cart.UpdateCount | frontend/src/context/CartContext.tsx:38 | the count changes by the clamped new quantity minus the old one |
| Cart.RemoveFromCart | frontend/src/context/CartContext.tsx:32-33 | the id is gone, and exactly the other entries remain |
| Cart.RemoveKeepsOrder | frontend/src/context/CartContext.tsx:33 | the remaining entries keep their order |
| Cart.RemoveIdempotent | frontend/src/context/CartContext.tsx:33 | removing twice is removing once |
| Cart.RemovePreservesWellFormed | frontend/src/context/CartContext.tsx:33 | removal keeps ids unique and quantities positive |
| Cart.RemoveTotals | frontend/src/context/CartContext.tsx:37-38 | removal lowers the count by the entry's quantity and the total by its subtotal |
| Cart.ClearCart | frontend/src/context/CartContext.tsx:35 | the cleared cart holds no id, is well formed, and its total and count are 0 |
| Cart.AddAfterClear | frontend/src/context/CartContext.tsx:35 | after clearing, the next add gives one entry of quantity 1, count 1 and total equal to the item's price |
| Cart.Total | frontend/src/context/CartContext.tsx:37 | the left `reduce` total equals the structural sum of price × quantity |
| Cart.CartCount | frontend/src/context/CartContext.tsx:38 | the left `reduce` count equals the structural sum of the quantities |
| Cart.CountAtLeastEntries | frontend/src/context/CartContext.tsx:38 | with positive quantities the count is at least the number of entries |
| Menu.FilteredItems | frontend/src/pages/MenuPage.tsx:20-24 | the shown items are a subsequence of the menu; an item is shown iff its category matches (or "Todos") and its lowered name contains the lowered query |
| Menu.AllWithEmptySearch | frontend/src/pages/MenuPage.tsx:21-22 | "Todos" with an empty query shows the whole menu in order |
| Menu.NameContainsQuery | frontend/src/pages/MenuPage.tsx:22 | every shown item's lowered name has the lowered query at some position |
| Menu.SearchIgnoresCase | frontend/src/pages/MenuPage.tsx:22 | a query and its lowered form show the same items |
| Menu.FilterStable | frontend/src/pages/MenuPage.tsx:20-24 | filtering the shown list again changes nothing |
| Menu.SeedMenuCovered | frontend/constants.ts:4-57 | every seed menu item is in one of the listed categories, and its own tab shows it while the search is empty |
| Text.Lower | frontend/src/pages/MenuPage.tsx:22 | lowering keeps the length and lowers each character |
| Text.LowerIdempotent | frontend/src/pages/MenuPage.tsx:22 | lowering twice is lowering once |
| Text.IncludesIff | frontend/src/pages/MenuPage.tsx:22 | `Includes`, the window-by-window `includes`, holds iff the needle occurs at some position |
| Text.IncludesEmpty | frontend/src/pages/MenuPage.tsx:22 | every string includes the empty string |
| Text.Decimal | frontend/src/pages/AdminPanel.tsx:312 | `String(id)` is a non-empty digit string with no leading zero except for 0 |
| Text.ParseDecimalOfDecimal | frontend/src/pages/AdminPanel.tsx:312 | reading the digits of `String(id)` gives back the id |
| Text.PadStart | frontend/src/pages/AdminPanel.tsx:312 | `padStart` leaves a long string alone and otherwise prefixes fill characters up to the width |
| Text.OrderNumber | frontend/src/pages/ConfirmationPage.tsx:118 | the displayed number has length max(6, digits of the id), ends with the id's digits and starts with zeros |
| Text.OrderNumberRoundTrip | frontend/src/pages/AdminPanel.tsx:105 | the displayed number is all digits and reads back as the order id |
| Text.OrderNumberInjective | frontend/src/pages/AdminPanel.tsx:312 | distinct orders display distinct numbers |
| Text.SixDigitIds | frontend/src/pages/AdminPanel.tsx:312 | ids below 1 000 000 display as exactly six characters |
| Admin.StatusOptions | frontend/src/pages/AdminPanel.tsx:19 | the options' values are the label table's keys in order, which are exactly the server's six statuses (the label half of each `{ value, label }` pair is `Admin.LabelOf`) |
| Admin.OptionsAreServerStatuses | frontend/src/pages/AdminPanel.tsx:10-19 | the panel's options are exactly the server's accepted statuses, in the same order |
| Admin.LabelOf | frontend/src/pages/AdminPanel.tsx:109-110 | `STATUS_LABELS[status]?.label` is defined iff the status is one the server accepts, and is then that status's label |
| Admin.FilterOrders | frontend/src/pages/AdminPanel.tsx:242 | "todos" shows every order; any other filter shows a subsequence holding exactly the orders with that status |
| Admin.FilterOrdersAppend | frontend/src/pages/AdminPanel.tsx:242 | a new order appears at the end of the filtered list iff it passes the filter |
| Admin.FilterOrdersIdempotent | frontend/src/pages/AdminPanel.tsx:242 | filtering the filtered list again changes nothing |
| Confirmation.OnMount | frontend/src/pages/ConfirmationPage.tsx:43-48 | the page goes home iff neither the URL parameter nor the stored id is set; otherwise it fetches the URL id, falling back to the stored one |
| Confirmation.OrderUrlInjective | frontend/src/pages/ConfirmationPage.tsx:48 | distinct ids fetch distinct URLs |
| Confirmation.Capitalize | frontend/src/pages/ConfirmationPage.tsx:132 | the length is kept, the first character is upper-cased and the rest is unchanged |
| Confirmation.CapitalizeIdempotent | frontend/src/pages/ConfirmationPage.tsx:132 | capitalising twice is capitalising once |
| Confirmation.StatusKeepsUnderscore | frontend/src/pages/ConfirmationPage.tsx:132 | the confirmation page shows "em_preparo" as "Em_preparo", not the admin label "Em preparo" |
| Confirmation.PaymentStatusLabels | frontend/src/pages/ConfirmationPage.tsx:197 | the two stored payment statuses display as "Aprovado" and "Recusado" |
| Confirmation.MethodLabel | frontend/src/pages/ConfirmationPage.tsx:64-68 | a known method shows its label; the raw tag is shown exactly for tags without a label |
| Server.Authorize | backend/server.js:35-44 | the middleware passes iff the token verifies; otherwise it answers 401 with "no token" or "invalid token" |
| Tables.OrderAddress | backend/server.js:324-326 | the inline address row gets the next key and is never primary; its owner is `usuario_id` when that is truthy and null otherwise; street, number, district, city, state and postcode are copied as sent, and the complement is null when empty and the text sent otherwise |
| Tables.SavedAddresses | backend/server.js:321-332 | one address row is written iff the address has a street, and none otherwise |
| Tables.OrderRecord | backend/server.js:334-337 | the order row gets the next key, the saved address's key, `metodo_pag` and the total as sent, and the default status; owner and note are null exactly when falsy and otherwise the values sent |
| Tables.ItemRows | backend/server.js:340-345 | one line item per cart entry, in order, with consecutive keys from the item counter, the order's key, no product and the entry's name, price and quantity |
| Tables.ItemRowsKeyed | backend/server.js:340-345 | appending the line items keeps the item keys increasing and advances the counter by their number |
| Tables.KeyedAppend | backend/server.js:338 | appending a row carrying the counter's value (`insertId`) keeps the table keyed with the counter raised by one |
| Tables.KeyedIff | backend/server.js:338 | a keyed table has keys that are positive, strictly increasing and below the counter |
| Server.Store.StageOrder | backend/server.js:321-345 | the staged writes succeed iff none of the address, order and item statements throws, and then the working copy is the submitted order placed |
| Server.PlaceOrderAppends | backend/server.js:321-347 | a submission only appends: existing rows keep their places, payments and users are untouched, and each table and counter grow by exactly the rows inserted (0 or 1 address, one order, one item per entry) |
| Server.Store.CreateOrder | backend/server.js:308-357 | no items gives 400 with the store unchanged; a throwing statement gives 500 with the store unchanged (rollback); otherwise 201 with the new key, and the store holds the placed order |
| Server.PlaceOrderConsistent | backend/server.js:321-347 | committing a submission keeps every key, reference, primary-flag and e-mail invariant |
| Server.PlaceOrderReadsBack | backend/server.js:334-349 | reading the new key back gives the new row, exactly the new line items in submission order, the saved address iff a street was given, the owner's contact and whatever payment already names the key |
| Server.OrderDetailOf | backend/server.js:359-385 | the read finds nothing iff no order has the key; otherwise it finds that order, its items as `ItemsOf` (exactly those with its key, in table order), its address as `AddressOf` of its reference, its payment as `FirstPaymentOf` and its customer as `ContactOf` of its owner (the LEFT JOIN) |
| Server.Store.GetOrder | backend/server.js:359-385 | 404 "Pedido não encontrado." iff no order has the key; otherwise 200 with that order, the body being exactly the joined read `OrderDetailOf` |
| Tables.ItemsOf | backend/server.js:370 | the item query returns exactly the line items with the order's key, as a subsequence of the table (table order, see Left out) |
| Tables.ContactOf | backend/server.js:361-365 | the LEFT JOIN gives a contact iff the order has an owner who exists, and then it is that user's name, e-mail and phone |
| Tables.AddressOf | backend/server.js:373-378 | the address is null for a null reference or a missing row, and otherwise is the row with that key |
| Tables.FirstPaymentOf | backend/server.js:380-381 | the payment is null iff no payment names the order, and otherwise is the first one in table order |
| Server.DetailAddressResolves | backend/server.js:373-378 | in a consistent store, the read's address is null exactly when the order's address reference is |
| Server.UserOrdersNewestFirst | backend/server.js:389-392 | in a keyed order table the user's list has keys strictly decreasing (newest first) |
| Server.UserOrders | backend/server.js:389-392 | the user's list holds all and only that user's orders |
| Server.Store.ListByUser | backend/server.js:393-396 | each of the user's orders, newest first, is paired with exactly its line items |
| Server.Store.UpdateStatus | backend/server.js:92-100 | 401 from the middleware, 400 for a status outside the six, 500 when the update throws, all with the store unchanged; otherwise 200, with only that order's status changed |
| Tables.SetStatus | backend/server.js:97 | every row with the key gets the new status; keys and places are kept, and the rows with other keys are exactly as they were |
| Server.SetStatusReadsBack | backend/server.js:92-100 | after a status change, reading that order gives the previous read with only the status replaced, and every other order reads as before |
| Tables.SetStatusKeyed | backend/server.js:97 | a status update keeps the order keys |
| Server.SetStatusKeepsReferences | backend/server.js:97 | a status update keeps the store consistent |
| Tables.PaymentStatus | backend/server.js:422 | the stored payment status is "aprovado" iff the intent succeeded, and "recusado" otherwise |
| Tables.ReplyStatus | backend/server.js:435 | the reply says "approved" iff the stored status is "aprovado", and "rejected" otherwise |
| Tables.ReplyReportsIntent | backend/server.js:422-435 | the reply says "approved" exactly when the intent succeeded |
| Server.Store.Pay | backend/server.js:405-441 | no card token gives 400 and a throwing gateway 500, both with the store unchanged; a falsy `pedido_id` only replies; otherwise the payment row ("aprovado" iff the intent succeeded) is appended, the order becomes "confirmado" iff approved and the update does not throw, and a throwing update gives 500 but keeps the payment row; the reply maps the stored status to approved/rejected |
| Server.Store.SaveAddress | backend/server.js:282-295 | a primary address first clears the user's other primary flags; a failure of that update changes nothing; a failure of the insert keeps the clearing; success appends the row with the next key and answers 201 with it |
| Tables.ClearPrimary | backend/server.js:287 | afterwards none of the user's addresses is primary; every row keeps its key, place and every column but the flag, and other users' rows are unchanged |
| Tables.ProfileAddress | backend/server.js:289-291 | the saved row has the next key, the path's user as owner and the requested primary flag; street, number, district, city, state and postcode are copied as sent, and the complement is null when empty and the text sent otherwise |
| Tables.ClearPrimaryEffect | backend/server.js:286-288 | clearing a user's flags keeps at most one primary address per user |
| Tables.ClearThenAppend | backend/server.js:286-292 | clearing and then inserting the user's new address keeps at most one primary address per user |
| Tables.AppendNonPrimary | backend/server.js:326 | adding a non-primary address keeps at most one primary address per user |
| Server.ClearPrimaryKeepsReferences | backend/server.js:286-288 | clearing primary flags keeps the store consistent |
| Server.Store.Register | backend/server.js:176-191 | missing fields, a password under 6 characters (400), a taken e-mail (409) and a throwing insert (500) leave the store unchanged; otherwise the user is appended with the next key, a null phone when empty and no reset token, and the reply is 201 `{ id, nome, email }` |
| Tables.UserWithEmail | backend/server.js:212-217 | the user the lookup finds is in the table and has that e-mail |
| Server.Store.RecoverPassword | backend/server.js:207-240 | a missing e-mail gives 400; an unknown e-mail gives 200 with the store unchanged; otherwise that user's token and expiry (now + 1 h) are stored, and the token is valid until then |
| Tables.StoreResetToken | backend/server.js:227-230 | that user's row holds the token and its expiry; keys, e-mails and hashes are kept, and other users are unchanged |
| Tables.StoredTokenMatches | backend/server.js:227-230 | a freshly stored token matches its user until its expiry instant |
| Server.Store.ResetPassword | backend/server.js:243-276 | a missing field, a short password, an unverifiable token, a wrong payload type, or a token not stored, expired or already used (all 400), and a throwing update (500) leave the store unchanged; otherwise only that user's hash changes and the token is cleared, so it matches at no time afterwards |
| Tables.ConsumeResetToken | backend/server.js:267-270 | that user's row has the new hash and no token; keys and e-mails are kept, and other users are unchanged |
| Tables.ResetTokenSingleUse | backend/server.js:267-270 | after a reset, the token no longer matches that user at any time |
| Tables.UpdateUsersKeyed | backend/server.js:227-230 | rewriting columns other than the key and the e-mail keeps the user table keyed with distinct e-mails |

## Left out

- **Rendering, routing and `fetch`.** React rendering, routing, `sessionStorage` and the `fetch` plumbing of the pages are left out; only the values the pages compute are modelled. `OnMount` returns the navigation or the URL to fetch.
- **Other pages and components.** The checkout, payment, login and register pages, the cart drawer and the menu card are not part of this model. They only call the modelled handlers and reducer.
- **Handlers not named here.** The admin login (`backend/server.js:50-65`), user login (154-173), the user read (195-204) and the address list (297-302) are left out. So are the admin order list and report queries (71-90, 102-123) and the product endpoints (129-147). They are read-only queries or sessions with no invariant beyond the modelled tables.
- **Stripe, JWT and bcrypt.** Stripe's `paymentIntents.create` is an input (`GatewayOutcome`), including the `Math.round(amount * 100)` conversion it receives. `jwt.sign`, `jwt.verify` and `bcrypt.hash` are inputs too: the token string, the verified payload and the hash.
- **Time.** `NOW()` and `DATE_ADD(NOW(), INTERVAL 1 HOUR)` are an integer clock in seconds passed in as `now`.
- **Order of a user's orders.** `criado_em` is modelled as insertion order. `ORDER BY criado_em DESC` is the reverse of insertion order, and two orders inserted in the same second are not told apart.
- **Queries without `ORDER BY`.** `LIMIT 1` on payments (`backend/server.js:380`) and the line-item queries (370, 394) return rows in insertion order in the model. MySQL does not promise that order, and the item equality of `PlaceOrderReadsBack` rests on it.
- **Money.** Money is integer cents. JavaScript numbers and MySQL `DECIMAL` rounding are left out.
- **Failures of reads.** Only the write statements of a handler can throw in the model. A failing `SELECT` (a 500 reply with no write) and a failing `getConnection` are left out.
- **Concurrency.** The connection pool, interleaved requests and the race between the e-mail check and the insert in registration are left out. Each handler runs alone.
- **AUTO_INCREMENT after a failed write.** A failed autocommit INSERT in `Pay`, `Register` or `SaveAddress` leaves the counter as it was in the model; MySQL may use up a value.
- **AUTO_INCREMENT on rollback.** A rolled-back submission also restores the AUTO_INCREMENT counters. InnoDB would not restore them, so later keys would skip values. Only key uniqueness and order are relied on.
- **E-mail comparison.** E-mails are compared exactly. The MySQL column collation (case-insensitive) is left out. `DistinctEmails` is the model's stand-in for the `UNIQUE` constraint.
- **Request values and lengths.** URL and body ids are integers, and JSON values of other types are not modelled. String lengths are counted in characters, whereas JavaScript counts UTF-16 units.
- **Text.UpperChar, Confirmation.Capitalize.** Upper-casing covers ASCII and Latin-1 only. `toUpperCase` turns "ß" into "SS", "ÿ" into "Ÿ" and "µ" into "Μ"; the model leaves all three unchanged, so for a leading "ß" the source lengthens the string where `Capitalize` keeps the length. `Text.Lower` likewise maps no character outside ASCII and Latin-1.
- **Absent address fields.** An absent `numero`, `bairro`, `cidade`, `estado` or `cep` is stored as "" in the model; the code passes `undefined`, which becomes NULL (`backend/server.js:291`, 326). Only `complemento` goes through `|| null`.
- **Confirmation.MethodLabel.** Method tags that collide with JavaScript object-prototype keys (such as "constructor") are not modelled.
- **Admin.LabelOf.** Status names that collide with JavaScript object-prototype keys (such as "constructor") are not modelled.
- **Confirmation.OnMount.** The URL and stored ids are kept as text. The backend's all-consuming integer parse of them is not modelled.
- **Logging.** `console.log` and the other console output are left out.
