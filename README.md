# Storefront cart, checkout and client state: a Dafny model

This project models the core of an e-commerce storefront. The core has an Express/MySQL
server, `server.js`, and React client code. Seven modules follow the program's structure:

- `Tables` (`tables.dfy`) holds the rows of the MySQL tables the cart and order routes touch.
  It defines the SQL statements of those routes as functions on the rows, and states the table
  constraints as invariants:
  - the cart's primary key and its `(user_id, product_id)` unique key
  - the foreign key from `cart.product_id` to the products, with `ON DELETE CASCADE`
  - the foreign keys from `cart.user_id` (with `ON DELETE CASCADE`) and `orders.user_id` to the
    users, held by the `Server` store
  - AUTO_INCREMENT ids
  - every order's `total_amount` equals the sum of its order lines
- `Server` (`server.dfy`) is the server as one `Store` object with one field per table. Each
  route is a method, and its contract states the answer (success or the route's error), which
  tables change and what they become. Every route preserves the invariants. The routes are:
  - `POST`, `PUT`, `DELETE /api/cart...`
  - `POST /api/orders` (checkout)
  - the admin order-status, user-role and user-delete routes
- `Pagination` (`pagination.dfy`) covers the `page` / `limit` arithmetic of `GET /api/products`.
- `CartContext` (`cart_context.dfy`) is the client's cart list and its total, count, membership
  and quantity lookups. It is tied back to the server's cart and checkout total.
- `ImageUpload` (`image_upload.dfy`) covers the upload slot limit, removing an image and
  drag-and-drop reordering.
- `BulkEntry` (`bulk_entry.dfy`) covers the selection set and the creation loop of the bulk product form.
- `LocalStorage` (`local_storage.dfy`) covers the token/user helpers over the browser's key-value store.

`Wrappers` (`wrappers.dfy`) holds `Option`, `Result` and `Outcome`.

How the source and the model correspond:

- **The cart.** The cart table is a sequence of rows. The client addresses rows by id.
  Checkout's snapshot query has no `ORDER BY`, so MySQL returns the rows in some order; the
  model takes table order, which fixes the order of the `order_items` rows and nothing else.
  `Tables.Entry` views the cart as the partial map (user, product) → quantity, and every cart
  route is specified against that view.
- **Money.** Prices are integer cents.
- **The acting user.** The authenticated user's id, and the admin's own id, come from the token
  or from the `isAdmin` lookup. They are parameters.
- **Foreign calls.** Upload replies, analysis replies, product-creation outcomes,
  `JSON.parse` and `JSON.stringify` are parameters.

The model keeps these behaviours of the code as written:

- **Checkout** checks no stock and decrements stock with no guard, so stock can become
  negative. It joins products without filtering on `status = 'active'`.
- **The reachable `POST /api/cart`** (lines 480-507) does not count the quantity already in the
  cart against stock. It does not reject a quantity below 1.
- **The reachable `PUT /api/cart/:id`** checks no stock. It deletes the row for any quantity ≤ 0.
- **The later `/api/cart` handlers** (lines 1033-1152) are registered after handlers for the same
  method and path, so Express never reaches them. They are modelled as separate `*Checked`
  variants over the one cart table. The cleared table in `DELETE /api/cart` (line 1155) is
  modelled as the same cart table.
- **`DELETE /api/admin/users/:id`** fails with a server error for a user who has orders:
  `orders.user_id` references `users` without a cascade. Deleting a user removes that user's
  cart rows, because the cart foreign key cascades.
- **`PUT /api/admin/users/:id/role`** does not check that the user exists, so an unknown id
  succeeds and changes nothing.

## Model

| member | source | states |
|---|---|---|
| Tables.FindRow | server.js:496-500 | the position of the first (and, with unique keys, only) row with key (user, product); none when no row has it |
| Tables.FindById | server.js:514-516 | the position of row `id` when it belongs to the user; none otherwise |
| Tables.Upsert | server.js:496-500 | the upsert keeps the row count when the (user, product) row exists and adds one row otherwise; every row afterwards is an old row or a row of the acting user |
| Tables.UpsertEntry | server.js:496-500 | insert-or-increment is additive: entry (u, p) becomes old quantity (0 when absent) plus q, and no other entry changes |
| Tables.UpsertInvariant | server.js:496-500 | the upsert keeps keys unique, product references valid and ids below the AUTO_INCREMENT counter |
| Tables.Filter | server.js:514 | a DELETE keeps exactly the rows the condition spares |
| Tables.FilterInvariant | server.js:116-124 | deleting rows keeps the cart's keys, references and ids valid |
| Tables.FilterEntry | server.js:514 | a deletion removes the entries of deleted rows and keeps every other entry |
| Tables.DeleteRow | server.js:528 | `DELETE ... WHERE id = ? AND user_id = ?` keeps exactly the rows that are not row `id` of the user |
| Tables.DeleteRowEntry | server.js:528 | deleting row `id` of the user removes exactly that row's entry; an unknown row changes no entry |
| Tables.DeleteMissingRow | server.js:526-534 | deleting a row that is not there leaves the table as it was |
| Tables.DeleteExistingRow | server.js:1141-1145 | deleting an existing row shortens the table and removes exactly the rows with that id and owner |
| Tables.DeleteRowTwice | server.js:528 | repeating the same DELETE removes nothing more |
| Tables.ClearUser | server.js:579 | `DELETE FROM cart WHERE user_id = ?` keeps exactly the other users' rows |
| Tables.ClearUserEntry | server.js:579 | clearing a user's cart removes all that user's entries and keeps everyone else's |
| Tables.ClearUserEmpties | server.js:579 | after the clear, the user's joined cart is empty |
| Tables.ClearUserKeepsOthers | server.js:579 | after the clear, every other user's joined cart is exactly as before |
| Tables.SetRowQuantity | server.js:516 | the UPDATE keeps the row count and changes no column of any row but `quantity` |
| Tables.SetRowQuantityEntry | server.js:516 | the update is absolute: the entry of row `id`'s key becomes q, other entries are kept, an unknown row changes nothing |
| Tables.SetRowQuantityInvariant | server.js:516 | the quantity update keeps the cart invariant |
| Tables.Joined | server.js:542-547 | the joined cart has no more lines than the table, and is empty exactly when the user has no rows |
| Tables.LinesTotal | server.js:553 | the sum of price × quantity is 0 for no lines and never negative for non-negative prices and quantities |
| Tables.FoldTotal | server.js:553 | the `reduce` from accumulator acc is acc plus the sum of price × quantity |
| Tables.OrderItemsFor | server.js:565-569 | one order line per cart line |
| Tables.ItemsTotalOfLines | server.js:565-569 | the order lines written add up to the cart total |
| Tables.AppendOrderInvariant | server.js:556-569 | a new order with the next id, total = cart total, and its lines keeps every order's total equal to the sum of its lines |
| Tables.Decrement | server.js:571-575 | the stock updates touch no product set: the same product ids remain |
| Tables.DecrementEffect | server.js:571-575 | each product's stock drops by the total quantity the lines ask of it; its other columns are unchanged |
| Tables.QuantityForJoined | server.js:542-547 | what the snapshot asks of product p is the user's cart quantity of p, 0 when p is not in the cart |
| Tables.ParseStatus | server.js:990-993 | a status is accepted exactly when it is one of the five enum names, and is read back to that name |
| Tables.ParseRole | server.js:768-770 | a role is accepted exactly when it is 'user' or 'admin' |
| Tables.SetStatus | server.js:995 | the status UPDATE keeps the number of orders |
| Tables.SetStatusInvariant | server.js:995 | a status change keeps ids, totals and lines, so the orders invariant holds |
| Server.Store.constructor | server.js:116-153 | empty carts and orders over a catalog satisfy the table invariants |
| Server.Store.Add | server.js:480-507 | unknown/inactive product → Product not found; stock below the requested quantity → Insufficient stock; an acting user without an account → server error (the `cart.user_id` foreign key); on any refusal the cart is unchanged; otherwise the additive upsert, with the id counter moving only when a row was inserted; only the cart changes |
| Server.Store.AddChecked | server.js:1051-1100 | id 0 refused first; same checks as Add, then an existing entry whose old + requested quantity exceeds stock is refused, then a new entry for a user without an account fails on the foreign key; on success the upsert and its id counter, and the new quantity is within stock |
| Server.Store.SetQuantity | server.js:509-524 | quantity ≤ 0 deletes the row, otherwise sets it absolutely; an unknown row is a success without change |
| Server.Store.Remove | server.js:526-534 | deletes the row, always a success; a missing row leaves the cart unchanged |
| Server.Store.SetQuantityChecked | server.js:1103-1133 | quantity below 1, then unknown row, then quantity above the product's stock are refused; otherwise the quantity is set |
| Server.Store.RemoveChecked | server.js:1136-1152 | an unknown row is Cart item not found and changes nothing; otherwise exactly one row goes |
| Server.Store.Clear | server.js:1155-1164 | the user's entries are all removed, other users' kept |
| Server.Store.Checkout | server.js:537-586 | empty cart → Cart is empty; a payment method over 50 characters → server error (the `VARCHAR(50)` column); either way nothing changes; otherwise the next order with the cart total at current prices, status and payment pending; one line per cart line with product, quantity, current price; each product's stock minus that user's cart quantity of it; that cart emptied, others untouched |
| Server.Store.RecordOrder | server.js:556-576 | the next order id with the cart total at current prices and pending statuses, the snapshot's order lines, each product's stock minus the user's cart quantity of it; the cart untouched |
| Server.Store.WriteOrderLines | server.js:565-576 | the loop appends the order lines of the snapshot in order and applies the stock decrement of every line |
| Server.ItemsOfCheckout | server.js:556-569 | the lines stored under the fresh order id add up to the order's total |
| Server.Store.UpdateOrderStatus | server.js:985-1006 | an invalid status, then an unknown id, are refused with nothing changed; otherwise only `status` of that order changes |
| Server.Store.UpdateUserRole | server.js:763-778 | invalid role refused; otherwise the role of an existing user is set and nothing else changes |
| Server.Store.DeleteUser | server.js:781-795 | own id refused; a user with orders fails; otherwise the user and, by cascade, their cart rows are gone |
| Server.DeleteOneRow | server.js:1141-1145 | deleting an existing row affects exactly one row |
| Pagination.OrDefault | server.js:387-388 | `parseInt(x) \|\| d`: NaN and 0 give the default, any other number is kept |
| Pagination.PageNumber | server.js:387 | the page is the parsed page, or 1, and never 0 |
| Pagination.LimitNumber | server.js:388 | the limit is the parsed limit, or 12, and never 0 |
| Pagination.Offset | server.js:389 | non-negative for page ≥ 1 and limit ≥ 0; one page's offset plus the limit is the next page's offset |
| Pagination.PageCount | server.js:423 | `Math.ceil(total/limit)`: the least count r with total ≤ r × limit (positive limit), mirrored for a negative limit |
| Pagination.PageCountZero | server.js:423 | with a positive limit, zero pages exactly when there are zero products |
| Pagination.PageOf | server.js:392 | LIMIT/OFFSET returns at most `limit` rows starting at the offset; a negative LIMIT or OFFSET is a server error |
| Pagination.Pages | server.js:389-392 | the rows of pages 1..n one after another are all rows of the listing |
| Pagination.PagesPrefix | server.js:389-392 | pages 1..n together are the first n × limit rows |
| Pagination.PagesCoverListing | server.js:389-423 | for a listing whose order is the same on every request, reading pages 1..`pages` gives back every listed row exactly once, in order |
| Pagination.PagesBeyondCountEmpty | server.js:389-423 | pages after `pages` are empty and pages up to it are not |
| CartContext.CartTotal | src/context/CartContext.js:96-98 | the sum of price × quantity, the same sum checkout charges; 0 for an empty cart |
| CartContext.ItemsCount | src/context/CartContext.js:100-102 | the sum of the quantities; 0 for an empty cart |
| CartContext.QuantitySum | src/context/CartContext.js:100-102 | the sum of the quantities is 0 for no lines and never negative for non-negative quantities |
| CartContext.FoldCount | src/context/CartContext.js:100-102 | the counting `reduce` from accumulator acc is acc plus the plain sum of quantities |
| CartContext.IsInCart | src/context/CartContext.js:104-106 | true exactly when some line has that product id |
| CartContext.ItemQuantity | src/context/CartContext.js:108-111 | the quantity of the first line with that product, 0 when none has it |
| CartContext.ClientViewMatchesServer | src/context/CartContext.js:104-111 | on the lines GET /api/cart returns, membership is the server's entry and the quantity is the server's cart quantity |
| CartContext.CartProvider.constructor | src/context/CartContext.js:17 | the list starts empty |
| CartContext.CartProvider.FetchCartItems | src/context/CartContext.js:30-43 | unauthenticated: no change; a successful response replaces the list; a failed one keeps it |
| CartContext.CartProvider.OnAuthChange | src/context/CartContext.js:22-28 | signed out empties the list; signed in fetches |
| CartContext.CartProvider.ClearCart | src/context/CartContext.js:92-94 | the list is empty, so total, count and every quantity are 0 |
| ImageUpload.UploadSingle | src/components/ImageUpload.js:41-77 | a file succeeds exactly when it is an image, at most 5 MB, and the server replies with a URL |
| ImageUpload.UploadAll | src/components/ImageUpload.js:22-25 | one upload result per file, in order |
| ImageUpload.Successful | src/components/ImageUpload.js:26-29 | the successful URLs, no more than the results, empty exactly when nothing succeeded |
| ImageUpload.SuccessfulConcat | src/components/ImageUpload.js:26-29 | the successful URLs keep the files' order |
| ImageUpload.HandleFileSelect | src/components/ImageUpload.js:10-39 | no files or more files than free slots: list unchanged; otherwise old list + successful URLs when at least one succeeded; an accepted selection never exceeds `maxImages` |
| ImageUpload.WithoutIndexIsSplice | src/components/ImageUpload.js:105 | the index filter drops exactly position i and keeps the others in order; an index outside the list drops nothing |
| ImageUpload.WithoutIndex | src/components/ImageUpload.js:105 | the index filter is never longer than the list; WithoutIndexIsSplice states which entries it keeps |
| ImageUpload.RemoveImage | src/components/ImageUpload.js:96-113 | the list changes only after the server delete succeeded, and then loses exactly position i |
| ImageUpload.Reorder | src/components/ImageUpload.js:115-120 | same length, same multiset of images, the moved image at `to`, all others in their relative order |
| ImageUpload.ReorderThenRemove | src/components/ImageUpload.js:116-118 | taking the moved image out of the reordered list gives the original list without it: nothing else moves |
| ImageUpload.ReorderInPlace | src/components/ImageUpload.js:203-206 | a move onto its own index would change nothing |
| ImageUpload.MoveLeft | src/components/ImageUpload.js:230-233 | the left button swaps the image with its left neighbour |
| ImageUpload.MoveRight | src/components/ImageUpload.js:250-253 | the right button swaps the image with its right neighbour |
| ImageUpload.SwapNeighbours | src/components/ImageUpload.js:115-120 | a move between neighbouring positions, either way, is a swap |
| ImageUpload.SpliceStart | src/components/ImageUpload.js:117-118 | `splice`'s start: NaN is 0, a negative start counts from the end (at least 0), a start past the end is the end |
| ImageUpload.MoveEntry | src/components/ImageUpload.js:115-120 | with any start: a start inside the list is the in-range move of the image at the clamped start to the clamped target; a start at the end removes nothing and inserts `undefined` at the target |
| ImageUpload.MoveEntryKeepsImages | src/components/ImageUpload.js:115-120 | a move that removed an image keeps the same entries; one that removed nothing is the old list with `undefined` at the target |
| ImageUpload.OnDrop | src/components/ImageUpload.js:201-207 | no reorder exactly when the drag data is the tile's own index; a drag from tile f moves image f to the tile; NaN drag data moves the first image there; a number past the end adds `undefined` at the tile, keeping all images |
| ImageUpload.DropOfForeignNumber | src/components/ImageUpload.js:201-207 | dropping the text "9" on the first of three images gives four entries with `undefined` first |
| BulkEntry.AllIndices | src/components/BulkAIProductEntry.js:64 | exactly the indices 0..n-1 |
| BulkEntry.AllIndicesSize | src/components/BulkAIProductEntry.js:64 | that set has n elements |
| BulkEntry.Toggle | src/components/BulkAIProductEntry.js:78-86 | flips the membership of i and of nothing else |
| BulkEntry.ToggleTwice | src/components/BulkAIProductEntry.js:78-86 | toggling twice restores the selection |
| BulkEntry.ToggleAll | src/components/BulkAIProductEntry.js:89-95 | a selection of size n is emptied, any other becomes exactly {0..n-1} |
| BulkEntry.ToggleAllCycle | src/components/BulkAIProductEntry.js:89-95 | from nothing selected, select-all selects everything and a second press clears it |
| BulkEntry.Selected | src/components/BulkAIProductEntry.js:106-108 | the filter is never longer than the list, and is empty exactly when no index of the list is selected |
| BulkEntry.SelectedIndices | src/components/BulkAIProductEntry.js:106-108 | the selected indices inside the list, strictly increasing, each of them listed |
| BulkEntry.SelectedAt | src/components/BulkAIProductEntry.js:106-108 | the filter keeps exactly the products at the selected indices, in original order: its k-th product is the one at the k-th selected index |
| BulkEntry.SelectedCount | src/components/BulkAIProductEntry.js:106-108 | one product per selected index |
| BulkEntry.SelectedAll | src/components/BulkAIProductEntry.js:61-64 | with every index selected, all products are kept |
| BulkEntry.WithField | src/components/BulkAIProductEntry.js:98-102 | only field f of entry i changes, to v; all other entries and fields are unchanged |
| BulkEntry.CreatedCount | src/components/BulkAIProductEntry.js:177 | at most one creation per attempt, and all attempts count exactly when all succeeded |
| BulkEntry.ErrorsOf | src/components/BulkAIProductEntry.js:181 | at most one message per product, and none exactly when every attempt succeeded |
| BulkEntry.CreatedPlusErrors | src/components/BulkAIProductEntry.js:118-186 | created count plus error count is the number of products attempted |
| BulkEntry.CreationLoop | src/components/BulkAIProductEntry.js:118-186 | the loop counts the successes and collects "name: message" per failure, in order; they add up to the batch size |
| BulkEntry.BulkForm.constructor | src/components/BulkAIProductEntry.js:7-12 | no image, no products, nothing selected |
| BulkEntry.BulkForm.AnalysisSucceeded | src/components/BulkAIProductEntry.js:60-64 | the reply's products (or none) are stored and every one is selected |
| BulkEntry.BulkForm.ToggleProductSelection | src/components/BulkAIProductEntry.js:78-86 | the selection is toggled at i; products unchanged |
| BulkEntry.BulkForm.ToggleAllProducts | src/components/BulkAIProductEntry.js:89-95 | the select-all toggle over the current products |
| BulkEntry.BulkForm.UpdateProductData | src/components/BulkAIProductEntry.js:98-102 | the product list is updated in one field of one entry |
| BulkEntry.BulkForm.CreateSelectedProducts | src/components/BulkAIProductEntry.js:105-207 | empty selection aborts with nothing changed; otherwise created + errors equals the number selected, and the form resets exactly when something was created |
| LocalStorage.GetItem | src/utils/localStorage.js:5 | a stored key gives its text, a missing one null |
| LocalStorage.TokenOf | src/utils/localStorage.js:3-14 | null exactly when the token is absent, empty, "null" or "undefined"; otherwise the stored text |
| LocalStorage.UserOf | src/utils/localStorage.js:16-33 | a user exactly when the text is not blank, parses, is an object and has a truthy id; then the parsed object |
| LocalStorage.Store.GetStoredToken | src/utils/localStorage.js:3-14 | returns the stored token unless it is blank; the store is not changed |
| LocalStorage.Store.GetStoredUser | src/utils/localStorage.js:16-33 | returns the stored user under the rules above; the store is not changed |
| LocalStorage.AfterSet | src/utils/localStorage.js:37-40 | with a non-empty token and a truthy user both keys hold the token and the user's JSON text, otherwise the store is as before; every other key is kept |
| LocalStorage.Store.SetAuthData | src/utils/localStorage.js:35-44 | both keys are written only when the token is non-empty and the user truthy; otherwise nothing changes |
| LocalStorage.Store.ClearAuthData | src/utils/localStorage.js:46-53 | both keys removed, all others kept; afterwards no token is read |
| LocalStorage.ClearedHasNoToken | src/utils/localStorage.js:46-49 | after the clear, neither a token nor a user is read back, whatever the parser |
| LocalStorage.TokenAfterSet | src/utils/localStorage.js:37-38 | after a write, the token is read back unless it is "null" or "undefined", which read back as none |
| LocalStorage.UserRoundTrip | src/utils/localStorage.js:39 | when parse inverts stringify on an object user with a truthy id, the user written is the user read |

## Left out

- SQL text, the MySQL connection, table creation and every route outside the cart, order, order-status and user-admin routes listed above are I/O and are not modelled. Authentication (JWT, bcrypt, the `authenticateToken`, `requireAdmin` and `isAdmin` middleware) is a foreign library call; its result is the user id parameter.
- Concurrency and transactions: every request is one atomic step. Checkout's separate statements are not interleaved with other requests.
- Floating point: `DECIMAL(10,2)` prices are integer cents, and `parseFloat` / `toFixed` are dropped.
- Column widths: quantities, stock and ids are unbounded integers. MySQL's refusal of values outside `INT`, or of totals wider than `DECIMAL(10,2)`, is not modelled. Of the text columns only the `VARCHAR(50)` payment method is checked (strict mode); MySQL without strict mode would truncate it instead.
- JSON typing of request bodies: quantities and ids are integers. A missing or non-numeric body field, which JavaScript compares loosely or MySQL refuses, is not modelled. The body's default quantity of 1 is supplied by the caller.
- The `GET /api/cart` handlers are queries with no state change. Their result is `Tables.Joined`, which the client cart receives.
- The AUTO_INCREMENT counter of the cart advances only on real inserts. MySQL's `ON DUPLICATE KEY` may also skip ids; such gaps are not modelled.
- The `cart_items` table is not a separate table: its handlers run on the one cart table.
- Checkout stores `shipping_address` as given; the route validates neither field, and the size limit of its `TEXT` column is not modelled.
- Pagination: the SQL filters (category, search, featured) and the product rows themselves are not modelled; `PageOf` works on any ordered listing. `parseInt` is a parameter (`None` for NaN).
- Pagination.PagesCoverListing: assumes every page query sees the listing in the same order. The source sorts only by `created_at`, a timestamp with one-second precision; MySQL may order rows with equal timestamps differently from one query to the next, so a product can then appear on two pages or on none.
- CartContext: `addToCart`, `updateCartItem` and `removeFromCart` are a server request followed by `fetchCartItems`. Their server side is the `Server` routes; toasts and loading flags are UI.
- ImageUpload.Reorder: `splice` in place on the copied array is modelled on sequence values. Reorder requires both indices to be positions in the list, which the move buttons supply. Drops can carry any drag data; they go through `MoveEntry`, which models `splice`'s clamping and NaN.
- ImageUpload.OnDrop: the tile's own index is a position in the list, because tiles are rendered from it. A list that already holds an `undefined` entry after an earlier drop is outside the other handlers, which work on lists of URLs.
- ImageUpload.HandleFileSelect: the uploads run in parallel; the model takes the server's reply per file as a parameter. Toasts, the uploading flag and the file-name extraction in `removeImage` are UI.
- BulkEntry.BulkForm.UpdateProductData: requires a valid index, the index of a rendered product. An assignment past the end of a JavaScript array (which would create holes) is not modelled.
- BulkEntry.CreationLoop: the image upload, category lookup and creation, and product POST of each iteration are one outcome parameter per product. The 500 ms delay and the progress counter are UI.
- LocalStorage: the `try`/`catch` around a storage that throws is not modelled. `JSON.parse` and `JSON.stringify` are parameters, and JSON numbers are integers.
- React rendering, routing, the Gemini AI routes, multer uploads and image file deletion are outside this model.
