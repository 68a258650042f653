# Bookstore cart and checkout, modelled in Dafny

This project models the cart and checkout logic of a Django bookstore
(`bookstore_app/views.py`) together with the schema constraints it relies on
(`bookstore_app/models.py`).

The database becomes one `Store` object holding:
- the catalog: book id to book, with prices in integer cents;
- the user accounts;
- the carts: cart id to an optional owner, the cached `total_price`, and the
  cart's CartItem lines in insertion order;
- the set of orders.

Each view is a method on that store. The caller's identity and the session
(`cart_id`, `cart_items`) are explicit inputs, and the new session is an
output. The pure parts are Dafny functions with lemmas:
- `calculate_total`, the cart count and the JSON projections;
- the merge step that the sync and login loops share;
- the genre filter.

Modules:
- `Models` (models.dfy): the Book / Cart / CartItem / Order rows as values, the
  schema's constraints as predicates, and the two delete cascades.
- `CartLogic` (cart_logic.dfy): finding a line, the merge step (`Upsert`),
  the merge loop (`Merge`), `Total` (calculate_total), `Count`
  (get_cart_count), `Entries` (get_cart_items), `Serialize` (logout's pairs),
  and `NewQuantity` (update_quantity's action).
- `MergeOrder` (merge_order.dfy): a merge depends only on which pairs arrive,
  not on their order.
- `Catalog` (catalog.dfy): book_list's `genre__icontains` filter, with ASCII
  case folding.
- `Sessions` (sessions.dfy): the session record, Django's login/logout effect
  on it, and the logout-to-login cart bridge.
- `Views` (views.dfy): the `Store` class and one method per view.

`Store.Valid()` holds the invariants every view preserves:
- at most one line per (cart, book);
- every line refers to an existing book, and its total is quantity × price;
- one cart per user;
- every order refers to an existing cart, and no two orders share a cart;
- usernames are unique;
- prices fit a `DecimalField(max_digits=10, decimal_places=2)`.

`Valid()` does not include "the cached cart total equals the sum of the line
totals", because the code does not keep it:
- deleting a book removes its lines without touching any cart total;
- the login replay never saves the cart's total;
- sync_cart's 400 at a missing book keeps the lines merged so far and skips the resync.

Every view that does resynchronise the total says so in its postcondition
(`Resync`, `Synced`).

## Model

| member | source | states |
|---|---|---|
| Models.CascadeBookDelete | bookstore_app/models.py:22-23 | deleting a book keeps every cart, its owner and its cached total; it removes exactly that book's lines and keeps every other line |
| Models.Without | bookstore_app/models.py:23 | the lines left after a book's lines are deleted: none refers to the book, every other line stays, and nothing new appears |
| Models.CartDeleteKeepsOrders | bookstore_app/models.py:48 | deleting a cart and cascading to its order keeps Order.cart one-to-one: every order left refers to a cart still present, and no two share one |
| Models.WithoutWellFormed | bookstore_app/models.py:22-28 | the book-delete cascade keeps one line per book, and keeps every remaining line priced against the catalog without that book |
| CartLogic.FindLine | bookstore_app/views.py:236 | the CartItem lookup by (cart, book): the first line for the book, or none when the cart has no line for it |
| CartLogic.ResyncIsValue | bookstore_app/views.py:220-221 | on priced lines the resynchronised cached total equals the lines' value at catalog prices (quantity × price summed), and resynchronising twice changes nothing |
| CartLogic.ResyncAfterUpsert | bookstore_app/views.py:211-221 | on a synced cart with priced lines, adding q copies of a book and resynchronising raises the cached total by exactly q × its price |
| CartLogic.NewQuantity | bookstore_app/views.py:188-191 | "increase" adds exactly one (and only "increase" does); "decrease" removes one only above 1; the quantity never rises by more than one, so any other action, and "decrease" at 1, keeps the quantity; a quantity of at least 1 stays at least 1, so a decrement never reaches 0 |
| CartLogic.Merge | bookstore_app/views.py:258-266 | the merge loop succeeds iff every incoming book exists; on failure the book it names is not in the catalog and comes from the list |
| CartLogic.MergeStopsAtFirstMissing | bookstore_app/views.py:258-273 | the loop stops at the first pair whose book does not exist and reports that book; the lines it leaves are exactly the complete merge of the pairs before it |
| CartLogic.TotalConcat | bookstore_app/views.py:136-138 | calculate_total is additive over the lines |
| CartLogic.CountConcat | bookstore_app/views.py:172-176 | the cart count is additive over the lines |
| CartLogic.QuantityConcat | bookstore_app/views.py:172-176 | a book's quantity is additive over the lines |
| CartLogic.TotalIsValue | bookstore_app/views.py:136-138 | on lines priced at quantity × price, calculate_total equals the lines' value at catalog prices |
| CartLogic.QuantityOfUnique | bookstore_app/models.py:27-28 | with one line per book, a book's quantity is the quantity on its line |
| CartLogic.UpsertQuantities | bookstore_app/views.py:211-217 | the merge step adds q copies of its book and leaves every other book's quantity unchanged |
| CartLogic.UpsertLines | bookstore_app/views.py:211-217 | the merge step updates the book's line in place, or appends one line; every other line is unchanged, and the book's line has quantity old + q and total price × quantity |
| CartLogic.UpsertWellFormed | bookstore_app/models.py:27-28 | the merge step keeps one line per book and every line priced |
| CartLogic.UpsertTotal | bookstore_app/views.py:211-221 | on priced lines, the merge step raises calculate_total by q × price |
| CartLogic.UpsertCount | bookstore_app/views.py:172-176 | the merge step raises the cart count by q |
| CartLogic.MergeWellFormed | bookstore_app/views.py:258-266 | merging keeps one line per book and every line priced, even when the loop stops at a missing book |
| CartLogic.MergeQuantities | bookstore_app/views.py:258-266 | a complete merge adds, for every book, exactly the incoming quantity of that book |
| CartLogic.MergeTotal | bookstore_app/views.py:258-269 | when every book exists, merging raises calculate_total by the incoming pairs' value at catalog prices |
| CartLogic.SerializeRoundTrip | bookstore_app/views.py:344-347 | replaying a well-formed cart's serialized pairs into an empty cart rebuilds exactly its lines: the same order, quantities and totals |
| CartLogic.DropFound | bookstore_app/views.py:236-243 | deleting the found line leaves no line for the book and every other line in order, keeps the lines unique and priced, and lowers calculate_total by the deleted line's total |
| CartLogic.EntriesMirrorLines | bookstore_app/views.py:282-286 | get_cart_items lists one entry per line, carrying its book, quantity and line total |
| CartLogic.RemovedBookNotListed | bookstore_app/views.py:241 | after the book's line is deleted, get_cart_items never lists that book |
| CartLogic.WithoutConcat | bookstore_app/models.py:23 | the book-delete cascade acts line by line: on concatenated lines it is the concatenation of its results (this is how `DropFound` shows that deleting the found line is the cascade) |
| MergeOrder.IncomingPermutation | bookstore_app/views.py:258-264 | the incoming quantity of a book depends only on the multiset of pairs |
| MergeOrder.IncomingValuePermutation | bookstore_app/views.py:265 | the incoming pairs' value depends only on their multiset |
| MergeOrder.MergeOrderIndependent | bookstore_app/views.py:258-269 | merging the same pairs in any order succeeds in both orders, gives every book the same quantity and, on priced lines, the same calculate_total |
| Catalog.Fold | bookstore_app/views.py:76 | case folding keeps the length and folds every character |
| Catalog.IContains | bookstore_app/views.py:76 | the substring search is true iff the needle occurs at some position, ignoring ASCII case |
| Catalog.FilterByGenre | bookstore_app/views.py:75-76 | book_list shows exactly the books whose genre contains the filter, ignoring case |
| Catalog.EmptyFilterListsAll | bookstore_app/views.py:75 | without a `genre` parameter every book is listed |
| Catalog.FoldTwice | bookstore_app/views.py:76 | folding is idempotent |
| Catalog.FilterIgnoresCase | bookstore_app/views.py:76 | the filter selects the same books whatever the case of what was typed |
| Catalog.FilterNarrows | bookstore_app/views.py:76 | a longer filter never selects more books than a prefix of it |
| Sessions.LogoutAsWritten | bookstore_app/views.py:348-350 | as written, logout_view's session ends empty whatever pairs were saved into it: the flush discards `cart_items` |
| Sessions.IntendedLogout | bookstore_app/views.py:341-350 | the intended logout leaves no `cart_id` and exactly the saved pairs in `cart_items` |
| Sessions.LogoutLosesSavedCart | bookstore_app/views.py:341-350 | as written, the session after logout holds no pairs, so the next login replays nothing and a non-empty anonymous cart is not carried over |
| Sessions.BridgeRoundTrip | bookstore_app/views.py:48-59 | with the intended logout, the next login pops the saved pairs and rebuilds the anonymous cart's lines exactly in an empty user cart |
| Views.Store.constructor | bookstore_app/models.py:5-49 | an empty database satisfies every invariant |
| Views.Store.Found | bookstore_app/views.py:113-123 | the cart a lookup finds: a user's own cart; or, for an anonymous caller, the cart a non-zero session `cart_id` names, if it exists |
| Views.Store.LookedUp | bookstore_app/views.py:113-117 | get_cart always yields a cart for a logged-in user |
| Views.Store.ResolvedCarts | bookstore_app/views.py:209 | `get_cart or create_cart` always ends with the target cart present |
| Views.Store.GetCart | bookstore_app/views.py:113-123 | get_cart returns the found cart; for a user without one it creates an empty cart first (get_or_create); it keeps every invariant |
| Views.Store.CreateCart | bookstore_app/views.py:126-133 | create_cart adds an empty cart under a fresh id, owned by the user or stored in the anonymous session's `cart_id` |
| Views.Store.ResolveOrCreate | bookstore_app/views.py:209 | `get_cart or create_cart` ends with the found or created cart, and with the session and id counter that path leaves |
| Views.Store.CartPage | bookstore_app/views.py:163-170 | the cart page shows calculate_total of the cart, or 0 without one |
| Views.Store.GetCartCount | bookstore_app/views.py:172-176 | the count is the sum of the quantities, and 0 when no cart resolves |
| Views.Store.GetCartItems | bookstore_app/views.py:276-288 | the entries mirror the cart's lines, or are empty without a cart |
| Views.Store.AddToCart | bookstore_app/views.py:206-224 | 404 for an unknown book; otherwise the resolved cart gets one more copy (a new line with quantity 1 and total price, or the existing line's quantity + 1 and total price × quantity), its total is resynced, and every other cart is unchanged |
| Views.Store.AddCopy | bookstore_app/views.py:211-221 | the cart's lines become the merge step with one copy of the book at its price, the book's quantity rises by exactly one, the total is resynced, and every invariant is kept |
| Views.Store.UpdateQuantity | bookstore_app/views.py:179-203 | a non-POST changes nothing; without a cart or a line, an error, and nothing changes beyond the empty cart get_cart creates for a user who had none; otherwise only the target line changes, to NewQuantity and quantity × price, and the total is resynced |
| Views.Store.SetQuantity | bookstore_app/views.py:188-197 | only the target line changes: it gets NewQuantity and total quantity × price, the cart's total is resynced, and every invariant is kept |
| Views.Store.RemoveFromCart | bookstore_app/views.py:227-246 | 404 changes nothing; "cart not found" or "not in cart" change nothing beyond the empty cart get_cart creates for a user who had none; otherwise exactly the book's line is deleted, the total is resynced, and no line for the book remains |
| Views.Store.DropLine | bookstore_app/views.py:241-243 | the cart's lines become the lines without the book, exactly one line fewer and none for the book, the total is resynced, and every invariant is kept |
| Views.Store.SaveLines | bookstore_app/views.py:219-221 | saving lines that are unique per book and priced keeps every invariant, and the cart's total is then their sum |
| Views.Store.ResyncCart | bookstore_app/views.py:268-269 | the cart's cached total becomes calculate_total of its lines, and nothing else changes |
| Views.Store.ReplayPair | bookstore_app/views.py:259-266 | one pass of the merge loop performs the merge step on the cart and keeps every invariant |
| Views.Store.MergeInto | bookstore_app/views.py:258-266 | the merge loop leaves the cart with Merge's lines and reports Merge's missing book; the cached total and the other carts are untouched |
| Views.Store.SyncCart | bookstore_app/views.py:249-273 | 405 for a non-POST and 400 for malformed JSON change nothing; a complete merge resyncs the total; a missing book gives 400, keeps the lines merged before it and leaves the total stale |
| Views.Store.UserLogin | bookstore_app/views.py:38-68 | bad credentials or a disabled account change nothing; a login pops `cart_items` and merges them into the user's found or created cart; it gives 404 at a missing book, and leaves the cart's cached total as it was |
| Views.Store.LogoutView | bookstore_app/views.py:339-352 | `cart_id` leaves the session and `cart_items` holds exactly the anonymous cart's {book_id, quantity} pairs in line order (the corrected flush order, see Findings); a user without a cart still gets one from get_cart |
| Views.Store.CreateOrder | bookstore_app/views.py:145-150 | the order carries the cart's cached total; a second order on the same cart violates the one-to-one constraint and writes nothing |
| Views.Store.ClearCart | bookstore_app/views.py:153-159 | the found cart is deleted along with its lines and the order on it, and `cart_id` leaves the session; without a cart nothing changes |
| Views.Store.PlaceOrder | bookstore_app/views.py:302-306 | the returned order has the cart's cached total; the cart is gone, and the set of orders ends as it began because the cart delete cascades to the new order |
| Views.Store.Checkout | bookstore_app/views.py:292-312 | without a cart, a warning and no order; with a valid POST, an order at the cached total, the cart deleted, the orders unchanged (cascade) and `cart_id` cleared; a duplicate order fails with 500 |
| Views.Store.OrderConfirmation | bookstore_app/views.py:315-333 | the same order flow as checkout; without a cart, a redirect and no order |
| Views.Store.AddBook | bookstore_app/views.py:84-97 | a non-staff caller, a non-POST or a form BookForm rejects leaves the catalog unchanged; otherwise the book is added under a fresh id, and the catalog's price bound is kept |
| Views.Store.DeleteBook | bookstore_app/views.py:100-106 | a non-staff caller leaves the catalog and carts unchanged; an unknown book gives 404; otherwise the book and its lines go and the cart totals stay |
| Views.NormalizeEmail | bookstore_app/views.py:27 | the address create_user stores: the same length, every character after the last '@' lower-cased, everything up to it kept, and an address without '@' kept as it is |
| Views.NormalizeEmailTwice | bookstore_app/views.py:24-27 | normalising a stored address again changes nothing |
| Views.SameDomainFolded | bookstore_app/views.py:24-27 | two addresses with the same name whose domains differ only in case ("x@Shop.com", "x@shop.com") are stored as the same address; with Signup's contract, once "x@Shop.com" is registered (stored as "x@shop.com"), signing up with "x@shop.com" gets "Email already registered" |
| Views.Store.Signup | bookstore_app/views.py:13-33 | a taken username, then a typed email equal to a stored (normalised) one, gives a message and no account; otherwise an active, non-staff account is created with the typed username and the normalised email |

## Left out

- Authentication is not modelled: `authenticate`, password checks and hashing, and `create_user`'s password. `UserLogin` receives the authenticated account, if any, as a parameter.
- Views.Store.Signup: create_user's username normalisation (Unicode NFKC) is not modelled, and the account keeps the typed username. A username equal to a stored one only after NFKC passes the taken-username check; the source then fails on the unique username with an IntegrityError (a 500), while the model creates the account. For ASCII usernames NFKC changes nothing. The email's domain is lower-cased for ASCII letters only (`Lower`); Python's `str.lower` also lowers other letters. Stripping the address is left to SignupForm, whose EmailField already strips it.
- Views.Store.UserLogin: the `AccountDisabled` path of views.py:63-64 can only be taken with an authentication backend that returns inactive users. Django's default ModelBackend already answers None for them, which is the `BadCredentials` path.
- The `login_required` and `csrf_exempt` decorators are not modelled. The view bodies are modelled for both identities.
- HTTP responses, redirects, templates and `messages` are not modelled. Each view returns an `Outcome`: done, ignored, a warning, or a status code.
- Form validation (bookstore_app/forms.py is not part of this model) is a boolean input: BookForm's, OrderForm's and SignupForm's verdicts. A BookForm that validates is required to meet `BookFormValid` (field lengths and price range). Its other checks, such as required non-blank fields, whitespace stripping and the image check, are only part of the boolean.
- `cover_image` uploads and the `Address` model are not modelled. Neither takes part in the cart logic.
- Decimal arithmetic becomes integer cents. Line and cart totals are unbounded integers: the model does not capture a database rejecting a total with more than 10 digits.
- Incoming pairs from the sync payload and from the session are well formed: a book id and a natural-number quantity. `SyncBody.Malformed` stands only for a body that is not JSON, which fails before anything is written. Ill-formed payloads are not modelled, and for them `Valid()` does not necessarily hold afterwards:
  - A negative quantity on a book that already has a line is saved and lowers the quantity (3 + (−1) gives 2, status 200).
  - For a book without a line, `get_or_create` inserts the default row (quantity 1, total 0) before a missing or non-numeric quantity raises. The 400 then leaves that row behind, and its total is not quantity × price.
  - A `cart` value that is not a list (`{"cart": 5}`) fails only after the cart has been resolved or created. So a new anonymous cart and its `cart_id` in the session remain.
- `Cart.objects.get_or_create(user=...)` raising MultipleObjectsReturned is not modelled. The invariant `OneCartPerOwner` rules it out, and every view keeps that invariant.
- Catalog.IContains: case folding is ASCII only, which is how SQLite's LIKE compares. The database is not part of the source. On a backend that compares with `UPPER` (PostgreSQL) non-ASCII letters fold too, and the model does not capture that.
- book_list's distinct `genres` list and `is_staff` flag are not modelled; they only feed the template.
- Concurrency and lost updates between requests are not modelled. Each request is one sequential step.
- Deleting a User (its carts cascade) is not modelled, because no view deletes users.
- Lines are kept in insertion order. The models declare no `Meta.ordering`, so `cart.cart_items.all()` runs without an ORDER BY and returns the lines in the database's scan order; the model takes that to be the usual insertion (rowid) order, which nothing in the code enforces.

## Findings

| source | as written | input that shows it | evidently intended | confidence | as-written member | corrected member |
|---|---|---|---|---|---|---|
| bookstore_app/views.py:348-349 | logout_view stores the anonymous cart's pairs in `session['cart_items']`, then calls `logout(request)`, which flushes the whole session | an anonymous session whose cart holds one line: after logout the session has no `cart_items`, so the next login replays nothing (`Sessions.LogoutLosesSavedCart`) | the pairs survive logout, and the next login rebuilds the cart's lines in an empty user cart (`Sessions.BridgeRoundTrip`) | medium, not executed | Sessions.LogoutAsWritten | Sessions.IntendedLogout |
