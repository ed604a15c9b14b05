# Demo shop core in Dafny

This project models the state logic of a client-only demo shop. The shop exists to
exercise an analytics tag. The model covers:

- the cart store (`useStore`): cart lines written through to local storage, and the
  session effects of login, register, logout and checkAuth;
- the product catalog service: lookup, search, filter by category, admin create,
  update and delete, reset, and the CSV export;
- the auth service: a roster of users with passwords, plus a session;
- the analytics layer: the cart, buy, view_item, search, login and signup events are
  shaped and queued on the `dataLayer`;
- the home page's product filter, its price-band toggles and its "new products" strip.

Local storage is a `Storage` record with one `Option` field per key (`None` is an
absent key). Every service or store call is a pure function from that record to a
result and a new record. The store's state is a `Shop` record: the storage, the
catalog service's in-memory copy, the cart, the user, the UI flags and the event
queue. Clock readings, ISO timestamps and the signup date are parameters. So is the
browser environment (whether `window` exists, and its origin). Product and user ids
are computed from the clock reading (`ProductService.ProductId`, `AuthService.UserId`).

Modules follow the source files:

- `ProductService` and `ProductCsv` model `lib/services/productService.ts`;
- `AuthService` models `lib/services/authService.ts`;
- `Analytics` models `lib/services/analyticsService.ts`;
- `Store` models `lib/stores/useStore.ts`;
- `HomePage` models `app/page.tsx`.

`Types` holds the records of `lib/types/index.ts`. `LocalStorage` holds the storage
record. `Strings` holds the JavaScript string operations the core relies on, and
`Seqs` holds `filter`.

Two behaviours worth knowing:

- `deleteProduct` removes every record with the id, not just the first one
  (lib/services/productService.ts:102).
- Favorites and an attribute-update call are not modelled: neither
  `lib/stores/useStore.ts` nor `lib/services/authService.ts` defines them.

## Model

| member | source | states |
|---|---|---|
| ProductService.Boot | lib/services/productService.ts:10-20 | a non-empty persisted list is adopted, else the seed list is persisted and adopted; either way the key is present afterwards and no other key changes |
| ProductService.GetProducts | lib/services/productService.ts:22-30 | the persisted list wins over the in-memory copy when present, and the copy becomes what was returned |
| ProductService.Find | lib/services/productService.ts:38-39 | `None` exactly when no product has the id, otherwise the product at the first index holding it |
| ProductService.GetProduct | lib/services/productService.ts:32-40 | returns the first live product with the id (none before it has the id), or none when no product has it; storage untouched |
| ProductService.SearchProducts | lib/services/productService.ts:42-54 | result is a subsequence of the live list holding every product whose lowercased name, description or category contains the lowercased query, with multiplicity, and no other; the empty query returns the whole list |
| Strings.IncludesIff | lib/services/productService.ts:49-52 | the substring test used by search holds exactly when the query occurs at some position |
| ProductService.GetProductsByCategory | lib/services/productService.ts:56-63 | result is the in-order subsequence of exactly the live products of that category |
| ProductService.CreateProduct | lib/services/productService.ts:66-80 | one record is appended at the end; it equals the input except for the fresh `prod_` id; earlier records and other keys are unchanged; the copy equals the new list |
| ProductService.ProductIdsDistinct | lib/services/productService.ts:72 | creations at different clock readings get different ids |
| ProductService.CreateThenGet | lib/services/productService.ts:66-80 | when the new id was not already used, looking it up after the create returns the created record |
| ProductService.UpdateProduct | lib/services/productService.ts:82-96 | an unknown id yields none and writes nothing; otherwise only the first matching index becomes the merge of the old record with the patch, the id stays the argument even if the patch carries another, and the length is kept |
| ProductService.PriceOnlyPatch | lib/services/productService.ts:89 | a patch carrying only a price changes the price and no other field |
| ProductService.DeleteProduct | lib/services/productService.ts:98-111 | returns true exactly when some record has the id; false writes nothing; true keeps, in order, exactly the records with other ids and shrinks the list |
| ProductService.ResetToDefault | lib/services/productService.ts:113-117 | the persisted list and the copy both become the seed list; other keys unchanged |
| Strings.QuoteField | lib/services/productService.ts:136-138 | a quoted field starts and ends with a double quote, its length is the original length plus the number of quotes plus 2, every inner quote is doubled, and collapsing the doubling gives back the original |
| Strings.EscapeRoundTrip | lib/services/productService.ts:136-138 | collapsing doubled quotes undoes the quote doubling, and the doubled text has no lone quote |
| ProductCsv.ExportLines | lib/services/productService.ts:125-147 | when no product text contains a line feed, splitting the export on line feeds gives the header `id,name,price,description,imageUrl,category,stock` and then exactly one row per persisted product, in order |
| AuthService.Register | lib/services/authService.ts:12-42 | fails with DuplicateEmail, changing nothing, exactly when the email is on the roster; otherwise appends exactly one entry with the given email, password and name, keeps earlier entries, and makes the password-free user both the session and the result |
| AuthService.RunKeepsEmailsDistinct | lib/services/authService.ts:17-35 | from a roster without duplicate emails (an empty one included), any sequence of registers, logins and logouts keeps roster emails pairwise distinct |
| AuthService.Login | lib/services/authService.ts:44-63 | succeeds exactly when some entry matches both email and password; the session becomes the first such entry without its password; a failure changes nothing; the roster is never written |
| AuthService.Logout | lib/services/authService.ts:65-67 | the session is cleared and nothing else changes |
| AuthService.SessionQueries | lib/services/authService.ts:69-75 | authenticated exactly when a current user is returned; false after logout |
| Analytics.Push | lib/services/analyticsService.ts:12-24 | in a browser, exactly one record is appended, carrying the event name, the fields and the timestamp; elsewhere the queue is unchanged |
| Analytics.ItemFor | lib/services/analyticsService.ts:50-60 | id and quantity come from the cart line; name, price, image and category come from the first product with the id, or are '', 0, '' and '' when there is none |
| Analytics.ItemsQuantity | lib/services/analyticsService.ts:63-64 | the total quantity over the joined items equals the sum of the cart line quantities |
| Analytics.CartParams | lib/services/analyticsService.ts:46-80 | items follow the cart in length and order; price is the sum of price times quantity; quantity is the sum of line quantities; status holds exactly when the cart is non-empty; the six per-field arrays have the items' length and are their element-wise projections |
| Analytics.TrackAddToCart | lib/services/analyticsService.ts:46-80 | queues one `cart` event for the given cart, with the added id set and the deleted id null |
| Analytics.TrackRemoveFromCart | lib/services/analyticsService.ts:83-117 | queues one `cart` event for the given cart, with the deleted id set and the added id null |
| Analytics.TrackPurchase | lib/services/analyticsService.ts:120-143 | queues one `buy` event whose price is the caller's total (not recomputed), whose quantity is the sum of line quantities, and whose items are the joined lines |
| Analytics.RetiredTrackersQueueNothing | lib/services/analyticsService.ts:26-30 | page-view, view-cart and begin-checkout tracking (lines 27-30, 166-174) leave the queue unchanged |
| Store.Start | lib/stores/useStore.ts:40-45 | the store starts from the persisted cart or an empty one, with no user and no error; its storage and in-memory catalog are exactly those of the catalog service's boot (the stored non-empty list, otherwise the persisted seed), so the roster and session keys are untouched |
| Store.FirstVisit | lib/services/productService.ts:10-20 | on a browser with nothing stored, the seed list is persisted and becomes the catalog, the cart is empty, and no other key is written |
| Store.AddLine | lib/stores/useStore.ts:48-61 | an existing product's line gains exactly `quantity` and keeps its id and timestamp, while the length and all other lines are unchanged; a new product gets one line appended at the end |
| Store.AddLineKeepsInvariants | lib/stores/useStore.ts:50-61 | adding keeps at most one line per product, and positive quantities when the added quantity is positive |
| Store.RemoveLines | lib/stores/useStore.ts:74 | the in-order subsequence of the lines of other products; removing an absent id leaves the cart equal |
| Store.SetQuantity | lib/stores/useStore.ts:92-94 | the matching lines get exactly the new quantity and every other line is unchanged; no line appears for an absent id |
| Store.AddToCart | lib/stores/useStore.ts:48-69 | the new cart is persisted and adopted (write-through), the catalog is unchanged, and the queue gets the add event for the new cart; nothing else changes |
| Store.RemoveFromCart | lib/stores/useStore.ts:71-83 | the filtered cart is persisted and adopted; a remove event is queued only when the product exists in the catalog |
| Store.UpdateQuantity | lib/stores/useStore.ts:85-101 | a quantity of zero or less has exactly the effect of removeFromCart; otherwise the quantity is set, persisted and adopted, and nothing is queued |
| Store.ClearCart | lib/stores/useStore.ts:103-106 | the persisted and the in-memory cart are both empty; nothing else changes |
| Store.GetCartTotal | lib/stores/useStore.ts:108-120 | the loop computes the reference total over the catalog at call time: price times quantity for each line that resolves, 0 for the others |
| Store.GetCartItems | lib/stores/useStore.ts:122-134 | the loop computes the reference join of the cart with the catalog at call time |
| Store.ResolvedLinesAreResolvableLines | lib/stores/useStore.ts:122-134 | the joined items, without their products, are exactly the cart lines that resolve, in cart order |
| Store.ResolvedLinesCarryTheirProduct | lib/stores/useStore.ts:126-131 | each joined item carries the first catalog product with its id |
| Store.TotalOverResolvedLines | lib/stores/useStore.ts:108-134 | the cart total equals the sum of price times quantity over the items that getCartItems returns |
| Store.CartEventPriceIsCartTotal | lib/services/analyticsService.ts:50-63 | a cart event's price for a cart equals the store's total for that cart over the same catalog |
| Store.Login | lib/stores/useStore.ts:137-148 | on success the store user is the new session and a login event is queued; on failure the error is recorded and user, storage and queue stay as they were; the cart, catalog copy and environment never change |
| Store.Register | lib/stores/useStore.ts:150-161 | on success the new user (given email and name) is both the session and the store user and a signup event is queued; a duplicate email records the error and changes nothing else; the cart, catalog copy and environment never change |
| Store.Logout | lib/stores/useStore.ts:163-166 | the persisted session and the store user are both cleared |
| Store.CheckAuth | lib/stores/useStore.ts:168-171 | the store user becomes the persisted session and nothing else changes |
| Store.RunCartKeepsUniqueLines | lib/stores/useStore.ts:48-106 | any sequence of cart actions, with any quantities, keeps at most one line per product |
| Store.RunCartKeepsInvariants | lib/stores/useStore.ts:48-106 | any sequence of cart actions (adds of positive quantities) keeps at most one line per product with positive quantities and leaves the session alone; after any action the persisted cart equals the in-memory cart |
| HomePage.FilterProductsIsConjunction | app/page.tsx:39-64 | the filtered list is the in-order subsequence of all products satisfying the conjunction of the active category, price and stock conditions |
| HomePage.CategoryStep | app/page.tsx:43-45 | with the category 'all' (and the other filters off) the filter returns the product list unchanged; any other category keeps exactly the products of that category |
| HomePage.InitialShowsInStock | app/page.tsx:16-22 | with the initial selection (every category, no price band, in stock only) the page shows exactly the products with stock left, in order |
| HomePage.PriceKeepsIff | app/page.tsx:50-55 | a price passes the band filter exactly when some selected band contains it |
| HomePage.PriceStep | app/page.tsx:47-56 | with no band selected every product is kept; with bands selected a product is kept exactly when its price lies in a selected band; selecting all three keeps every product |
| HomePage.BandsPartition | app/page.tsx:51-53 | each price lies in exactly one of low (< 5000), mid ([5000, 10000)) and high (>= 10000) |
| HomePage.StockStep | app/page.tsx:59-61 | the in-stock switch keeps exactly the products with stock > 0 |
| HomePage.Toggle | app/page.tsx:66-71 | toggling flips the chosen band's flag and leaves the other two alone |
| HomePage.ToggleTwice | app/page.tsx:66-71 | toggling a band twice restores the selection |
| HomePage.NewProducts | app/page.tsx:35 | the strip is the first min(5, n) products, in order |

## Left out

- Local storage and JSON (de)serialization: storage is a record with one field per key. `lib/utils/storage` is not part of this model. A malformed stored value is treated like an absent key.
- `exportAsJSON`: it is `JSON.stringify` pretty-printing, a library call.
- Artificial delays, `async`/`await` and interleavings: every call is atomic and runs in sequence. The source is not atomic, so lost updates are not modelled:
  - `removeFromCart` reads the cart (lib/stores/useStore.ts:72), then awaits `getProduct`, which sleeps 50 ms (lib/services/productService.ts:33). Only then does it filter and write that copy (lib/stores/useStore.ts:73-76). An `addToCart` or `updateQuantity` that completes in between is overwritten, in storage and in the store.
  - `updateQuantity` with a quantity of zero or less calls `removeFromCart` without awaiting it (lib/stores/useStore.ts:88). The removal therefore lands after `updateQuantity` has returned.
- `Date.now()`, `new Date()` and `toISOString()`: clock readings and timestamps are parameters. Ids are `prod_`/`user_` followed by the reading in decimal.
- `console.log` output, `window.location.origin` (a parameter of `Env`), `Blob` downloads and `confirm()` dialogs.
- Unicode `toLowerCase`: lower-casing is ASCII only.
- UTF-16 code units: a string is a sequence of Unicode scalar values. A character outside the Basic Multilingual Plane counts as one character, where JavaScript's `.length` counts two. A lone surrogate cannot be represented. So `Strings.QuoteField`'s length clause counts scalar values.
- ProductCsv.ExportLines: it covers only products whose text has no line feed. The admin form takes the description from a `<textarea>` (app/admin/page.tsx:292-294), so multi-line descriptions are realistic. Such a description stays inside its quoted field, as section 2 (rule 6) of RFC 4180 allows, and the export then has more lines than products.
- Floating-point numbers: prices, quantities and stock are unbounded integers. So `prod?.price || 0` is the product's price; the NaN case is not modelled.
- UpdateQuantity: the source calls `analyticsService.trackUpdateCart`, which the shown analytics service does not define. The model queues nothing for a positive quantity update.
- The purchase handler in `app/checkout/confirm/page.tsx`: it calls `productService.getAllProducts`, which is not defined. `Analytics.TrackPurchase` takes the catalog as a parameter instead.
- Favorites state and actions: the header and favorites pages use them, but the store does not define them.
- Extra arguments to the trackers are ignored, as JavaScript ignores them: the store passes the user's name and email to `trackLogin` (lib/stores/useStore.ts:143), and the products page passes a result count to `trackSearch` (app/products/page.tsx:32).
- Store.Login: the store's intermediate `isLoading: true` state is not observable in an atomic model. The thrown error's text is modelled by its kind (`DuplicateEmail`, `InvalidCredentials`), and the re-throw to the page is left out.
- `setLoading`/`setError`: they are plain field setters for the UI.
- Rendering, routing, page loading flags, the header badge (a sum of cart quantities), the quantity dropdown and the tag-manager bootstrap.
- Analytics.TrackProductView, Analytics.TrackSearch, Analytics.TrackLogin, Analytics.TrackRegister: these are modelled as single `Push` calls. They carry no contract of their own beyond what `Analytics.Push` states.
- Numeric validation of price and stock: the services do not enforce it, so the model has no such precondition either.
