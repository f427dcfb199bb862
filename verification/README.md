# Music shop cart and checkout, modelled in Dafny

This project models the business logic behind the music shop's cart and
checkout views, with the web framework and the ORM taken away:

- **Cart line items** (`cart_items.dfy`, module `CartItems`). These are add to cart,
  delete from cart and change quantity. Each view finds or creates one line item keyed
  by (cart, product, owner). The owner is the cart's customer for a logged-in visitor
  and the session key otherwise (`Owner = Customer(id) | Session(key)`). The view then
  changes the line table and the cart's many-to-many product list, and finally refreshes
  the cart's totals. The line table is a `map<LineKey, int>`. The product list is a
  duplicate-free `seq<LineKey>` kept in attachment order. A failed content-type or slug
  lookup is a `Fault`, and nothing is written when it happens.
- **Order placement** (`checkout.dfy`, module `Checkout`). This is the view that turns a
  cart into an order. Every line is classified against its product's stock as sold out,
  short or available. The notice names the sold-out products joined with ',', and it
  names only the last short line, because the report loop assigns instead of appending.
  The view is atomic: it returns either the committed store or the store it was given.
  A commit sets `in_order`, appends one order for this customer and cart, links the
  order to the customer, and takes each line's quantity off its product's stock, one
  line at a time.
- **Album search** (`search.dfy`, module `Search`). The cleaned search form becomes a
  conjunction of criteria over album records (artist, genre slug, media type, release
  day), and the catalog is filtered by it.
- `text.dfy` (module `Text`) holds the ',' join and the split that undoes it.
  `common.dfy` (module `Common`) holds `Option` and `Result`.

Points about the code that the model keeps as written:
- A line counts as short when its stock is non-zero and below the quantity, so a
  negative stock counts too (views.py:262).
- The submitted quantity is not validated (views.py:198).
- Deleting a product removes only the line keyed by the requesting owner (views.py:162-172). A line for the same product under the other owner stays attached and keeps counting in the total.
- Each line is checked against the stock alone, but the commit loop takes every line
  off in turn (views.py:257-266, 305-307). So when two lines of one cart name the same
  product, with quantity 3 each and a stock of 5, the loop computes 5 - 3 - 3 = -1 (see
  `Checkout.DuplicateLinesOversell`). Whether -1 is stored depends on the type of the
  stock column. Whether one cart can hold both such lines depends on how its cart is
  chosen and created. Neither is part of this model.
- The empty-query branch of the search can never be reached, because genre and media
  type are always added to the query. An empty form finds nothing because an empty
  genre or media-type list matches nothing.

## Model

| member | source | states |
|---|---|---|
| `CartItems.AddToCart` | music_shop/musicshop/views.py:136-146 | the resolved line always exists afterwards; an existing line keeps its quantity and nothing is attached; a missing line is created with the default quantity and attached; a created line belongs to this cart and product and is keyed by the cart's customer when logged in, else by the session key; only the product list and total of the cart change; totals agree with the attached lines |
| `CartItems.DeleteFromCart` | music_shop/musicshop/views.py:162-173 | afterwards no line and no attachment remains for this request's key (cart, product, owner); every other line, including a line of the same product under the other owner, keeps its presence and quantity; the product list loses exactly that key and the remaining keys keep their order; totals agree with the attached lines |
| `CartItems.ChangeQty` | music_shop/musicshop/views.py:189-201 | the addressed line (created if missing) holds the submitted integer; every other line is unchanged; the cart's product list is unchanged, so a created line is not attached |
| `CartItems.Recalc` | music_shop/musicshop/views.py:146 | assumed placeholder for the totals refresh: the cached total equals the sum of the attached lines' quantities, and nothing else changes |
| `CartItems.Attach` | music_shop/musicshop/views.py:145 | many-to-many add: attaching an already attached key changes nothing, and a new key is appended at the end; the result stays duplicate-free |
| `CartItems.Without` | music_shop/musicshop/views.py:171 | many-to-many remove: the result holds exactly the old keys other than the removed one, stays duplicate-free, and is unchanged when the key was absent |
| `CartItems.WithoutCounts` | music_shop/musicshop/views.py:171 | the remove drops every occurrence of the removed key and keeps each other key exactly as often as before |
| `CartItems.WithoutKeepsOrder` | music_shop/musicshop/views.py:171 | any two keys left after the remove occur in the old list in the same relative order |
| `CartItems.Resolve` | music_shop/musicshop/views.py:128-130 | the lookup succeeds exactly when the content-type model and the slug both exist, and yields that model and object id; otherwise it reports which lookup failed |
| `CartItems.CartRequest` | music_shop/musicshop/views.py:127-201 | a request fails exactly when the product lookup fails, with that fault; otherwise it yields the chosen view's result |
| `CartItems.CartRequestKeepsWf` | music_shop/musicshop/views.py:127-201 | a successful cart request, whichever view it runs, keeps the cart well formed |
| `CartItems.ViewsPreserveWf` | music_shop/musicshop/views.py:136-201 | each of the three views keeps the cart well formed: attached lines exist, belong to this cart, appear once, and the total agrees |
| `CartItems.AddIdempotent` | music_shop/musicshop/views.py:136-145 | adding a product twice gives the same state as adding it once |
| `CartItems.AddExistingUnchanged` | music_shop/musicshop/views.py:144-146 | adding a product that already has a line leaves the state unchanged |
| `CartItems.AddNewTotal` | music_shop/musicshop/views.py:144-146 | adding a new product raises the cart total by the new line's quantity |
| `CartItems.DeleteAbsentUnchanged` | music_shop/musicshop/views.py:164-172 | deleting a product that has no line leaves the state unchanged |
| `CartItems.DeleteTotal` | music_shop/musicshop/views.py:171-173 | deleting lowers the total by the line's quantity when that line was attached, and leaves it otherwise |
| `CartItems.ChangeQtyTotal` | music_shop/musicshop/views.py:198-201 | a quantity change moves the total by the difference for an attached line, and not at all for an unattached one |
| `CartItems.StrayLineNeverAttached` | music_shop/musicshop/views.py:191-200 | a line created by a quantity change stays unattached when the product is added afterwards, keeps the submitted quantity, and never counts in the total |
| `Text.Join` | music_shop/musicshop/views.py:268 | the joined text starts with the first part and its length is the parts' total length plus one separator between each pair of neighbours |
| `Text.SplitJoin` | music_shop/musicshop/views.py:268 | splitting the ','-joined sold-out names at ',' gives the names back, when none of them contains ',' |
| `Checkout.Items` | music_shop/musicshop/views.py:257 | the reviewed lines are the cart's attached line items, one per attachment and in attachment order, each with its product and stored quantity |
| `Checkout.Label` | music_shop/musicshop/views.py:259-260 | a product is reported as its artist name, one '-', then its title, so the title can be read back once the artist name's length is known |
| `Checkout.LabelsCollide` | music_shop/musicshop/views.py:259-260 | the label does not tell products apart: artist `A-B` with title `C` and artist `A` with title `B-C` are both reported as `A-B-C` |
| `Checkout.ClassOf` | music_shop/musicshop/views.py:258-266 | a line is sold out exactly when stock is 0, short exactly when stock is non-zero and below the quantity, and available otherwise; no line is in two classes |
| `Checkout.SoldOutLabels` | music_shop/musicshop/views.py:258-261 | the sold-out list is empty exactly when no line is sold out |
| `Checkout.Shortages` | music_shop/musicshop/views.py:262-266 | the shortage list is empty exactly when no line is short |
| `Checkout.NoticeFor` | music_shop/musicshop/views.py:267-284 | the notice rejects exactly when some line is not available; its sold-out part is present exactly when some line is sold out and is the names joined with ','; its shortage part is present exactly when some line is short and is the last shortage |
| `Checkout.ReviewStock` | music_shop/musicshop/views.py:253-282 | the two review loops, as written, produce exactly that notice |
| `Checkout.Decrement` | music_shop/musicshop/views.py:305-307 | the commit loop keeps every catalog product; each product loses the total quantity its lines ask for, and all its other fields stay the same |
| `Checkout.Commit` | music_shop/musicshop/views.py:288-307 | the commit sets only the cart's `in_order`, appends exactly one order for this customer and cart, links it to the customer, keeps every catalog product and takes from each exactly the quantity the cart's lines ask of it |
| `Checkout.MakeOrder` | music_shop/musicshop/views.py:248-311 | every outcome but a placed order leaves the store unchanged; a missing customer fails first, then an invalid form; an order is placed exactly when the customer and form are present and every line is available; a stock rejection carries the review's notice; a placed order flags only the cart's `in_order`, appends exactly one order for this customer and cart, links it to the customer, and decrements the catalog |
| `Checkout.SoldOutLabelsMembers` | music_shop/musicshop/views.py:258-261 | a name is in the sold-out list exactly when some sold-out line carries it |
| `Checkout.LastShortageReported` | music_shop/musicshop/views.py:271-275 | when line i is the last short line, the notice reports line i's product, stock and quantity |
| `Checkout.PlacedStock` | music_shop/musicshop/views.py:305-307 | after a placed order, each product's stock drops by exactly what the cart's lines ask of it, and a product no line names is unchanged |
| `Checkout.NoOversellWhenDistinct` | music_shop/musicshop/views.py:257-307 | when each product is on at most one line, every product in the cart keeps a stock of at least 0 after a placed order; if all stocks were non-negative, they all stay so |
| `Checkout.DuplicateLinesOversell` | music_shop/musicshop/views.py:257-307 | two lines of 3 for one product with stock 5 (one keyed by session, one by customer) both pass the review, and the order drives the stock to -1 |
| `Checkout.ShortLineRejected` | music_shop/musicshop/views.py:262-286 | a line of 10 against a stock of 3 is rejected with a report of product, stock 3 and quantity 10, and the store is unchanged |
| `Search.BuildQuery` | music_shop/musicshop/views.py:320-343 | the query always holds the genre criterion and the media-type criterion; it holds the artist and each date bound exactly when the form sets them, with the form's values; it holds nothing else, and its length is two plus the number of set options, so it is never empty |
| `Search.QueryMeaning` | music_shop/musicshop/views.py:320-343 | an album satisfies the AND of the assembled criteria exactly when it matches the form: artist when set, genre and media type among the chosen ones (equality for a single choice agrees with membership), inclusive date bounds when set |
| `Search.Filter` | music_shop/musicshop/views.py:346 | the result holds exactly the albums that satisfy the query, each as often as in the catalog, and is no longer than the catalog |
| `Search.SearchView` | music_shop/musicshop/views.py:316-348 | an invalid form gives no result set; a valid one gives exactly the catalog albums that match the form |
| `Search.EmptyChoiceFindsNothing` | music_shop/musicshop/views.py:325-335 | an empty genre or media-type choice yields an empty result |
| `Search.TwoGenresUnion` | music_shop/musicshop/views.py:325-329 | choosing two genres finds the union of what each genre finds alone |
| `Search.CriteriaNarrow` | music_shop/musicshop/views.py:321-343 | setting the artist or a date bound never adds a result |

## Left out

- Rendering, redirects, flash messages and the referer header. The notice is an abstract value (sold-out part and shortage part), not the message text.
- Login, registration, the account page, the cart and checkout pages, wishlist add and remove, and marking notifications read. These are authentication plumbing or bare ORM calls.
- The totals refresh and the cart creation helpers from `utils` are outside this project. `CartItems.Recalc` is an assumed placeholder: the total quantity is the sum over attached lines. The final price is not modelled, because product prices live in the Django model classes, which are outside this project.
- The new-line quantity default is assumed to be 1 (`CartItems.NewLineQty`), because the Django model classes are outside this project.
- The cart mixin that picks the request's cart is outside this project. `CartItems.OwnerKnown` assumes that a logged-in visitor's cart records its customer. The session key is assumed to exist.
- A line is keyed by exactly one owner, so the nullable user and session columns that could both be set or both be empty are not modelled. Neither is the multiple-match error of get-or-create.
- CartItems.ChangeQty: stores any integer, including zero or a negative one. The quantity column's type is defined in the Django model classes, which are outside this project. If that column rejected the value, the save at views.py:200 would raise. The line would then keep its previous quantity, which is the default for a line that get-or-create had just made, and the totals refresh would not run. That outcome is not modelled.
- Parsing the submitted quantity with `int(...)`. `CartItems.ChangeQty` takes the integer, and a parse failure is not modelled.
- A cart line whose product no longer exists, which makes the checkout view crash. `Checkout.Ready` requires every attached line to exist and name a catalog product.
- Persistence faults during the commit, transaction isolation and concurrent checkouts. Atomicity is captured by the returned store.
- Column constraints on the stock field. Its type is defined in the Django model classes, which are outside this project. `Checkout.Decrement` stores whatever integer the subtraction gives, including a negative one. If the column rejected negative values, the save would fail and the atomic view would roll the order back. That outcome is not modelled.
- The view does not check `in_order` before mutating or ordering a cart. The model does not add such a check.
- The order of the queryset is the cart's attachment order. The search keeps catalog order. Neither is promised by the database.
- The artist lookup channel, the month bestseller and the catalog pages.
