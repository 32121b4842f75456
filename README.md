# Perfume shop cart and checkout, modelled in Dafny

This project models the backend of a small perfume shop: its cart, the
WhatsApp checkout preview built from the cart, the catalog listing and CSV
import, the error taxonomy, and the user registry. It proves properties of
that model. The store is one `Database` object (module `Store`). It holds
finite maps for the users, products, carts and cart lines, a `cartOfUser`
index that stands for the unique index on `Cart.user_id`, and a key counter
that hands out fresh keys. Each service call is one method on that object.
A call that fails returns an `Err` carrying the exception it would raise.

Modules, one per source file of the core:

- `Text`: Python's `str(int)` and `int(str)`, the `:,.0f` thousands
  grouping, `str.replace` of one character, ASCII case folding and
  substring search.
- `Percent`: `urllib.parse.quote` as UTF-8 encoding followed by the
  percent-encoding of section 2.1 of RFC 3986. Bytes in the unreserved set
  of section 2.3 and the safe `/` stay as they are. The matching decoder is
  included so that the round trip can be stated.
- `Errors`: the exception hierarchy as one datatype, with status codes,
  messages and headers.
- `Models`: the table rows, their defaults and the two enumerations.
- `Store`: the tables, their integrity invariant `Valid()`, and the lines
  of a cart in insertion order.
- `ProductService`: `get_by_id`, `list_products` and `import_from_csv`.
- `CartService`: get-or-create, add, update, remove, clear, totals and
  the cart view.
- `WhatsAppService`: the checkout header, the order summary and the
  `wa.me` link.
- `OrderService` and `AppOrderService`: the two `prepare_checkout`
  variants. Both share the stock check (`CheckStock`) and the outcome
  function `Compose`. The variants differ only in their header.
- `UserService`: `create`, `update` and `delete`.

Money and quantities are integers. Keys are natural numbers, and a key in
an error message is its decimal text. Timestamps are opaque texts. The
password hash and the configured shop phone number are parameters.

## Model

| member | source | states |
|---|---|---|
| Text.ParseIntRoundTrip | backend/app/services/product_service.py:115-117 | Reading back the decimal text of any integer with `int()` gives that integer. |
| Text.GroupedDigits | backend/app/services/whatsapp_service.py:36 | Removing the thousands commas of a grouped amount leaves exactly its plain decimal digits. |
| Text.FormatAmountDigits | backend/app/services/whatsapp_service.py:38 | A `:,.0f` amount without its commas is `str()` of the amount, the sign included. |
| Text.FormatAmountRoundTrip | backend/app/services/whatsapp_service.py:36-38 | A formatted amount read back after dropping its commas is the amount itself. |
| Text.RemoveCharAbsent | backend/app/services/whatsapp_service.py:25 | `replace(c, "")` leaves a text without `c` unchanged, so stripping is idempotent. |
| Text.RemoveCharCounts | backend/app/services/whatsapp_service.py:25 | Removing `c` keeps the number of occurrences of every other character. |
| Percent.QuoteBytes | backend/app/services/whatsapp_service.py:24 | The encoded text holds only kept characters and `%XX` triplets. |
| Percent.Utf8CharDecodes | backend/app/services/whatsapp_service.py:24 | The first encoded character decodes back, taking exactly the bytes it was encoded in. |
| Percent.Utf8RoundTrip | backend/app/services/whatsapp_service.py:24 | UTF-8 decoding undoes UTF-8 encoding for every text. |
| Percent.UnquoteQuoteBytes | backend/app/services/whatsapp_service.py:24 | Percent-decoding undoes percent-encoding, byte for byte. |
| Percent.QuoteRoundTrip | backend/app/services/whatsapp_service.py:24 | Decoding `quote(text)` gives back the UTF-8 bytes of the text, and they decode to the text. |
| Percent.WellEncodedHasNoDelimiters | backend/app/services/whatsapp_service.py:24 | An encoded text contains no space, `+`, `?` or `&`. |
| Errors.Error.StatusCode | backend/app/core/exceptions.py:3-57 | A base error has the code it was raised with. Each named kind has its fixed code: 404 not found, 401 authentication, 403 permission, 409 duplicate, 400 out of stock and invalid order state. Each code picks out its kind. |
| Errors.Error.Headers | backend/app/core/exceptions.py:27-33 | Only an authentication error carries a header, `WWW-Authenticate: Bearer`. No other named kind carries one. |
| Errors.BaseError | backend/app/core/exceptions.py:3-9 | A base error raised with only a message has status 400, no headers, and that message. |
| Errors.UserNotFound | backend/app/core/exceptions.py:13-19 | Status 404, message "User with identity '<id>' not found". |
| Errors.ProductNotFound | backend/app/core/exceptions.py:13-23 | Status 404, message "Product with identity '<id>' not found". |
| Errors.OutOfStockMessageNamesAll | backend/app/core/exceptions.py:48-53 | The out-of-stock message names the product, the requested count and the available count. |
| Models.ParseType | backend/app/core/enums.py:3-6 | A stored type text reads back as the enumeration value with that text. Any other text is kept as it is and reads as unlisted. |
| Models.NewUser | app/models/core.py:7-17 | A new user is active, not an admin, has no phone, and carries the given fields. |
| Models.NewCartItem | app/models/core.py:48-53 | A line created without a quantity holds quantity 1. |
| Models.NewOrder | app/models/core.py:81-86 | A new order is pending and its message is not yet sent. |
| Store.AtMostOneCartPerUser | app/models/core.py:62 | Under the cart index no user has two carts. |
| Store.CartLinesMembers | app/models/core.py:48-68 | A row is among a cart's lines exactly when it is a stored line of that cart. |
| Store.CartLinesOrdered | app/models/core.py:48-68 | A cart's lines are listed by strictly increasing key, which is insertion order. |
| Store.Database.CartOf | app/models/core.py:60-62 | The cart of a user who has one is a stored cart bound to that user. |
| Store.Database.LinesOf | app/models/core.py:48-68 | Every line of a cart belongs to that cart and refers to a stored product. |
| ProductService.GetById | backend/app/services/product_service.py:14-18 | Succeeds exactly when the key is stored, with that row whether active or not. Otherwise it fails with ProductNotFound, status 404. |
| ProductService.CatalogRowsMembers | backend/app/services/product_service.py:32 | The scanned table holds exactly the stored products. |
| ProductService.Filter | backend/app/services/product_service.py:34-55 | Keeps exactly the rows that satisfy every condition built from the parameters. |
| ProductService.FilterAppend | backend/app/services/product_service.py:54-55 | Filtering distributes over concatenation, so the matching rows keep their scan order. |
| ProductService.CatalogRowsIncreasing | backend/app/services/product_service.py:32 | The model's table scan lists stored products in strictly increasing key order, all below the key counter. This order is the model's choice: the query has no ORDER BY. |
| ProductService.FilterKeepsIncreasing | backend/app/services/product_service.py:54-55 | Filtering keeps rows in increasing key order. |
| ProductService.Window | backend/app/services/product_service.py:57 | OFFSET/LIMIT skips the first `skip` rows and returns the next ones in order. There are `min(limit, rows - skip)` of them, or none when `skip` reaches past the end. |
| ProductService.ListedIsPage | backend/app/services/product_service.py:32-59 | `list_products` returns the page of matching products that starts at match number `skip`. The page has the length OFFSET/LIMIT gives. It lists products in increasing key order, which is the model's scan order, not an order the query guarantees. |
| ProductService.ListedSatisfiesFilters | backend/app/services/product_service.py:34-57 | Every listed product is stored and meets each supplied filter: type, brand ILIKE, search in name, description or brand, price bounds, in stock. The listing has at most `limit` entries. |
| ProductService.UnfilteredKeepsAll | backend/app/services/product_service.py:54-55 | With no parameters there is no WHERE clause and every row is a candidate. |
| ProductService.FieldName | backend/app/services/product_service.py:76-94 | A Spanish header is renamed by the fixed mapping. Any other header keeps its name. |
| ProductService.MapRowValue | backend/app/services/product_service.py:94 | A column keeps its value under its renamed key unless a later column names the same field. |
| ProductService.MapRowKeys | backend/app/services/product_service.py:94 | The keys of a mapped row are exactly the renamed headers. |
| ProductService.NumberField | backend/app/services/product_service.py:115-117 | An absent or empty numeric field is 0. |
| ProductService.ProductDataOf | backend/app/services/product_service.py:111-124 | Name and brand are copied. Empty price, stock and size are 0. A missing type is the default type. |
| ProductService.NewProductFrom | backend/app/services/product_service.py:132-133 | An inserted product is active, has no image, and carries the row's fields. |
| ProductService.Overwrite | backend/app/services/product_service.py:126-128 | An update keeps the key, image and active flag and overwrites every other field from the row. |
| ProductService.FindByNameBrand | backend/app/services/product_service.py:102-109 | Finds the first stored product with that name and brand, or reports that none exists. |
| ProductService.ImportRow | backend/app/services/product_service.py:94-137 | A skipped row changes nothing. Otherwise the row counts exactly once and no product disappears. |
| ProductService.ImportAccountsForEveryRow | backend/app/services/product_service.py:90-137 | added + updated + errors + skipped rows equals the number of rows. |
| ProductService.ImportKeepsProducts | backend/app/services/product_service.py:126-134 | The import removes no product and keeps the table keyed below the counter. |
| ProductService.ImportRowUpserts | backend/app/services/product_service.py:102-134 | A matching (name, brand) overwrites the first match and counts as updated. A new pair inserts a fresh product and counts as added. |
| ProductService.ImportRowLogsFailure | backend/app/services/product_service.py:136-137 | A failing row changes no product and logs "Error en fila <index+2>: <reason>". |
| ProductService.ImportOne | backend/app/services/product_service.py:94-137 | One pass of the loop updates the products and counters as the row semantics say. Users, carts and lines stay as they are. |
| ProductService.ImportFromCsv | backend/app/services/product_service.py:70-140 | The loop leaves the products and summary that the row-by-row fold gives, keeps the store valid, and touches nothing else. |
| CartService.CalculateTotalAppend | backend/app/services/cart_service.py:127-130 | Both totals add up over any split of the lines. |
| CartService.TwoLineTotal | backend/app/services/cart_service.py:127-130 | A two-line cart totals q1·p1 + q2·p2 over q1 + q2 items. |
| CartService.ItemResponse | backend/app/services/cart_service.py:39-51 | A line's subtotal is quantity·price_at_addition, and the shown price is the product's live price. |
| CartService.SubtotalsSumToTotal | backend/app/services/cart_service.py:33-58 | The reported subtotals sum to the reported total amount. |
| CartService.GetOrCreateCart | backend/app/services/cart_service.py:13-31 | Returns the user's existing cart unchanged, or creates exactly one empty cart bound to the user. Lines, users and products are untouched. |
| CartService.GetOrCreateTwice | backend/app/services/cart_service.py:13-31 | Two calls for one user return the same cart. |
| CartService.FindLine | backend/app/services/cart_service.py:66-70 | Returns a line of that product if the cart has one, and reports none only when no line has it. |
| CartService.AddItem | backend/app/services/cart_service.py:61-86 | A missing product gives ProductNotFound and a short stock gives OutOfStock; neither changes anything. Otherwise the existing line grows by `quantity`, or one new line is inserted, at the current price. One line per product is kept. |
| CartService.AddChecksOnlyTheAddedAmount | backend/app/services/cart_service.py:62-74 | Stock is checked against the amount added, not the line's new quantity: 3 in the cart plus 3 more of a product with 5 in stock gives one line of 6. |
| CartService.UpdateCartItem | backend/app/services/cart_service.py:88-103 | Checks run in order: missing line (EntityNotFound), then another cart (PermissionDenied), then stock (OutOfStock). On success only that line's quantity is set, to exactly the new value. |
| CartService.RemoveCartItem | backend/app/services/cart_service.py:105-115 | Runs the same two checks in the same order, then deletes exactly that line. |
| CartService.ClearCart | backend/app/services/cart_service.py:117-124 | Deletes every line of the cart and no line of any other cart. |
| CartService.GetCartForUser | backend/app/services/cart_service.py:33-58 | The view lists the cart's lines in order with their subtotals. The totals are the sums over the lines, and the subtotals add up to the total. |
| WhatsAppService.CheckoutHeaderParts | backend/app/services/whatsapp_service.py:7-12 | The header opens with the banner, names the customer and the date, and ends with the cart heading. |
| WhatsAppService.GenerateCheckoutMessage | backend/app/services/whatsapp_service.py:7-20 | The message is the header for the customer and the cart's last update. It does not depend on the lines, whose total is computed and dropped. |
| WhatsAppService.CleanPhoneKeepsOrder | backend/app/services/whatsapp_service.py:25 | Cleaning works character by character: the cleaned concatenation is the concatenation of the cleaned parts, and one character is dropped exactly when it is `+` or a space. The other characters keep their order. |
| WhatsAppService.CleanPhoneKeepsOthers | backend/app/services/whatsapp_service.py:25 | The cleaned number has no `+` and no space, and every other character occurs as often as before. |
| WhatsAppService.LinkShape | backend/app/services/whatsapp_service.py:26 | After `https://wa.me/` the link is the cleaned number, `?`, and `text=` with the encoded text. |
| WhatsAppService.WhatsappLinkRoundTrip | backend/app/services/whatsapp_service.py:22-26 | For a number without `?`, reading the link back gives the cleaned number and exactly the original text. The link has no space. |
| WhatsAppService.TypeLabel | backend/app/services/whatsapp_service.py:35 | The label is "Sellado" exactly when the stored type text is "sealed". Every other type reads "Decant 5ml": decant, none, and any unlisted text. |
| WhatsAppService.SummaryLinesAppend | backend/app/services/whatsapp_service.py:32-36 | The summary lines of two runs of pairs are the first run's lines followed by the second's. Each pair contributes its own line. |
| WhatsAppService.FormatOrderSummary | backend/app/services/whatsapp_service.py:28-39 | The loop builds the pairs' lines in order followed by the total line, as `OrderSummary` specifies. |
| WhatsAppService.SummaryMentionsEveryPair | backend/app/services/whatsapp_service.py:32-36 | Every pair's line occurs in the summary. |
| WhatsAppService.PairsTotalIsCartTotal | backend/app/services/whatsapp_service.py:31-38 | The summary's total is the cart total of its lines. |
| WhatsAppService.TotalLineAmount | backend/app/services/whatsapp_service.py:38 | The amount printed in the total line reads back as the cart total. |
| OrderService.FirstShort | backend/app/services/order_service.py:15-20 | Finds the first line, in cart order, whose product stock is below its quantity. It reports none exactly when every line is covered. |
| OrderService.Pairs | backend/app/services/order_service.py:15-22 | Dropping the products gives back exactly the cart lines, in order. Each line is paired with the stored product it refers to. |
| OrderService.CheckStock | backend/app/services/order_service.py:15-22 | The loop stops with OutOfStock for the first uncovered line, naming the product, requested and available. Otherwise it returns every line with its product. |
| OrderService.PrepareCheckout | backend/app/services/order_service.py:10-38 | The outcome is `Compose` of the cart's lines under the date header. At most one empty cart is created, and no line or stock changes. |
| OrderService.CheckoutSucceedsIff | backend/app/services/order_service.py:11-22 | A checkout succeeds exactly when the cart is non-empty and every line is covered. An empty cart gives "Cart is empty" with status 400. |
| OrderService.CheckoutNamesFirstShortLine | backend/app/services/order_service.py:15-20 | A refused checkout names the first uncovered line: product name, quantity asked and stock. |
| OrderService.CheckoutTextLayout | backend/app/services/order_service.py:24-28 | The prepared text is the header, then one summary line per cart line in cart order, then the total line carrying the cart's total, then the footer. |
| OrderService.CheckoutMessageParts | backend/app/services/order_service.py:24-38 | A prepared checkout says "Checkout prepared". Its text opens with the header, contains every line, totals the cart total and ends with the footer. Its link carries exactly that text to the cleaned number. |
| AppOrderService.AppHeaderParts | app/services/order_service.py:32-36 | The header opens with the banner, names the user by username and by email, and ends with the cart heading. |
| AppOrderService.PrepareCheckout | app/services/order_service.py:10-52 | The outcome is `Compose` of the cart's lines under the username-and-email header. Nothing else changes beyond a possible new empty cart. |
| AppOrderService.ChecksAgree | app/services/order_service.py:18-42 | Checkouts of one cart under two headers succeed together and fail with the same error. On success their texts agree after the header. |
| UserService.FindBy | backend/app/services/user_service.py:10-20 | Finds a stored user with that email (or username), and reports none exactly when no stored user has it. |
| UserService.Create | backend/app/services/user_service.py:22-39 | The outcome is `CreateOutcome`. A refusal leaves the store as it was. A new user is stored under a fresh key. |
| UserService.CreateOutcomeCases | backend/app/services/user_service.py:24-35 | A taken email gives DuplicateEntity on email, status 409. Otherwise a taken username gives DuplicateEntity on username. Success happens exactly when both are free, and stores the hash, never the password. |
| UserService.CreateKeepsLoginsUnique | backend/app/services/user_service.py:24-27 | A successful registration keeps emails and usernames unique. |
| UserService.Hashed | backend/app/services/user_service.py:43-44 | A given password is replaced by `hashed_password` = hash(password), and no password key remains. |
| UserService.AssignStep | backend/app/services/user_service.py:46-47 | Each `setattr` extends the applied changes by one key. |
| UserService.UpdateFailsIff | backend/app/services/user_service.py:41-52 | An update is saved exactly when no password, email or username is given as null. A null password fails at hashing, before a null login would fail at the commit. |
| UserService.Update | backend/app/services/user_service.py:41-52 | The outcome is that of UpdateOutcomeOf. On success the stored user becomes the old one with exactly the hashed changes applied. On failure nothing is stored. Nothing else changes. |
| UserService.UpdateSetsExactly | backend/app/services/user_service.py:41-52 | Each field reads back as its new value when the dictionary names it and as before otherwise. A password is stored only as its hash. |
| UserService.UpdateCanDuplicateEmail | backend/app/services/user_service.py:46-52 | An update checks no uniqueness: it can give a user another user's email. |
| UserService.Delete | backend/app/services/user_service.py:54-57 | Removes exactly that user and nothing else. |

## Left out

- Quantity validation: the code never checks that a quantity is positive. `add_item` and `update_cart_item` only compare against stock. The model therefore accepts zero and negative quantities, as the code does, and has no ValidationError.
- CartService.AddItem: it has no `is_active` check, so an inactive product can be added, as `get_by_id` allows. It requires the cart key to be a stored cart, which the foreign key on `CartItem.cart_id` enforces at commit.
- CartService.UpdateCartItem: it reads the line's product directly, because the foreign key guarantees it exists. The ProductNotFound branch of `get_by_id` cannot occur there.
- WhatsAppService.GenerateCheckoutMessage: the backend header names the customer and the date, not an email; only the app variant shows the email. The date is the cart's stored timestamp text. `strftime` and clocks are not modelled.
- WhatsAppService.TypeLabel: every type other than "sealed" reads "Decant 5ml", as the code does. No type text is passed through.
- WhatsAppService.WhatsappLinkRoundTrip: it is stated for numbers without `?`. A `?` in the configured number would end the path early, and the link would not read back.
- Floating-point prices: prices are integers, and `:,.0f` is modelled as the digit grouping of an integer. Rounding is not modelled.
- ProductService.NumberField: the source reads the price column with `float()`, so a fractional price such as "12.50" is imported. The model parses the column as an integer and reports such a row as a failed row.
- `int()` leniency: `int()` also accepts surrounding whitespace and digit-group underscores. The model parses an optional sign and digits only.
- SQL details: ILIKE treats `%` and `_` in the user's text as wildcards, while the model matches plain case-insensitive substrings. `first()` without ORDER BY is modelled as the lowest key. `Database.Valid()` does not include `UniqueLogins`, and the model's `Update` can create duplicate emails or usernames (`UpdateCanDuplicateEmail`). The source's unique indexes refuse such a commit. On duplicates, `UserService.FindBy` returns the lowest key, where `scalar_one_or_none` would raise.
- Models.UniqueLogins: it is kept out of `Database.Valid()` because only the database's unique indexes enforce it. Registration checks it first (`CreateKeepsLoginsUnique`). Update does not check it, and the commit rejection of a duplicate is not modelled.
- UserService.Update: a commit that refuses a null email or username leaves the stored row as it was. The model does not follow the in-memory object that the `setattr` calls changed before the commit.
- Database rejections at commit: apart from the null email or username of an update, the store does not reject an unlisted product type, a duplicate email after an update, or a dangling key. Such rows are stored as the model's code writes them.
- User deletion: cascades and foreign-key failures for a deleted user's cart or orders are not modelled.
- ProductService.ListProducts: the query has no ORDER BY, so the database promises no row order for the listing, and OFFSET/LIMIT may page over any order. The model scans the table in increasing key order, and `CatalogRowsIncreasing` and `ListedIsPage` state that chosen order.
- ProductService.Window: `skip` and `limit` are natural numbers. The route declares them as plain integers with no lower bound, so negative values reach the query, and what OFFSET or LIMIT then does depends on the database engine. Negative values are not modelled.
- Text.Lower: the brand and search filters fold case for ASCII letters only. The database's ILIKE may also fold accented letters, such as "É" to "é", so a search can match rows in the source that the model does not list.
- UUIDs: keys are natural numbers from a counter. The identity in an error message is the key's decimal text, and the cart's lines are listed in insertion order.
- Error messages: Python's `repr` escaping inside quoted values is not modelled.
- CSV reading: file I/O, `sync_from_csv`, UTF-8 decoding of the upload and `csv.DictReader` are not modelled. Rows arrive as (header, value) pairs. A short row's missing fields are simply absent, not `None`.
- Transactions: async execution, concurrent requests and other commit failures are not modelled. Each service call is one atomic step.
- External functions: password hashing and JWT are not modelled. The hash is a function parameter, and the configured phone number is a parameter.
- HTTP routes: the routers repeat some service checks. They are not part of this model.
- `get_by_email` and `get_by_username`: they are modelled as lookups within `create`, their only caller in the core.
