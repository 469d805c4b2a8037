# Verified model of the e-commerce REST backend

The backend is an Express server over MySQL. Most of its routes turn one
HTTP request into one or a few SQL statements. This project models those
routes in Dafny. It covers products (two generations of the product
routes), orders and their item snapshots, accounts with their email
verification and password reset tokens, administrator notifications, blog
posts and the JSON price list.

Each table is a sequence of rows. Each row has an AUTO_INCREMENT key, and
keys are positive, strictly increasing and below the counter
(`Tables.WellFormed`). Request bodies are JavaScript values (`JsValues.JsValue`).
The model gives them JavaScript's truthiness, `||`, destructuring defaults,
property reads that throw on `undefined`/`null`, and `typeof … === 'number'`.

A route handler is one of two things:
- a method of a class that owns the table. It states the reply and the new
  rows, including the 400/404/500 paths that leave the rows as they were;
- a pure outcome function, where the source's logic is pure, with the
  class method proved equal to it.

A reply is `Status(code)` or `Uncaught`. `Uncaught` is an exception thrown
inside a driver or file-system callback, which the handler's `try` cannot
catch.

The modules follow the source files:

| module | file |
|---|---|
| `Products` | BackEnd/ProductRoutes.js |
| `LegacyProducts` | src/Server/ProductRoutes.js |
| `Orders` | BackEnd/OrderRoutes.js |
| `Users` | BackEnd/UserRoutes.js |
| `Notifications` | BackEnd/NotificationsRoutes.js |
| `BlogPosts`, `Trimming` | BackEnd/blogpostsRoutes.js |
| `PriceList` | BackEnd/pricelistRoutes.js |

The shared vocabulary lives in `Wrappers`, `Http`, `JsValues`, `Tables`,
`Ordering` (ORDER BY … DESC) and `Decimal` (`toFixed(2)`).

## Model

| member | source | states |
|---|---|---|
| Products.UploadPaths | BackEnd/ProductRoutes.js:30 | one path per uploaded file, in order, each `/uploads/<filename>` |
| Products.NewProduct | BackEnd/ProductRoutes.js:31-43 | the inserted row's image list is exactly the upload paths; a truthy specs is stored as its JSON, a falsy one as NULL |
| Products.ProductTable.Create | BackEnd/ProductRoutes.js:21-49 | no file gives 400 and more than three give 500, both with no insert; otherwise 201 and exactly one new row under the next key |
| Products.UpdatedProduct | BackEnd/ProductRoutes.js:54-65 | every text and price field comes from the form and the image list is kept; a falsy discount (undefined, null, false, "", 0) becomes 0 and a truthy one is kept; an undefined specs becomes NULL |
| Products.ProductTable.Update | BackEnd/ProductRoutes.js:52-77 | a missing required field gives 400 and an unknown id 404, neither writing; otherwise 200 and only that row is replaced |
| Products.ImagesForUpdate | BackEnd/ProductRoutes.js:94 | NULL and empty columns read as []; only malformed text throws |
| Products.SetSlot | BackEnd/ProductRoutes.js:95-97 | defined exactly for an existing slot; the length is kept and only that slot changes, to the new path |
| Products.ProductTable.UpdateImage | BackEnd/ProductRoutes.js:80-106 | a missing file or an index outside 0..2 gives 400 before any lookup; an unknown id gives 404; an unparsable image column gives 500; an index past the list gives 400; none of these write; 200 exactly when the slot exists, replacing only that slot and answering the stored path |
| Products.Present | BackEnd/ProductRoutes.js:126-133 | NULL or empty specs/image read as []; if either column fails to parse, both read as [] |
| Products.CreatedProductReadsBack | BackEnd/ProductRoutes.js:30-41 | a created product reads back with its upload paths and its specs (or []) |
| Products.SlotUpdateReadsBack | BackEnd/ProductRoutes.js:97-99 | after a slot update, reading the product shows the new path in that slot and every other slot as before |
| Products.ProductTable.Get | BackEnd/ProductRoutes.js:120-140 | 404 exactly for an unknown id; otherwise 200 with the parsed view of that row |
| Products.ProductTable.Delete | BackEnd/ProductRoutes.js:143-154 | 404 exactly when no row has the id; afterwards no row has it and every other row stays |
| Products.ApplyDiscount | BackEnd/ProductRoutes.js:176-179 | one UPDATE keeps every row's key and the row count |
| Products.LastDiscountFor | BackEnd/ProductRoutes.js:169-179 | the discount a product ends with always has two decimals |
| Products.ApplyDiscountsEffect | BackEnd/ProductRoutes.js:169-180 | after the loop, each product's discount is the rounded value of the last entry naming it; unnamed products and all other columns are unchanged |
| Products.BulkDiscountOutcome | BackEnd/ProductRoutes.js:157-191 | a non-array or empty list gives 400; 200 exactly when every entry has a truthy id and a number discount and no database step fails; anything short of 200 leaves the table unchanged |
| Products.BulkFailure | BackEnd/ProductRoutes.js:172-187 | any invalid entry, failed UPDATE, BEGIN or COMMIT gives 500 with the table rolled back |
| Products.BulkSuccess | BackEnd/ProductRoutes.js:169-183 | with every entry valid and no fault, the transaction commits all the updates |
| Products.ProductTable.RunDiscountUpdates | BackEnd/ProductRoutes.js:169-180 | the loop either applies every entry in order or reports the first entry that throws or fails |
| Products.ProductTable.UpdateDiscounts | BackEnd/ProductRoutes.js:157-191 | reply and table are as BulkDiscountOutcome says; the pool connection count is back where it was on every path |
| Decimal.Round2 | BackEnd/ProductRoutes.js:178 | `toFixed(2)`: the result has two decimals, lies within half a hundredth and keeps the sign |
| Decimal.Round2KeepsTwoDecimals | BackEnd/ProductRoutes.js:178 | a value that already has two decimals is stored unchanged |
| Decimal.Round2Idempotent | BackEnd/ProductRoutes.js:178 | rounding twice is rounding once |
| Decimal.Round2IsNearest | BackEnd/ProductRoutes.js:178 | no two-decimal number is closer to the input than the rounded value |
| LegacyProducts.LegacyUpdatedProduct | src/Server/ProductRoutes.js:25-35 | every text and price field comes from the form; discount defaults to 0 only when undefined; a falsy specs is stored as NULL; the image list is kept |
| LegacyProducts.UpdateHandlersDiffer | src/Server/ProductRoutes.js:23-77 | the two PUT handlers write the same discount unless it is present, falsy and not 0; they write the same specs unless it is present and falsy |
| LegacyProducts.UpdateProduct | src/Server/ProductRoutes.js:23-47 | the first registered PUT handler: 400 for a missing required field and 404 for an unknown id, neither writing; otherwise only that row changes |
| LegacyProducts.LegacyImages | src/Server/ProductRoutes.js:104 | `JSON.parse(image) \|\| []`: NULL reads as []; empty or malformed text throws |
| LegacyProducts.ImageReadsDiffer | src/Server/ProductRoutes.js:104 | the two image-slot handlers read the column differently exactly when it is empty text |
| LegacyProducts.UpdateImage | src/Server/ProductRoutes.js:80-124 | 400 and 404 as in the newer handler; an unparsable column throws uncaught; an index past the list gives 400; 200 exactly for an existing slot, replacing only that slot and answering it |
| LegacyProducts.LegacyBulkOutcome | src/Server/ProductRoutes.js:184-233 | 400 only for a non-array; 200 exactly when every discount is a number and BEGIN, every UPDATE and COMMIT succeed; otherwise 500 with no change |
| LegacyProducts.EmptyDiscountListAccepted | src/Server/ProductRoutes.js:187-223 | an empty list commits with no change here, while the newer handler refuses it with 400 |
| LegacyProducts.LegacyAgreesWhenBackEndCommits | src/Server/ProductRoutes.js:198-224 | whatever the newer handler commits, this one commits too, leaving the same table |
| LegacyProducts.FalsyIdChangesNothing | src/Server/ProductRoutes.js:200-202 | an entry with a falsy id names no row and changes nothing |
| LegacyProducts.DispatchUpdates | src/Server/ProductRoutes.js:198-211 | the UPDATEs run in order and either all apply or the first failing entry is reported |
| LegacyProducts.UpdateDiscounts | src/Server/ProductRoutes.js:184-233 | reply and table are as LegacyBulkOutcome says |
| Orders.RequestItems | BackEnd/OrderRoutes.js:21 | items defaults to [] only when undefined |
| Orders.NewOrder | BackEnd/OrderRoutes.js:17-35 | status defaults to 'processing' only when undefined; every other column is the body's value; created_at is now |
| Orders.StatusChecks | BackEnd/OrderRoutes.js:112-117 | the create stores the status unchecked, so a new order holds a status the update would accept exactly when it was defaulted or sent as one of the five |
| Orders.Field | BackEnd/OrderRoutes.js:45 | for a reached item, `item.<key>` as a property read gives it |
| Orders.ItemRow | BackEnd/OrderRoutes.js:40-46 | each item row carries the new order's id |
| Orders.Dispatched | BackEnd/OrderRoutes.js:40-47 | the map reaches every item before the first undefined or null one, which throws |
| Orders.Landed | BackEnd/OrderRoutes.js:40-49 | no more item rows land than items were reached |
| Orders.LandedAll | BackEnd/OrderRoutes.js:40-49 | with no rejected INSERT, each reached item lands as one row, in order, carrying that item's fields |
| Orders.LandedFewer | BackEnd/OrderRoutes.js:38-49 | a rejected INSERT leaves fewer rows than items reached |
| Orders.SuccessStoresEveryItem | BackEnd/OrderRoutes.js:31-51 | a 201 create stores one row per submitted item, in order, each with the order id and that item's product_id, quantity, price and name |
| Orders.FailureLeavesFewerItems | BackEnd/OrderRoutes.js:38-49 | a 500 after the header went in leaves the header with fewer item rows than submitted |
| Orders.DispatchItems | BackEnd/OrderRoutes.js:40-49 | the item INSERTs append exactly the rows that land under consecutive keys; they succeed exactly when every item is reached and none is rejected; every item row still belongs to an order |
| Orders.OrderStore.InsertItems | BackEnd/OrderRoutes.js:40-49 | the item table grows by the landed rows and stays well formed |
| Orders.OrderStore.Create | BackEnd/OrderRoutes.js:15-56 | a falsy user_id or an empty or non-array items gives 400 and a failed header gives 500, neither writing; otherwise one header row, then the landed item rows; 201 with the new id exactly when all items landed |
| Orders.OrderStore.UpdateStatus | BackEnd/OrderRoutes.js:107-133 | a status outside the five gives 400 and an unknown id 404, neither writing; otherwise only that order's status changes |
| Orders.ItemsOf | BackEnd/OrderRoutes.js:6-12 | exactly the item rows with that order id |
| Orders.OrdersOf | BackEnd/OrderRoutes.js:63-66 | exactly the orders whose user_id names that user |
| Orders.UserNameOf | BackEnd/OrderRoutes.js:86-88 | the LEFT JOIN gives a name exactly when user_id names an account, and then that account's name |
| Orders.UserOrders | BackEnd/OrderRoutes.js:59-80 | that user's orders sorted newest first, each paired with its items |
| Orders.UserOrdersOnlyTheUsers | BackEnd/OrderRoutes.js:63-66 | every listed order is a stored order of that user |
| Orders.UserOrdersComplete | BackEnd/OrderRoutes.js:63-66 | every stored order of that user is listed |
| Orders.UserOrdersNewestFirst | BackEnd/OrderRoutes.js:63-66 | the listing is in descending created_at order |
| Orders.UserOrdersCarryTheirItems | BackEnd/OrderRoutes.js:68-73 | each listed order carries exactly the item rows with its id |
| Orders.AllOrders | BackEnd/OrderRoutes.js:83-104 | every order newest first, with the joined user name (possibly absent) and its items |
| Orders.OrderStore.ListForUser | BackEnd/OrderRoutes.js:59-80 | the enrichment loop answers UserOrders |
| Orders.OrderStore.ListAll | BackEnd/OrderRoutes.js:83-104 | the enrichment loop answers AllOrders |
| Users.ProviderFor | BackEnd/UserRoutes.js:90-101 | Gmail, Mail.ru or Yandex exactly when the address ends with that domain; unsupported exactly when it ends with none |
| Users.SuffixesExclusive | BackEnd/UserRoutes.js:184-229 | no address ends with two supported domains, so the order of the suffix tests is irrelevant |
| Users.FindUser | BackEnd/UserRoutes.js:20 | the first account with that email, or none exactly when no account has it |
| Users.FindToken | BackEnd/UserRoutes.js:275 | the first token row with that value (and unexpired when a time is given), or none exactly when none qualifies |
| Users.TokenOf | BackEnd/UserRoutes.js:486 | an account's token row, or none exactly when it has none |
| Users.SetPassword | BackEnd/UserRoutes.js:136 | only that account's password changes; keys and emails are kept |
| Users.SetVerified | BackEnd/UserRoutes.js:446 | only that account becomes verified; keys and emails are kept |
| Users.RemoveTokens | BackEnd/UserRoutes.js:299 | every row with that token value goes and every other row stays |
| Users.Upsert | BackEnd/UserRoutes.js:486 | the account's existing row is replaced in place, or the row is appended when it has none |
| Users.UpsertReplaces | BackEnd/UserRoutes.js:486 | the account is left with exactly the new token and other accounts' tokens stay |
| Users.RegisterOutcome | BackEnd/UserRoutes.js:58-109 | an existing email gives 400 with no insert; otherwise 201, an unverified non-admin account and one token expiring an hour later |
| Users.LoginOutcome | BackEnd/UserRoutes.js:14-55 | unknown email 401; unverified account 403 before the password is checked; wrong password 401; 200 with the account exactly for a verified account and a matching password |
| Users.ChangePasswordOutcome | BackEnd/UserRoutes.js:113-147 | an unknown id gives 500 and a wrong current password 401, neither writing; otherwise only that password changes |
| Users.RequestResetOutcome | BackEnd/UserRoutes.js:150-267 | an unknown email gives 404; an account that still holds a token gives 500 with no write; otherwise the token is stored and a failed send through a supported provider gives 500 |
| Users.ResetPasswordOutcome | BackEnd/UserRoutes.js:270-312 | 400 with no write exactly when no unexpired token matches; otherwise only that account's password changes and the token is deleted |
| Users.VerifyEmailOutcome | BackEnd/UserRoutes.js:429-460 | 400 with no write exactly when no token matches, expired or not; otherwise that account is verified and the token deleted |
| Users.ResendOutcome | BackEnd/UserRoutes.js:463-511 | unknown email 404 and verified account 400, neither writing; otherwise the account's token is upserted |
| Users.VerifyTokenOutcome | BackEnd/UserRoutes.js:514-537 | 200 exactly when an unexpired token with that value exists, else 400 |
| Users.FindUserUnique | BackEnd/UserRoutes.js:60-67 | with unique emails, an account's email finds that account |
| Users.RemoveTokensKeepsOwners | BackEnd/UserRoutes.js:299 | deleting tokens keeps at most one token per account |
| Users.RegisterKeepsConsistent | BackEnd/UserRoutes.js:58-109 | registering keeps keys well formed, emails unique and every token owned by one account |
| Users.ChangePasswordKeepsConsistent | BackEnd/UserRoutes.js:113-147 | the password change keeps the tables consistent |
| Users.RequestResetKeepsConsistent | BackEnd/UserRoutes.js:150-267 | the reset request keeps the tables consistent |
| Users.ResetPasswordKeepsConsistent | BackEnd/UserRoutes.js:270-312 | the reset keeps the tables consistent |
| Users.VerifyEmailKeepsConsistent | BackEnd/UserRoutes.js:429-460 | verification keeps the tables consistent |
| Users.ResendKeepsConsistent | BackEnd/UserRoutes.js:463-511 | the resend keeps the tables consistent |
| Users.ExpiredTokenAsymmetry | BackEnd/UserRoutes.js:432-440 | an expired token still verifies an email, but reset-password and verify-token refuse it |
| Users.NewAccountCannotLogIn | BackEnd/UserRoutes.js:30-35 | a just-registered account gets 403 whatever the password |
| Users.RegisterVerifyLogin | BackEnd/UserRoutes.js:58-109 | register, verify with the mailed token, log in with the same password: 201, 200, 200 |
| Users.TokenSingleUse | BackEnd/UserRoutes.js:299 | once verify-email or reset-password has used a token, every token route refuses it |
| Users.RegistrationTokenResetsPassword | BackEnd/UserRoutes.js:275-283 | the registration token also resets the password, exactly within its hour |
| Users.PendingTokenBlocksResetRequest | BackEnd/UserRoutes.js:172-180 | right after registering, a reset request answers 500 and writes nothing |
| Users.ChangedPasswordLogsIn | BackEnd/UserRoutes.js:113-147 | after a change, the new password logs in and a different old one gets 401 |
| Users.ResendLeavesOneToken | BackEnd/UserRoutes.js:484-493 | after a resend, the account holds exactly one token, the new one, and other accounts keep theirs |
| Users.UserStore.Register | BackEnd/UserRoutes.js:58-109 | the steps on the tables equal RegisterOutcome; a verification mail is sent exactly on 201 to a supported address, through that address's provider, and none otherwise |
| Users.UserStore.Login | BackEnd/UserRoutes.js:14-55 | answers LoginOutcome |
| Users.UserStore.ChangePassword | BackEnd/UserRoutes.js:113-147 | the steps equal ChangePasswordOutcome |
| Users.UserStore.RequestPasswordReset | BackEnd/UserRoutes.js:150-267 | the steps equal RequestResetOutcome |
| Users.UserStore.ResetPassword | BackEnd/UserRoutes.js:270-312 | the steps equal ResetPasswordOutcome |
| Users.UserStore.VerifyEmail | BackEnd/UserRoutes.js:429-460 | the steps equal VerifyEmailOutcome |
| Users.UserStore.ResendVerification | BackEnd/UserRoutes.js:463-511 | the steps equal ResendOutcome; a verification mail is sent exactly on 200 to a supported address, through that address's provider, and none otherwise |
| Users.UserStore.VerifyToken | BackEnd/UserRoutes.js:514-537 | answers VerifyTokenOutcome and changes nothing |
| Notifications.OrNoData | BackEnd/NotificationsRoutes.js:22-28 | a truthy value is kept and a falsy one becomes "Нет данных"; the result is always truthy |
| Notifications.Normalize | BackEnd/NotificationsRoutes.js:20-28 | all seven details are truthy afterwards; each truthy detail is kept; type is passed on unchanged |
| Notifications.NormalizeChangesOnlyFalsy | BackEnd/NotificationsRoutes.js:22-28 | a detail changes exactly when it was falsy |
| Notifications.NormalizeIdempotent | BackEnd/NotificationsRoutes.js:22-28 | defaulting twice is defaulting once |
| Notifications.NewNotification | BackEnd/NotificationsRoutes.js:30-31 | the new row holds the defaulted details, is unread and is stamped now |
| Notifications.NotificationTable.Create | BackEnd/NotificationsRoutes.js:18-40 | 200 and exactly that one row under the next key; a rejected INSERT gives 500 with no change |
| Notifications.MarkedRead | BackEnd/NotificationsRoutes.js:47 | only rows with that id change, and only isRead, which becomes true |
| Notifications.MarkReadIdempotent | BackEnd/NotificationsRoutes.js:47 | marking read twice is marking read once |
| Notifications.MarkReadMissingId | BackEnd/NotificationsRoutes.js:45-48 | an unknown id changes nothing |
| Notifications.NotificationTable.MarkRead | BackEnd/NotificationsRoutes.js:43-53 | 200 whether or not the id exists, with the table as MarkedRead says |
| Notifications.DeleteIdempotent | BackEnd/NotificationsRoutes.js:60 | deleting twice is deleting once |
| Notifications.NotificationTable.Delete | BackEnd/NotificationsRoutes.js:56-66 | 200 whether or not the id exists; afterwards no row has the id and every other row stays |
| Trimming.LeadingBlanks | BackEnd/blogpostsRoutes.js:50 | the length of the whitespace prefix: all whitespace, followed by a non-whitespace character or the end |
| Trimming.TrailingBlanks | BackEnd/blogpostsRoutes.js:50 | the length of the whitespace suffix, symmetrically |
| Trimming.Trim | BackEnd/blogpostsRoutes.js:50 | `trim()` is a contiguous part of the string; it is empty exactly when the string is blank, and otherwise starts and ends with non-whitespace, with only whitespace of the string before and after it |
| Trimming.TrimIdempotent | BackEnd/blogpostsRoutes.js:50 | trimming twice is trimming once |
| Trimming.TrimIgnoresLeadingBlank | BackEnd/blogpostsRoutes.js:50 | whitespace in front does not change the trimmed text |
| Trimming.TrimIgnoresTrailingBlank | BackEnd/blogpostsRoutes.js:50 | whitespace at the end does not change the trimmed text |
| BlogPosts.TrimmedField | BackEnd/blogpostsRoutes.js:50 | `v?.trim()` is undefined for undefined or null and the trimmed text for a string; for anything else it throws |
| BlogPosts.RefusedCases | BackEnd/blogpostsRoutes.js:50-52 | the check passes exactly for a non-blank title and content; a missing or blank title is refused whatever the content; a non-string throws |
| BlogPosts.NewPost | BackEnd/blogpostsRoutes.js:46-64 | title and content are stored untrimmed, the author is Admin, and there is an image exactly when a file came, as `/uploads/<filename>` |
| BlogPosts.BlogPostTable.Create | BackEnd/blogpostsRoutes.js:44-78 | 400 exactly when refused and 500 when `trim` throws or the INSERT fails, none writing; 201 exactly for a filled title and content, with one new row under the next key and the image path answered exactly when a file came |
| BlogPosts.BlogPostTable.List | BackEnd/blogpostsRoutes.js:20-28 | every post, and only those, in descending createdAt order |
| BlogPosts.BlogPostTable.Delete | BackEnd/blogpostsRoutes.js:31-41 | 200 whether or not the id exists; afterwards no row has the id and every other row stays |
| PriceList.WithDiscount | BackEnd/pricelistRoutes.js:59 | an object gets Discount set, added or replaced, with its other fields kept; an array is written back unchanged; null or a primitive throws |
| PriceList.DiscountOf | BackEnd/pricelistRoutes.js:59 | an entry shows a discount exactly when it is an object with that field |
| PriceList.UpdateOutcome | BackEnd/pricelistRoutes.js:31-70 | a non-number Discount gives 400 before the file is read; a read or parse failure gives 500; a non-array or empty array gives 400; none of these write; 200 exactly when element 0 accepts the property and the write succeeds, and then only element 0 changes |
| PriceList.UpdateSetsFirstDiscount | BackEnd/pricelistRoutes.js:59-61 | after a 200 on an object entry, that entry shows the new discount and keeps every other field |
| PriceList.UpdateIdempotent | BackEnd/pricelistRoutes.js:59-61 | setting the same discount again answers 200 and changes nothing |
| PriceList.LaterDiscountWins | BackEnd/pricelistRoutes.js:59-61 | a second update leaves the file as if only the second discount had been set |
| PriceList.PriceListFile.Read | BackEnd/pricelistRoutes.js:12-28 | 200 with the parsed value, or 500 when the file cannot be read or parsed |
| PriceList.PriceListFile.UpdateDiscount | BackEnd/pricelistRoutes.js:31-70 | the in-place update of element 0 and the write-back give exactly UpdateOutcome |

## Left out

- Express routing, the request/response plumbing, multer's disk storage and its file-size limit, and the route-listing logs. An upload is represented by its stored file name. A route parameter is the integer key it names.
- SQL itself is replaced by sequences of rows. Column type coercions are not modelled. `NOW()` and `Date.now()` are parameters. DATETIME precision is not modelled. Email comparison is exact, not the collation's case-insensitive match.
- Database failures are parameters (`DbFaults`, `OrderFaults`, `dbFails`, `writeFails`, `sendFails`) only in the product discount transactions, order creation, the notification and blog-post routes, the price list write and the reset mail. Other failed queries are not modelled. This covers the product routes outside the discount transaction and a failed `getConnection`.
- Users.UserStore: the `if (err) … 500` branches of every account route (BackEnd/UserRoutes.js:61-63, 75-77, 119-121, 277-279, 292-295, 435-437, 448-451, 521-523) are not modelled. Every query is taken to succeed.
- Users.TokenSingleUse: assumes the token DELETE succeeds. In the source, a failed DELETE after a reset or a verification is only logged and the reply is still 200 (BackEnd/UserRoutes.js:299-303). The token then stays usable until it expires.
- Orders.OrderStore.UpdateStatus, Orders.OrderStore.ListForUser, Orders.OrderStore.ListAll: the 500 answers for a failed query (BackEnd/OrderRoutes.js:76-78, 100-102, 129-131) are not modelled.
- Users.RegisterOutcome, Users.LoginOutcome, Users.ChangePasswordOutcome, Users.RequestResetOutcome, Users.ResetPasswordOutcome, Users.VerifyEmailOutcome, Users.ResendOutcome, Users.VerifyTokenOutcome and the matching Users.UserStore methods take the body fields as strings and numbers that are present. A missing or non-string field is not modelled. Register without an email stores the account and its token, then throws at `email.endsWith` (BackEnd/UserRoutes.js:90). `bcrypt.hash` or `bcrypt.compare` on an undefined password rejects, giving 500 or no answer.
- An `undefined` bind parameter is taken as SQL NULL. mysql2's `execute` rejects such a parameter, which would turn those requests into 500s.
- PriceList.PriceListFile.UpdateDiscount: after a failed `fs.writeFile` the file is taken to be unchanged. In fact writeFile truncates first, so a failed write can leave the file empty or partly written, and later reads then answer 500.
- bcrypt is an abstract hash that matches exactly the password it was made from. `crypto.randomBytes` is the `token` parameter. Nodemailer transports and the HTML templates are not modelled. Only the provider choice is kept.
- The pool in BackEnd/db.js is promise-based. The model follows the callback-style handlers as written and assumes their callbacks run.
- login reads `user.Password`, which the model takes as the stored hash. The missing `return` after `reject` in login's lookup is not modelled.
- The unique key on `email_verification_tokens.user_id` is inferred from resend-verification's `ON DUPLICATE KEY UPDATE`. Tokens are not scoped by purpose, as in the source.
- POST /update-user-info (BackEnd/UserRoutes.js:316-330) is not modelled. It is a single UPDATE of two columns, outside the account and token lifecycle.
- GET /products in both files is not modelled: it answers the whole table. GET /notifications is not modelled: it runs a SELECT, discards the rows and answers a fixed message.
- `Promise.all` is modelled as sequential dispatch. Under it, the order of the order-item keys among items sent together is not modelled. Cross-request races are not modelled either, such as two registrations of one email both passing the lookup.
- Rollback failures are not modelled. A rollback always restores the table.
- Floating point is not modelled. Numbers are reals and `toFixed(2)` is `Decimal.Round2`. NaN cannot arise from a JSON body. An out-of-range number literal such as `1e400` parses to ±Infinity, which passes both `typeof … === 'number'` checks (BackEnd/ProductRoutes.js:172, BackEnd/pricelistRoutes.js:34) and is not modelled. The source would then store the text `"Infinity"` through `toFixed(2)`, and the price list would write `"Discount": null`.
- JSON text is not parsed or printed. A serialized column is a `Products.Cell`: NULL, empty, parsed value or malformed. Price.json is a `PriceList.PriceFile`. JSON.stringify output is taken to parse back to the value written.
- Key order inside a JSON object is not modelled.
- Orders.ItemRow: states only the order id in its contract. The fields come from `Orders.Field`, whose contract ties each one to the property read.
- Orders.Landed: states only a length bound in its contract. Its content is stated by `Orders.LandedAll`.
- Products.ApplyDiscount: states only that keys and row count are kept. The discount it writes is stated over a whole run by `Products.ApplyDiscountsEffect`.
- Notifications.NotificationTable.Create: stores `type` as it came, including undefined.
