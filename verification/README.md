# prostore core, modelled in Dafny

This project models the server-side core of the prostore storefront (Next.js, Prisma, Auth.js). It covers the following parts.

- **Order lifecycle.** Placing an order from the cart, the PayPal hand-shake, marking an order paid, delivering it, deleting it, and the paging of the order listings.
- **Reviews.** The review upsert, with the product's review count and mean rating recomputed after it.
- **Auth.** The credential check, the session and JWT callbacks, and the hand-over of the anonymous session cart on sign-in.
- **Middleware.** The route guard that refuses protected paths to anonymous visitors and issues the `sessionCartId` cookie.
- **Account actions.** Sign-in, sign-up, address, payment method and profile.
- **Input schemas.** The schemas of `lib/validators.ts`, including the `currency` refinement.
- **S3.** The object key and public URL of an upload, and the key read back from such a URL on delete.
- **Pagination.** The page-number logic of the shared pagination component.

The database is an immutable value (`Store.Db`). Each server action is a pure function from the state before and its inputs to a reply and the state after. A Prisma `$transaction` is one step.

External effects are parameters of the action that uses them:

- the PayPal create and capture results;
- bcrypt hash and compare;
- `uuidv4` and `crypto.randomUUID`;
- the current time;
- how the auth library's `signIn` ends;
- whether the S3 client accepted a request;
- the parse results of the schemas that are not part of this model.

A database error (a missing row on update or delete, a unique-constraint violation, a TypeError) is the failure `RuntimeFault`. The error formatter is not modelled, so a caught failure's message is `Formatted(failure)`.

Modules follow the source files:

| module | file | models |
|---|---|---|
| `Common` | `common.dfy` | shared helpers: `Option`, first-match search, filtering |
| `Strings` | `strings.dfy` | JavaScript string helpers: `includes`, `split`, `Number.prototype.toString` |
| `Store` | `store.dfy` | the data model and the reply shape |
| `OrderActions` | `order_actions.dfy` | `lib/actions/order.actions.ts` |
| `ReviewActions` | `review_actions.dfy` | `lib/actions/review.actions.ts` |
| `Auth` | `auth.dfy` | `auth.ts` |
| `AuthConfig` | `auth_config.dfy` | `auth.config.ts` |
| `UserActions` | `user_actions.dfy` | `lib/actions/user.actions.ts` |
| `Validators` | `validators.dfy` | `lib/validators.ts` and the formatter of `lib/utils.ts` |
| `S3Actions` | `s3_actions.dfy` | `lib/actions/s3.actions.ts` |
| `Pagination` | `pagination.dfy` | `components/shared/pagination.tsx` |

## Model

| member | source | states |
|---|---|---|
| OrderActions.CreateOrder | lib/actions/order.actions.ts:18-107 | The guards run in source order. No session → "User is not authenticated!". Unknown user → "User not found!". Missing or empty cart → redirect to "/". No address → redirect to "/shipping-address". No payment method → redirect to "/payment-method". Each guard leaves the state unchanged. The order is placed exactly when every guard passes and the new id is fresh and non-empty. No order ever changes or disappears; at most the new id is added. Users, products and reviews are untouched and the carts table keeps its size. Success redirects to "/order/<id>". |
| OrderActions.CreateOrderSnapshot | lib/actions/order.actions.ts:53-98 | A successful placement gives a new, unpaid and undelivered order. Its four prices equal the cart's. Its address and payment method are the user's. Its lines, read back, are exactly the cart's items, each tagged with the new id. The same step empties the cart and zeroes its four totals; every other cart is unchanged. |
| OrderActions.SnapshotRoundTrip | lib/actions/order.actions.ts:68-75 | Copying cart lines into order lines loses nothing: reading the order lines back gives the cart items. |
| OrderActions.Snapshot | lib/actions/order.actions.ts:68-75 | One order line per cart line, each tagged with the new order's id. |
| OrderActions.CreateOrderKeepsInvariant | lib/actions/order.actions.ts:64-90 | Placement keeps the order invariant. Every order is stored under its own id, its lines point back to it, and it is delivered only if paid. |
| OrderActions.DecrementStock | lib/actions/order.actions.ts:221-226 | The stock loop succeeds exactly when every line's product exists. It then subtracts from each product's stock the total quantity its lines order, with no floor. Every other field and product is unchanged. |
| OrderActions.QtyFor | lib/actions/order.actions.ts:220-225 | The total quantity the order's lines take of one product. It is never negative when no line has a negative quantity, so paying never raises stock. |
| OrderActions.CaptureAccepted | lib/actions/order.actions.ts:172-176 | A capture is refused when it is missing, when the order was never sent to PayPal, when its id differs from the recorded PayPal order id, or when it is not "COMPLETED". |
| OrderActions.UpdateOrderToPaid | lib/actions/order.actions.ts:201-249 | A missing order → "Order not found!". An already-paid order → "Order is already paid!". Neither gives a new state. The order is paid exactly when it exists, is unpaid and every product its lines name exists; it is then paid at `now`. Its payment result is replaced only when one is given. Stock is decremented line by line. Users, carts and reviews are untouched. The order invariant holds and no order regresses. |
| OrderActions.PayReplayRejected | lib/actions/order.actions.ts:214-216 | Paying an order a second time is refused with "Order is already paid!". |
| OrderActions.PayLeavesOtherProducts | lib/actions/order.actions.ts:219-226 | Paying leaves unchanged the stock of a product that none of the order's lines names. |
| OrderActions.CreatePaypalOrder | lib/actions/order.actions.ts:123-155 | A missing order → "Order not found!". It succeeds exactly when the order exists and PayPal returned an id. The reply carries that id, and the order's payment result becomes that id with empty status and email and amount 0. Nothing else changes, and nothing changes on failure. |
| OrderActions.ApprovePaypalOrder | lib/actions/order.actions.ts:158-198 | A missing order → "Order not found!". A capture that is absent, has a different id from the stored payment result, or is not "COMPLETED" → "Error in PayPal payment!". It succeeds exactly when the capture is accepted, the order is unpaid and all its products exist. The order is then paid with the capture's id, status, payer email and amount, and the new state is exactly the one the shared payment step produces, stock decrements included. Nothing changes on failure. |
| OrderActions.UpdateCODOrderToPaid | lib/actions/order.actions.ts:373-383 | It succeeds exactly when the payment step succeeds, and the new state is exactly the one that step produces. The payment result stays as it was, the reply is "Order marked as paid.", and nothing changes on failure. |
| OrderActions.DeliverOrder | lib/actions/order.actions.ts:386-405 | A missing order → "Order not found!". An unpaid order → "Order is not paid!". Otherwise only that order changes: it is delivered at `now`. The invariant "delivered ⇒ paid" is kept and no order regresses. |
| OrderActions.DeleteOrder | lib/actions/order.actions.ts:360-370 | It succeeds exactly when the order exists, and then removes only that order. A missing order is a database error and changes nothing. |
| OrderActions.Window | lib/actions/order.actions.ts:262-266 | `take: limit, skip: limit*(page-1)`: the window holds the rows from the skip on, at most `limit` of them. A negative skip is rejected. |
| OrderActions.PageCount | lib/actions/order.actions.ts:275 | `ceil(count/limit)`: the least number of pages whose capacity covers the count. |
| OrderActions.FirstPagesArePrefix | lib/actions/order.actions.ts:262-266 | Pages 1..n together are the first n·limit rows, in order, with none repeated. |
| OrderActions.PagesCoverAllRows | lib/actions/order.actions.ts:262-276 | The reported page count is exactly enough: its pages hold every row once, and the last of them is not empty. |
| OrderActions.GetMyOrders | lib/actions/order.actions.ts:252-278 | No session user → "User not found.". A listing is returned exactly when there is a session user and the page is at least 1. It is the window of the user's own orders, newest first, and every row belongs to the user. The page count is computed over the user's orders. |
| OrderActions.GetAllOrders | lib/actions/order.actions.ts:333-357 | It succeeds exactly for page ≥ 1. The rows are that page's window of all orders, and the page count is computed over all orders. |
| ReviewActions.CreateUpdateReview | lib/actions/review.actions.ts:12-74 | The reply is always "Your review is posted." or "Failed to post the review.". It is posted exactly when there is a session user, the input parses, the product exists, and either the author already reviewed it or the new review id is unused. A failure writes nothing. On success an existing review of (product, session user) is edited in place with every other row kept, or else exactly one row is appended; the author is the session user whatever the input says. The product's count and rating are the live count and mean over its reviews, and users, carts and orders are untouched. |
| ReviewActions.Upsert | lib/actions/review.actions.ts:26-44 | After the write the table holds a review of the pair with the submitted title, description and rating. An edit keeps the table's size, changes only the title, description and rating of the existing row, and leaves every other row alone. An insert appends exactly one row, and fails only when the new id is taken. |
| ReviewActions.ExistingReview | lib/actions/review.actions.ts:26-28 | `findFirst`: the first review of (product, author), or none when none exists. |
| ReviewActions.UpsertKeepsOnePerAuthor | lib/actions/review.actions.ts:30-44 | At most one review per (product, author) is preserved. A second review by the same author updates the first instead of adding a row. |
| ReviewActions.ReviewKeepsOnePerAuthor | lib/actions/review.actions.ts:26-65 | The whole action preserves "at most one review per (product, author)". |
| ReviewActions.RecomputeIsIncremental | lib/actions/review.actions.ts:47-63 | The recomputed aggregate equals an incremental update of the old one. An edit keeps the count and swaps the old rating for the new one in the sum; an insert adds one to the count and the rating to the sum. The count is at least 1. |
| ReviewActions.ReviewLeavesOtherProducts | lib/actions/review.actions.ts:30-65 | The reviews of every other product are exactly as before, and so is every other product record. |
| ReviewActions.AppendAggregates | lib/actions/review.actions.ts:43-55 | An inserted review adds one to its product's count and its rating to the sum, and leaves other products' aggregates alone. |
| ReviewActions.ReplaceAggregates | lib/actions/review.actions.ts:33-55 | Editing a review in place keeps every count and changes its product's sum by the rating difference. |
| ReviewActions.MeanOrZero | lib/actions/review.actions.ts:47-62 | With no review the rating is 0. Otherwise it is the mean: times the count it gives the rating sum. With ratings from 1 to 5 it lies between 1 and 5. |
| Auth.UserByEmail | lib/data/getUser.ts:6-13 | `findFirst` by email: the first user with that email, or none when no user has it. |
| Auth.Authorize | auth.ts:73-93 | A profile (id, name, email, role, image) is returned exactly when the first user with the email has a non-empty password hash and the password matches it. The profile is that first user's. Otherwise null. |
| Auth.AuthorizeUniqueEmails | auth.ts:73-93 | With unique emails, login succeeds exactly when that account has a password and it matches. |
| Auth.SessionCallback | auth.ts:18-32 | The user id always becomes `token.sub`. The role is copied only when `token.role` is truthy. The name is overwritten only on trigger "update", which fails when no user record is passed. The email is kept. |
| Auth.JwtCallback | auth.ts:34-64 | With a user, the token receives the user's id and role. The carts change only on "signIn"/"signUp" with a truthy `sessionCartId` cookie, and then by the hand-over. Without a user, nothing changes. |
| Auth.HandOver | auth.ts:43-48 | Without a cart for the cookie's session cart id, the carts are unchanged. |
| Auth.Kept | auth.ts:50-53 | When the session cart is not the user's, every cart the user owns is deleted and every other cart is kept. When it already is the user's, nothing is deleted. The clean-up only deletes: every kept cart is a row of the table. |
| Auth.Assign | auth.ts:55-58 | Only the owner column changes, and only on the carts with the given id; every other row is unchanged. Afterwards the user owns exactly those carts and the ones they owned before. |
| Auth.AssignIdempotent | auth.ts:55-58 | Repeating the update changes nothing. |
| Auth.HandOverOwnership | auth.ts:39-58 | Afterwards the session cart is owned by the user. When it was not theirs before, no other cart is owned by the user. Carts of other owners are kept. When it already was theirs, nothing changes. No cart is added: every row afterwards is a row from before, at most with the user as its new owner. |
| AuthConfig.IsProtected | auth.config.ts:12-26 | The unanchored patterns match exactly the paths that contain one of the seven literal texts. |
| AuthConfig.Authorized | auth.config.ts:10-50 | Denied exactly when unauthenticated and the path contains a protected pattern. Authenticated requests are never denied. An allowed request without the cookie gets a fresh `sessionCartId`; with the cookie the result is `true`. |
| AuthConfig.ProtectedDeniedWithoutSession | auth.config.ts:26-31 | The path check comes before the cookie check: any path containing a protected pattern anywhere is refused to an anonymous visitor, cookie or not. |
| AuthConfig.ExampleOrderPage | auth.config.ts:18-28 | "/order/abc" is refused to an anonymous visitor, with or without a cookie. |
| AuthConfig.ExampleNestedAdmin | auth.config.ts:19-28 | "/en/admin/users" is refused: the pattern need not start the path. |
| AuthConfig.ExampleCart | auth.config.ts:26-46 | "/cart" is public, and a visitor without a cookie is given one. |
| AuthConfig.ExampleUserWithoutSlash | auth.config.ts:17-48 | "/user" without the trailing slash is not protected. |
| UserActions.SignInWithCredentials | lib/actions/user.actions.ts:19-42 | The redirect signal is re-thrown exactly when the form is valid and sign-in redirects. "Signed in successfully" is returned exactly when the form is valid and sign-in returns. Every other outcome is "invalid email or password". |
| UserActions.SignUpUser | lib/actions/user.actions.ts:50-98 | An invalid form gives "Invalid fields" with the per-field errors and writes nothing. A user row is added exactly when the form is valid and neither the email nor the id is taken; nothing else is written. Without the row the reply is a failure. The redirect is re-thrown exactly after an insert with a redirecting sign-in. Success is "User registered successfully" exactly after an insert with a returning sign-in. |
| UserActions.SignUpStoresHash | lib/actions/user.actions.ts:75-83 | The inserted user is the only one with the email. It holds the hash of the password, not the password, together with the submitted name and the new id. |
| UserActions.UpdateUserAddress | lib/actions/user.actions.ts:101-134 | No session user → the login-required message. Unknown user → "User not found!". A failed parse → a parse error. None of these writes. It succeeds exactly when all three pass, and then only that user's address changes. |
| UserActions.UpdateUserPaymentMethod | lib/actions/user.actions.ts:137-162 | No session user id → a database error. Unknown user → "No user found". Neither writes. It succeeds exactly when the user exists and the parse succeeded, and then only that user's payment method changes, to the parsed type. |
| UserActions.UpdateProfile | lib/actions/user.actions.ts:165-184 | No session → "Invalid session!". A session without a user → a runtime error. Unknown user → "User not found!". None of these writes. On success only the name changes; the stored email is kept and the submitted one is ignored. |
| UserActions.UpdatesTouchOnlySessionUser | lib/actions/user.actions.ts:119-178 | With unique ids, each of the three updates leaves every other user's row unchanged. |
| Validators.MatchCurrency | lib/validators.ts:8 | A left-to-right scan accepts exactly the strings of the pattern `^\d+(\.\d{2})?$`: one or more digits, optionally a dot and exactly two digits. |
| Validators.Grouped | lib/utils.ts:14-21 | The en-US integer part: below one thousand it is the plain decimal text; from one thousand on it contains a comma. |
| Validators.PriceRefineAsWritten | lib/validators.ts:5-10 | As written, the refinement accepts an amount of whole cents exactly when it is between 0.00 and 999.99. |
| Validators.PriceRefineAsWrittenRejectsThousand | lib/validators.ts:5-10 | 1000.00 is refused: it is formatted "1,000.00", which the pattern does not match. |
| Validators.PriceRefine | lib/validators.ts:5-10 | Corrected: every non-negative amount of whole cents is accepted and every negative one refused. |
| Validators.PriceIssues | lib/validators.ts:5-10 | A price field has no issue exactly when the amount is non-negative, and otherwise the single issue "Price must have exactly two decimal places" on that field. |
| Validators.ProductIssues | lib/validators.ts:13-24 | A product is accepted exactly when name, slug, category and description have length ≥ 3, brand ≥ 1, there is at least one image, and the price passes. |
| Validators.SignInIssues | lib/validators.ts:27-30 | Accepted exactly when the email is email-shaped and the password is non-empty. |
| Validators.SignUpIssues | lib/validators.ts:33-41 | Accepted exactly when name ≥ 2, the email is email-shaped, password and confirmation are ≥ 6, and they are equal. |
| Validators.SignUpErrors | lib/validators.ts:33-41 | Each field's first message: the field's own check, or "". For the confirmation it is the length message if too short, else "Passwords don't match!" if the passwords differ, else "". |
| Validators.FirstErrorAppend | lib/actions/user.actions.ts:60-68 | The first message on a field in two issue lists joined is the first list's, unless that list has none. |
| Validators.FirstError | lib/actions/user.actions.ts:65-68 | The first message or "": empty when no issue is on the field, and otherwise the message of the earliest issue on it. |
| Validators.CartItemIssues | lib/validators.ts:44-51 | A cart line is accepted exactly when product id, name, slug and image are non-empty, the quantity is a non-negative integer, and the price passes. |
| Validators.ItemsIssues | lib/validators.ts:55 | The item list is accepted exactly when every item is. |
| Validators.CartIssues | lib/validators.ts:53-62 | A cart is accepted exactly when every line is, the four prices are non-negative, and `sessionCartId` is non-empty. `id` and `userId` may be absent. |
| S3Actions.ObjectKey | lib/actions/s3.actions.ts:30 | The key is the UUID, a dash and the file name, in that order and nothing else. |
| S3Actions.PublicUrl | lib/actions/s3.actions.ts:46 | The URL is an https URL that ends with the key, and the reference reading of the bucket's URLs recovers the key from it. |
| S3Actions.UploadToS3 | lib/actions/s3.actions.ts:24-52 | Upload fails exactly for an empty file or a refused put, always with "Failed to upload file to S3". On success the URL read by prefix gives back the object key. |
| S3Actions.KeyOf | lib/actions/s3.actions.ts:46 | The reference reading of an upload URL: the text after the host part and ".com/", present exactly when the URL starts with them. |
| S3Actions.KeyFromUrl | lib/actions/s3.actions.ts:56 | `split(".com/")[1]`: absent exactly when the URL contains no ".com/". Otherwise it starts right after the first ".com/", runs to the next ".com/" or the end of the URL, and contains no ".com/" itself. |
| S3Actions.DeleteFromS3 | lib/actions/s3.actions.ts:54-70 | It never throws. The reply is "Deleted successfully" exactly when the URL contains ".com/" and the delete was accepted; otherwise it is "Failed to delete file from S3". |
| S3Actions.KeyRoundTrip | lib/actions/s3.actions.ts:46-56 | When the bucket and region contain no '/' and the key contains no ".com/", the key read back from the upload URL is the key. |
| S3Actions.UploadThenDelete | lib/actions/s3.actions.ts:24-70 | Under the same conditions, an accepted upload followed by the delete of its URL succeeds on the object's own key. |
| S3Actions.RegionWithSlashBreaksRoundTrip | lib/actions/s3.actions.ts:46-56 | Keeping ".com/" out of bucket, region and key is not enough. For a region "com/" + t, the key read back is t + ".amazonaws", whatever the key. |
| S3Actions.RoundTripCounterexample | lib/actions/s3.actions.ts:46-56 | Concretely, bucket "b", region "com/x" and key "k", none containing ".com/", read back "x.amazonaws". |
| Pagination.Pages | components/shared/pagination.tsx:23-27 | The counting loop builds 1, 2, …, totalPages, and an empty list when totalPages < 1. |
| Pagination.PagesAscending | components/shared/pagination.tsx:23-27 | The list is strictly increasing and holds exactly the numbers from 1 to totalPages. |
| Pagination.Target | components/shared/pagination.tsx:29-30 | The target page is NaN exactly when the page is. |
| Pagination.TargetsUndo | components/shared/pagination.tsx:29-30 | Next and Previous undo each other. |
| Pagination.PrevDisabled | components/shared/pagination.tsx:45 | Previous is disabled exactly when the page is a number and Previous would lead below page 1. |
| Pagination.NextDisabled | components/shared/pagination.tsx:63 | Next is disabled exactly when the page is a number and Next would lead one past the last page. |
| Pagination.IsBold | components/shared/pagination.tsx:53 | On a NaN page no link is bold. The bold link is page 1 or below exactly when Previous is disabled. |
| Pagination.NavigationStaysInRange | components/shared/pagination.tsx:30-63 | On an existing page, Previous (disabled when page ≤ 1) and Next (disabled when page = totalPages) are each enabled exactly when their target page, page−1 or page+1, exists. |
| Pagination.NextEnabledPastTheEnd | components/shared/pagination.tsx:30-63 | Past the last page, Next stays enabled and leads further out. |
| Pagination.NaNPageButtons | components/shared/pagination.tsx:30-63 | On a page that is not a number neither button is disabled, and both lead to NaN. |
| Pagination.BoldLinks | components/shared/pagination.tsx:49-57 | When the page exists exactly its own link is bold, and otherwise no link is. |
| Pagination.ParamName | components/shared/pagination.tsx:33-52 | An absent or empty parameter name falls back to "page"; the name is never empty. |
| Pagination.SetParam | components/shared/pagination.tsx:32-33 | `URLSearchParams.set`: afterwards the name reads back the new value, every entry with the name holds it, and the entries with other names are as before. |
| Pagination.ButtonUrl | components/shared/pagination.tsx:29-36 | The pushed URL is the path, "?", and the query in which the page parameter reads back the target page as text while every other parameter is kept. |
| Pagination.LinkUrl | components/shared/pagination.tsx:52 | A link's query is the page parameter set on an empty query: it reads back the page number and holds no entry under any other name, so the other query parameters are dropped. |
| Pagination.LinkIsNextOnEmptyQuery | components/shared/pagination.tsx:29-52 | The link to page p leads where Next would from page p − 1 if the URL had no query. |

## Left out

- The error formatter `formatError` is not part of this model. A caught failure's message is kept abstract as `Formatted(failure)`.
- `getMyCart`, cart pricing and `lib/actions/cart.actions.ts`: the cart the session resolves to is a parameter of `OrderActions.CreateOrder`.
- `insertOrderSchema`, `insertReviewSchema`, `shippingAddressSchema` and `paymentMethodSchema` are not part of this model. Their parse results are parameters. `insertOrderSchema` is taken to accept every order built from a user and a cart.
- `SignOutUser`, `getOrderById`, `getOrdersSummary`, `getReviews`, `getCurrentUserReview` and `getLatestProducts` are plain reads or library calls with no logic of their own.
- `revalidatePath`, `console.error`, cookie plumbing, request headers and the `NextResponse` object are not modelled; the middleware's decision is a `Decision` value.
- The PayPal, S3, bcrypt, uuid and clock calls, and the outcome of the auth library's `signIn`, are parameters.
- The order in which Prisma returns `createdAt`-sorted rows is an input: `newestFirst`.
- Concurrency: each action, and each `$transaction` inside it, is one atomic step.
- Prisma's handling of an `undefined` filter value is not modelled. A session without a user and a session user without an id are treated alike, as a session without a user id.
- String lengths count characters, not UTF-16 code units.
- An absent form field (a `null` from `formData.get`) is not modelled; every field is a string.
- Names and values that URL encoding would escape are not modelled in `Pagination.Serialize`.
- Fractional page numbers are not modelled: a page number is an integer or NaN.
- Validators.PriceRefineAsWritten: prices are modelled as whole numbers of cents. The formatter's rounding, which lets "1.5" or "1.234" through, is not modelled.
- Validators.ProductIssues: `stock`, `isFeatured` and `banner` are typed fields, so their type checks cannot fail. The price check uses the corrected refinement.
- Validators.CartItemIssues: the quantity is a `real` standing for a JavaScript number. NaN and infinities are not modelled. The price check uses the corrected refinement.
- Validators.CartIssues: the four price checks use the corrected refinement, so a cart total of 1000.00 or more is accepted where the source refuses it.
- Validators.SignInIssues: the email-format test of the schema library is an abstract predicate.
- OrderActions.GetMyOrders: requires `limit > 0`. With `limit` 0, JavaScript's `Math.ceil(count/0)` gives Infinity or NaN, which is not modelled. The same holds for `OrderActions.GetAllOrders` and `OrderActions.PageCount`.
- UserActions.SignUpUser: the email column is taken to be unique, and the role a new row gets is the parameter `defaultRole`.
- Auth.SessionCallback: the session object is a record of optional strings, and the library's other session fields are not modelled.
- OrderActions.CreatePaypalOrder: the placeholder payment result stores `pricePaid` as the number 0; the model keeps every `pricePaid` as text and stores "0".
- OrderActions.ApprovePaypalOrder: the captured amount and the payer email are always present in the model. In the source the amount is read through optional chaining and may be `undefined`. A capture call that throws is modelled as an absent capture, so the reply is "Error in PayPal payment!"; in the source it is the thrown error's formatted message.
- Floating point: a product's mean rating is an exact `real`, and money is integer cents.
- UI code other than the pagination component, and email rendering, are not modelled.

## Findings

| source | as written | input that shows it | evidently intended | confidence | as-written member | corrected member |
|---|---|---|---|---|---|---|
| lib/validators.ts:5-10 | The `currency` refinement first formats the number with en-US `Intl.NumberFormat` (lib/utils.ts:14-21), which groups thousands with commas, and then matches `^\d+(\.\d{2})?$`. | the price "1000.00" formats as "1,000.00" and is refused with "Price must have exactly two decimal places" | every non-negative amount with two decimals is accepted | not executed | Validators.PriceRefineAsWritten, Validators.PriceRefineAsWrittenRejectsThousand | Validators.PriceRefine |
