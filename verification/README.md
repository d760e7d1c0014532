# bioEssentia dashboard — a verified model of its back-office core

The bioEssentia dashboard is the store-owner side of an online shop. Its back end is
made of Next.js route handlers and server actions over a document store with
Mongoose schemas. This project models the parts of it that hold real logic, and
proves what they do. Each part becomes a pure function from a database state to
a new state plus a response or result:

- **Payment webhook.** The payment gateway calls this handler when a checkout
  completes. It marks the named order as paid and records a one-line shipping
  address and a phone number (`Webhook.Handle`).
- **Dashboard figures.** These cover total revenue, the twelve-bar monthly revenue
  graph, the number of sales and the number of products in stock (`Dashboard`).
- **Feedback and blog actions.** Each one saves or removes a child document and
  keeps the owning product's `feedbacks` or `blogs` id list in step
  (`FeedbackActions`, `BlogActions`).
- **Store creation route.** It checks the name and the caller in a fixed order
  (`StoresRoute.PostStore`).
- **Image check.** The editor runs it before uploading an image
  (`ImageUpload.Validate`).
- **Schemas.** The order, product, feedback, blog and store schemas with their
  required paths and defaults (`OrderModel`, `ProductModel`, `FeedbackModel`,
  `BlogModel`, `StoreModel`).

The database state `Database.Db` holds one sequence of documents per collection,
in natural order. `findById` and `updateOne` pick the first matching document.
A `nextId` counter stands for ObjectId generation and never hands out an id
twice. `Database.Wf` is the invariant that every action keeps:

- ids are unique and were all handed out;
- product back-reference lists name only ids that were handed out.

The model follows the behaviour of the code where it differs from what the schemas and comments suggest:

- **Update validators.** `findByIdAndUpdate` runs no validators. So
  `updateFeedbackById` can store a rating outside 1..5, and `updateBlogById` can
  store an empty title. The model stores such values as given
  (`FeedbackActions.UpdateCanBreakRatingBounds`).
- **Feedback deletion.** `deleteFeedbackById` uses `updateOne`. It therefore
  pulls the id from the first product that lists it, not from every product.
  Blog deletion uses `updateMany` and pulls from all of them.
- **Orphaned blog posts.** `createBlogForProduct` saves the post before it looks
  up the product. An unknown product therefore leaves an orphaned post behind.
- **Absent address parts.** The webhook's address filter drops only `null`
  parts. A part that is `undefined` becomes an empty slot between separators.
- **Missing product lists.** The product schema in models/product.model.ts
  declares neither `feedbacks` nor `blogs`. The model gives products both lists,
  because the actions read and write them.

Item prices and order months are inputs to the model. The price of an order
item's product is a function `price: Id -> int`, as an integer amount. An
order's month is the `createdMonth` field, 0 to 11.

## Model

| member | source | states |
|---|---|---|
| OrderModel.Create | models/order.model.ts:10-19 | creation succeeds exactly when `storeId` is given, and otherwise reports the path `storeId`; a new order keeps its store and items, is unpaid, and has empty phone and address |
| ProductModel.Create | models/product.model.ts:18-38 | creation succeeds exactly when storeId, categoryId, a non-empty name, price, sizeId and flavourId are all given; each of the six required paths is reported in the error exactly when its value is missing; `isFeatured`/`isArchived` are true only when given as true; every other field is the given one and the back-reference lists start empty |
| FeedbackModel.RatingErrors | models/feedback.model.ts:15 | the rating path fails exactly when the rating is missing or outside 1..5 |
| FeedbackModel.Create | models/feedback.model.ts:12-22 | creation succeeds exactly when the user name and text are non-empty and the rating lies in 1..5; `rating` is reported exactly when it is invalid; the stored fields are the given ones and `approved` defaults to false |
| BlogModel.Create | models/blog.model.ts:10-15 | creation succeeds exactly when the title is non-empty and the Mixed content is present (even when empty); a missing content is reported by path |
| StoreModel.Create | models/store.model.ts:17-28 | creation succeeds exactly when name and userId are both non-empty; the store keeps both and owns nothing yet |
| Webhook.Handle | app/api/webhook/route.ts:9-66 | a rejected signature answers 400 with the error text and changes nothing; another event type answers 200 and changes nothing; missing metadata or a malformed id escapes as an error; an id naming no order gives no response and changes nothing; otherwise only that order changes: it is paid and gets the address and phone, its store, items and month are kept, and the answer is 200 |
| Webhook.HandleIdempotent | app/api/webhook/route.ts:39-65 | delivering the same event twice gives the same state and response as delivering it once |
| Webhook.HandlePreservesWf | app/api/webhook/route.ts:42-50 | the handler keeps the database invariant |
| Webhook.PaymentReachesDashboard | app/api/webhook/route.ts:42-49 | paying an unpaid order raises its store's sales count by one and its revenue by exactly that order's item total |
| Webhook.SplitJoin | app/api/webhook/route.ts:37 | joining comma-free strings with ", " and splitting the result at ", " gives the strings back |
| Webhook.AddressRoundTrip | app/api/webhook/route.ts:28-37 | the address string consists of exactly the non-`null` parts, in their order, each rendered as its text and an absent part as an empty slot |
| Webhook.AddressInOrder | app/api/webhook/route.ts:28-37 | without `null` parts the address lists line1, line2, city, state, postal code and country in that order |
| Webhook.NullPartSkipped | app/api/webhook/route.ts:37 | a `null` line2 is left out entirely, leaving five entries |
| Webhook.MissingAddressGivesEmptySlots | app/api/webhook/route.ts:26-37 | with no customer address every part is `undefined` and is kept, so the address is six empty slots joined by five separators |
| Dashboard.GetTotalRevenue | lib/actions/get-total-revenue.ts:3-19 | the nested sums give the store's revenue: the item totals of its paid orders (with the populate path corrected, see Findings) |
| Dashboard.RevenueIgnoresOrder | lib/actions/get-total-revenue.ts:11-16 | the revenue does not depend on the order in which orders are visited |
| Dashboard.RevenueWithoutPaidOrders | lib/actions/get-total-revenue.ts:4-16 | a store without paid orders has revenue 0 |
| Dashboard.RevenueAddOrder | lib/actions/get-total-revenue.ts:4-16 | one more order adds its item total exactly when it is a paid order of the store, and nothing otherwise |
| Dashboard.ItemsTotalAddItem | lib/actions/get-total-revenue.ts:12-14 | each item adds its product's price exactly once, with no quantity factor |
| Dashboard.GetGraphRevenue | lib/actions/get-graph-revenue.ts:8-58 | the graph has twelve bars named Jan to Dec in calendar order, and bar m holds the revenue of the store's paid orders created in month m |
| Dashboard.MonthRevenueStep | lib/actions/get-graph-revenue.ts:24-33 | visiting one more order adds its item total to its own month and to no other |
| Dashboard.EmptyMonthIsZero | lib/actions/get-graph-revenue.ts:37-55 | a month without paid orders of the store shows 0 |
| Dashboard.MonthsAddUpToRevenue | lib/actions/get-graph-revenue.ts:21-55 | the twelve bars add up to the store's total revenue |
| Dashboard.MonthsTotalAddOrder | lib/actions/get-graph-revenue.ts:24-33 | one more order raises the sum of the first n bars only when its month is among them |
| Dashboard.MonthsTotalNoOrders | lib/actions/get-graph-revenue.ts:37-50 | with no orders all bars are 0 |
| Dashboard.GetSalesCount | lib/actions/get-sales-count.ts:3-9 | the count is the number of orders of the store that are paid |
| Dashboard.SalesCountAtMostStoreOrders | lib/actions/get-sales-count.ts:4-7 | the sales count never exceeds the number of the store's orders |
| Dashboard.SalesCountAddOrder | lib/actions/get-sales-count.ts:4-7 | one more order is counted exactly when it is paid and belongs to the store |
| Dashboard.NewOrderInvisible | models/order.model.ts:14 | a newly created order is unpaid, so it changes neither the sales count nor the revenue nor any month's bar |
| Dashboard.GetStockCount | lib/actions/get-stock-count.ts:3-10 | the count is the number of products of the store that are not archived |
| Dashboard.ArchivingLowersStock | lib/actions/get-stock-count.ts:4-7 | archiving one counted product lowers the stock count by exactly one |
| Dashboard.NewProductCountsTowardStock | models/product.model.ts:29 | a product created without an explicit `isArchived` adds one to its store's stock count |
| Dashboard.TotalRevenueAsWritten | lib/actions/get-total-revenue.ts:4-16 | as written, the sum succeeds, with 0, only when every paid order of the store has no items, and otherwise fails reading an undefined price |
| Dashboard.TotalRevenueAsWrittenThrows | lib/actions/get-total-revenue.ts:8-13 | one paid order with one item of price 100: the code as written fails, while the corrected total is 100 |
| FeedbackActions.CreateFeedback | lib/actions/feedback.action.ts:16-41 | an invalid feedback fails with "Failed to create feedback" and changes nothing; a valid one is stored under a fresh id with exactly the given fields and returned, and its id is appended to the end of the first product with the given id, while no product changes when there is none |
| FeedbackActions.FetchAllFeedback | lib/actions/feedback.action.ts:43-52 | the list is the stored feedback collection, in stored order; it answers every feedback exactly when a fetch by id would succeed |
| FeedbackActions.FetchFeedbackById | lib/actions/feedback.action.ts:54-66 | the fetch succeeds exactly when a feedback has the id and returns it, and otherwise fails with "Failed to fetch feedback" |
| FeedbackActions.DeleteFeedbackById | lib/actions/feedback.action.ts:68-89 | the id is pulled, every occurrence, from the first product that lists it, and no other product changes; on success exactly that feedback is removed from the collection; the delete succeeds exactly when the feedback exists and returns it; an unknown id fails with "Failed to delete feedback" with the pull already done |
| FeedbackActions.UpdateFeedbackById | lib/actions/feedback.action.ts:91-108 | an unknown id fails with "Failed to update feedback" and changes nothing; otherwise only that feedback changes, its id is kept and its new fields are the supplied ones, the others kept (`Apply`), with the rating stored as given |
| FeedbackActions.CreateFeedbackPreservesWf | lib/actions/feedback.action.ts:20-34 | creating a feedback keeps the database invariant |
| FeedbackActions.DeleteFeedbackPreservesWf | lib/actions/feedback.action.ts:74-79 | deleting a feedback keeps the database invariant |
| FeedbackActions.UpdateFeedbackPreservesWf | lib/actions/feedback.action.ts:97-99 | updating a feedback keeps the database invariant |
| FeedbackActions.CreateDeleteKeepRatingsInRange | models/feedback.model.ts:15 | creating or deleting a feedback never leaves a stored rating outside 1..5 |
| FeedbackActions.UpdateCanBreakRatingBounds | lib/actions/feedback.action.ts:97-99 | an update with rating 9 leaves a stored rating outside 1..5, because update runs no validators |
| FeedbackActions.UpdateIdempotent | lib/actions/feedback.action.ts:97-99 | applying the same update twice is the same as applying it once |
| FeedbackActions.FetchAfterCreate | lib/actions/feedback.action.ts:28-36 | the feedback just created is fetched back unchanged by its id |
| FeedbackActions.DeletedFeedbackIsGone | lib/actions/feedback.action.ts:74-84 | after a delete, fetching the same id fails with "Failed to fetch feedback" |
| FeedbackActions.PullUndoesPush | lib/actions/feedback.action.ts:30-34 | pulling a fresh id from the product it was just pushed onto restores the product list, and that product is the first to list the id |
| FeedbackActions.DeleteUndoesCreate | lib/actions/feedback.action.ts:16-89 | deleting the feedback just created returns it and restores every collection and product list; only the id counter has moved on |
| BlogActions.CreateBlogForProduct | lib/actions/blog.action.ts:7-30 | an unparseable or invalid body fails with "Failed to create blog" and changes nothing; a valid post is stored under a fresh id; the action succeeds exactly when the product exists, and then the id is appended to that product's blogs and no other product changes; for an unknown product it fails with the post left stored |
| BlogActions.UpdateBlogById | lib/actions/blog.action.ts:32-50 | an unparseable body or unknown id fails with "Failed to update blog" and changes nothing; otherwise only that post changes, taking each field the body carries and keeping the others |
| BlogActions.DeleteBlogById | lib/actions/blog.action.ts:52-70 | an unknown id fails with "Failed to delete blog" and changes nothing; otherwise exactly that post is removed from the collection, and each product loses every occurrence of its id and nothing else |
| BlogActions.PullBlogEverywhere | lib/actions/blog.action.ts:63 | after the pull no product lists the id, and each product keeps everything except its blog list |
| BlogActions.Populate | lib/actions/blog.action.ts:77 | populating yields only stored posts named by the list, in list order, skipping ids that name no post, and yields all of them when every id names a post |
| BlogActions.FetchProductBlogsById | lib/actions/blog.action.ts:72-86 | the fetch succeeds exactly when the product exists and returns it with its posts populated from the blog collection in the order the product lists them; otherwise it fails with "Failed to fetch product blogs" |
| BlogActions.FetchBlogById | lib/actions/blog.action.ts:88-102 | the fetch succeeds exactly when a post has the id and returns it, and otherwise fails with "Failed to fetch blog" |
| BlogActions.CreateBlogPreservesWf | lib/actions/blog.action.ts:14-23 | creating a post keeps the database invariant, whether or not the product exists |
| BlogActions.CreateForMissingProductOrphansPost | lib/actions/blog.action.ts:14-20 | for an unknown product the action fails, but the new post is stored and no product lists it |
| BlogActions.DeleteBlogPreservesWf | lib/actions/blog.action.ts:57-63 | deleting a post keeps the database invariant |
| BlogActions.PullBlogEverywhereAt | lib/actions/blog.action.ts:63 | each product's blog list loses exactly the pulled id, every occurrence, and keeps the rest in order |
| BlogActions.UpdateBlogPreservesWf | lib/actions/blog.action.ts:38-40 | updating a post keeps the database invariant |
| BlogActions.DeletedBlogIsGone | lib/actions/blog.action.ts:57-63 | after a delete, fetching the same id fails with "Failed to fetch blog" |
| BlogActions.FetchAfterUpdate | lib/actions/blog.action.ts:38-44 | after an update, fetching the post gives the stored post with the body's fields laid over it |
| BlogActions.PopulateSnoc | lib/actions/blog.action.ts:77 | populating a list with one more id appends the post it names, if any |
| BlogActions.CreatedPostIsFetchedLast | lib/actions/blog.action.ts:7-86 | after a successful create, fetching the product's posts shows the new post last |
| BlogActions.DeleteUndoesCreate | lib/actions/blog.action.ts:7-70 | deleting the post just created restores every collection and product list; only the id counter has moved on |
| StoresRoute.PostStore | app/api/stores/route.ts:6-32 | a body that is not JSON, or is `null`, answers 500 "Internal error"; a missing or empty name answers 400 "Name is required" even for anonymous callers; a named request without a user answers 401; none of these creates a store; otherwise a store with exactly that name and user, owning nothing, is created under a fresh id and returned |
| StoresRoute.PostStorePreservesWf | app/api/stores/route.ts:14-27 | only a successful request changes the state, and it keeps the database invariant |
| StoresRoute.CreatedStoreIsFound | app/api/stores/route.ts:22-27 | the returned store is the one a lookup by its id finds |
| ImageUpload.ContainsIffOccurs | lib/cloudinary-upload.ts:29 | the type test finds "image/" anywhere in the type, not only at the start: it holds exactly when the marker occurs at some position |
| ImageUpload.OverLimitIffBytes | lib/cloudinary-upload.ts:33 | the size test fails exactly for more than 20 * 1024 * 1024 bytes |
| ImageUpload.Validate | lib/cloudinary-upload.ts:28-38 | a file is accepted exactly when its type contains "image/" and it is not over the size limit; a non-image file is rejected for its type whatever its size; an image over the limit is rejected for its size |
| ImageUpload.AcceptedFiles | lib/cloudinary-upload.ts:28-38 | the accepted files are exactly those whose type contains "image/" somewhere and whose size is at most 20 MiB |
| ImageUpload.SizeLimitExamples | lib/cloudinary-upload.ts:33-37 | an image of exactly 20 MiB is accepted and one byte more is rejected for its size |
| Sequences.SumPermutation | lib/actions/get-total-revenue.ts:11-16 | a sum over a sequence does not depend on the order of its elements |
| Sequences.Without | app/api/webhook/route.ts:37 | removing a value (`filter`, `$pull`) drops every occurrence and keeps every other value as often as before |
| Sequences.WithoutAppend | app/api/webhook/route.ts:37 | removal works piece by piece over concatenation, so the survivors keep their order |
| Sequences.FirstWhere | lib/actions/feedback.action.ts:74-77 | the position found is the first one whose element matches, and there is none exactly when no element matches |
| Sequences.CountReplace | lib/actions/get-stock-count.ts:4-7 | replacing a counted element with an uncounted one lowers the count by exactly one |
| Documents.IndexOf | lib/actions/feedback.action.ts:57 | the position found is the first with the id, and there is none exactly when no document has the id |
| Documents.RemoveWellFormed | lib/actions/feedback.action.ts:79 | removing a document keeps ids unique and handed out |

## Left out

- Timestamps: `createdAt` and `updatedAt` are not modelled. The month that the
  revenue graph reads from `createdAt.getMonth()` is an input field of the order.
  The time zone behind it is outside the model.
- The payment gateway's signature check is not modelled. Its outcome, a parsed
  event or the error message it threw, is an input.
- Database plumbing is not modelled: connecting, query execution, `JSON.stringify`
  of results and `toObject`. Populated product prices are the input function
  `price`.
- JavaScript numbers: prices are unbounded integers (for example, cents), with no
  floating point. The upload size check keeps the source's real division.
- Atomicity and interleaving are not modelled. Each action is one sequential
  transition over the whole state.
- Types beyond strings: a name or title that is a non-string JSON value is not
  represented. Such a value would be cast or rejected by Mongoose.
- Calls to the two multi-step actions with a product document that fails its own
  schema are not modelled. `product.save()` in `createBlogForProduct` would
  revalidate that product. The model assumes stored products are valid.
- The upload network call `Upload`, the editor plugin wiring and the toast pop-ups
  are not modelled. `Validate` returns the toast text in its verdict instead.
- The other action files (SEO, coupons, batches, products, orders, stores), the UI
  components and the schemas the modelled code does not read are not part of this
  model.
- FeedbackModel.Create: ratings are modelled as integers. The schema's `Number` with
  `min: 1` and `max: 5` would also accept a fractional rating such as 4.5; the
  feedback form's rating field offers only the whole values 1..5.

## Findings

| source | as written | input that shows it | evidently intended | confidence | as-written member | corrected member |
|---|---|---|---|---|---|---|
| lib/actions/get-total-revenue.ts:7-13 | populates the path `products`, which the Order schema does not have, so `orderItems` stay bare ids and `item.productId.price` reads a property of `undefined` | one paid order of the store with one order item whose product costs 100 | populate `orderItems` and then `productId`, as get-graph-revenue.ts does, and sum the item prices | medium, not executed; newer Mongoose versions reject the unknown path before the sum is reached | Dashboard.TotalRevenueAsWritten | Dashboard.GetTotalRevenue |
