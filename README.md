# Restaurant ordering client: cart total, order placement and menu-item saving

A Dafny model of the two pieces of owned logic in a React Native restaurant
ordering app whose persistence and authentication are done by a hosted
backend client:

- **Order placement** on the cart screen (`CartScreen`, in
  `cart_screen.dfy`). The cart total is a fold of price × quantity over the
  cart lines. The `order_items` records are mapped from the cart lines. The
  `handlePlaceOrder` sequence is: empty-cart guard, `getUser`, the `orders`
  insert, the `order_items` insert, and `clearCart` only after both inserts
  succeeded.
- **Saving a menu item** on the item editor (`ImagePath` in `image_path.dfy`
  and `ManageItem` in `manage_item.dfy`). Saving checks the required fields.
  For a newly picked image it then derives the extension, storage path and
  content type and uploads the image; otherwise it keeps the item's existing
  image URL. It writes with an update keyed by id when editing an item and an
  insert otherwise. The `uploading` flag is raised for the duration of the
  save.

Shared `Option` and `Outcome` datatypes are in `wrappers.dfy`.

Every backend call is a method of a small class (`CartScreen.Backend`, and the
upload and write methods of `ManageItem.ManageItemScreen`). Each such method
appends the call to a trace field and answers with an outcome passed in as a
parameter. The whole-screen methods `CartScreen.PlaceOrder` and
`ManageItem.ManageItemScreen.HandleSave` follow the source statement by
statement. Each is proved equal to a pure function of its inputs
(`CartScreen.Submit`, `ManageItem.RunSave`): the function gives the status, the
trace of calls and the new state. The properties are proved about those
functions.

Conventions:
- Prices are integer cents. The source sums JavaScript floats and formats the
  sum with `toFixed(2)`. The model's total is the exact sum in cents.
- `getUser`'s answer, `Date.now()`, the storage upload's answer, the public URL
  storage gives the uploaded file, and the answers of the inserts and the update
  are all parameters.
- JavaScript truthiness is written out. `!name || !price` is "empty string".
  `image && image.base64` is "an image with base64 data that is present and not
  empty".

Facts about what the code does, which the model follows:
- Each failed submission shows an alert and returns; no error value is raised.
  The model returns a status (`EmptyCart`, `OrderCreationFailed`,
  `OrderItemsFailed`, `OrderPlaced`).
- The total is a float sum rounded by `toFixed(2)`, not a currency-safe
  decimal sum. The model keeps exact cents (see "Left out").
- Nothing in the modelled code keeps one line per menu item or positive
  quantities, so no property here depends on either. Only `Total`'s
  non-negativity assumes prices and quantities that are not negative.

A behaviour of the code that the model makes visible: when the image URI has
no '.', `split('.').pop()` returns the whole URI. The "extension" is then the
URI itself, and it ends up in both the storage path and the content type
(`ImagePath.FileExtIsAfterLastDot`).

## Model

| member | source | states |
|---|---|---|
| CartScreen.Total | screens/CartScreen.js:10-12 | `calculateTotal` as a left fold of price × quantity from 0; the total of a cart without negative prices or quantities is not negative |
| CartScreen.TotalAppend | screens/CartScreen.js:11 | the total is additive: Total(a + b) = Total(a) + Total(b) |
| CartScreen.TotalIsSumOfSubtotals | screens/CartScreen.js:67 | the footer total equals the sum of the per-row subtotals (price × quantity) shown on each row, added from the other end |
| CartScreen.TotalExample | screens/CartScreen.js:10-12 | 2 × 10.00 + 1 × 5.50 totals 25.50 (in cents) |
| CartScreen.OrderItems | screens/CartScreen.js:40-45 | one record per cart line, in cart order, each with `order_id` the new order's id and `menu_item_id`, `quantity`, `price` copied from its line |
| CartScreen.OrderItemsRoundTrip | screens/CartScreen.js:40-45 | the cart lines read back out of the order items are exactly the cart: none lost, duplicated, reordered or altered |
| CartScreen.ItemsAmountIsTotal | screens/CartScreen.js:20-29 | the stored items' price × quantity add up to the `total_price` stored on the order |
| CartScreen.Submit | screens/CartScreen.js:14-61 | an empty cart issues no call and keeps the cart; the cart is cleared exactly when both inserts succeed and is unchanged otherwise; a failed order insert issues no items insert; a failed items insert keeps the cart; the full trace of each path: `[getUser, orders insert of the total and the user's id]` when the order insert fails, and that followed by the `order_items` insert of one record per line for the new id when it returns one |
| CartScreen.SubmitCallOrder | screens/CartScreen.js:21-49 | on every path: the order insert carries the total and the user's id; the items insert carries `OrderItems` of the new id and comes right after the order insert; no call is issued twice; `getUser` comes first |
| CartScreen.SubmitExample | screens/CartScreen.js:14-61 | the example cart places one order of 25.50 with items priced 10.00 and 5.50 and leaves the cart empty |
| CartScreen.Cart.Clear | screens/CartScreen.js:59 | `clearCart` leaves the cart with no lines |
| CartScreen.Backend.GetUser | screens/CartScreen.js:21 | logs `getUser` and answers with the given user |
| CartScreen.Backend.InsertOrder | screens/CartScreen.js:24-31 | logs the `orders` insert with its total and user id and answers with the given outcome |
| CartScreen.Backend.InsertOrderItems | screens/CartScreen.js:47-49 | logs the `order_items` insert with its records and answers with the given outcome |
| CartScreen.PlaceOrder | screens/CartScreen.js:14-61 | `handlePlaceOrder` step by step: its status, the cart afterwards and the calls it appends to the backend trace are those `Submit` gives for the cart it started with |
| ImagePath.Split | screens/ManageItemScreen.js:50 | `split('.')`: at least one piece, no piece holds the separator, and joining the pieces with the separator gives the input back |
| ImagePath.SplitAt | screens/ManageItemScreen.js:50 | splitting `t + sep + u` gives the pieces of `t` followed by the pieces of `u` |
| ImagePath.SplitWithoutSep | screens/ManageItemScreen.js:50 | a string without the separator splits into itself alone |
| ImagePath.FileExt | screens/ManageItemScreen.js:50 | `split('.').pop()` returns text without '.' |
| ImagePath.FileExtIsAfterLastDot | screens/ManageItemScreen.js:50 | the extension is a suffix of the URI preceded by '.' when the URI has one, and is the whole URI when it has none |
| ImagePath.FileExtAfterLastDot | screens/ManageItemScreen.js:50 | for any `t` and any `ext` without '.', the extension of `t + "." + ext` is `ext` |
| ImagePath.Decimal | screens/ManageItemScreen.js:51 | the timestamp rendered in decimal: non-empty, digits only, no leading zero |
| ImagePath.DecimalRoundTrip | screens/ManageItemScreen.js:51 | the decimal rendering reads back as the timestamp |
| ImagePath.StoragePath | screens/ManageItemScreen.js:51-52 | the storage path begins with "public/" |
| ImagePath.StoragePathKeepsExt | screens/ManageItemScreen.js:50-52 | the stored file's extension is the image's extension |
| ImagePath.ContentType | screens/ManageItemScreen.js:57 | the content type begins with "image/" and holds no '.' |
| ImagePath.ContentTypeMatchesPath | screens/ManageItemScreen.js:50-57 | the content type is "image/" followed by the extension of the stored file |
| ManageItem.WriteEvent | screens/ManageItemScreen.js:87-100 | an update filtered by the edited item's id when editing, an insert of the same record otherwise |
| ManageItem.RunSave | screens/ManageItemScreen.js:37-111 | missing name or price: that status and nothing done; upload failure exactly when a new image's upload fails; saved exactly when the fields are present, any needed upload succeeded and the write succeeded |
| ManageItem.SaveRaisesAndLowersFlag | screens/ManageItemScreen.js:43-110 | past the field check, `uploading` is set true first, false last, and not touched in between |
| ManageItem.SaveUploadsOnlyNewImage | screens/ManageItemScreen.js:48-58 | an upload happens only for an image with base64 data; it comes right after the flag is raised, to `StoragePath` with `ContentType` and the image's data |
| ManageItem.SaveUploadFailureWritesNothing | screens/ManageItemScreen.js:60-75 | after a failed upload no database write is issued |
| ManageItem.SaveWritesOnce | screens/ManageItemScreen.js:85-110 | after a successful upload or no upload, exactly one write, just before the flag is lowered; no write on any other path |
| ManageItem.SaveWriteTargetsAndRecord | screens/ManageItemScreen.js:45-100 | the write is an update keyed by `itemToEdit.id` when editing, an insert otherwise; it carries the form's fields and the public URL of the upload or, without a new image, the edited item's existing `image_url` |
| ManageItem.UploadingResetOnEveryPath | screens/ManageItemScreen.js:38-110 | the flag after a save is false on every path that raised it and unchanged when the fields are missing |
| ManageItem.ManageItemScreen.SetUploading | screens/ManageItemScreen.js:43 | sets the flag and logs the change |
| ManageItem.ManageItemScreen.Upload | screens/ManageItemScreen.js:54-58 | logs the upload and answers with the given outcome, leaving the flag alone |
| ManageItem.ManageItemScreen.Write | screens/ManageItemScreen.js:87-99 | logs the write and answers with the given outcome, leaving the flag alone |
| ManageItem.ManageItemScreen.HandleSave | screens/ManageItemScreen.js:37-111 | `handleSave` step by step: its status and the events it appends are those `RunSave` gives; the flag ends false, or unchanged when the fields are missing |

## Left out

- Float arithmetic and formatting: the `reduce` over JavaScript numbers, `toFixed(2)` on the total and on each row's subtotal, and the string `total_price` sent to the backend. The model sums integer cents exactly, so float rounding error is not captured.
- `parseFloat(price)`: the written record carries the price text as typed. The parse is not modelled.
- The cart's add, remove and clear implementations belong to the cart context, which is not part of this model. `clearCart` is modelled as "set the lines to empty". `removeFromCart` is not modelled. No property assumes that item ids are unique in the cart.
- The backend itself: authentication, table inserts and updates, the storage upload, `getPublicUrl` and the base64 `decode`. They are replaced by outcomes passed in as parameters. A failed upload is the upload outcome `Err`.
- `getUser` is modelled as always answering a user or none, and `user?.id` as an optional id. A response without `data`, which would make the destructuring throw, is not modelled.
- Alerts, `console.error`, navigation (`navigation.goBack()`), the image picker, rendering and styles: UI and I/O.
- Concurrency: a second press of "Finalizar Pedido" while a submission is in flight, and interleaving of awaited calls with other UI events. Each model method runs to completion alone.
- The login, home and menu screens and the app's session-gated navigator: pass-throughs to the backend and navigation with no owned logic.
- An exception thrown by `image.uri.split` or by `decode(image.base64)` inside the upload `try` block happens before any upload request is sent. The model can only express it as the upload outcome `Err`, so its trace then shows an `Upload` event the source never sent. The status, the flag and the absence of a write still match the source.
