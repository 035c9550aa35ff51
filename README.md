# ecommerce-admin core, modelled in Dafny

This project models the logic at the heart of the ecommerce admin panel.

- **Property inheritance in the product form.** The form lists the selected category's properties, then its parent's, grandparent's and so on. It finds each parent by walking `parent._id` through the category list.
- **Product form state.** This covers the property-value map, the image list (delete, upload, save) and the payload the form posts or puts.
- **Categories page editor.** Each property row keeps its values as one comma-joined string while being edited, and the page keeps a per-category product-count map.
- **Settings endpoint.** It upserts a name → value record. When the name is `coupons`, it also reconciles the payment platform's coupons with the desired coupon table.

There is one module per piece:

| file | module | source |
|---|---|---|
| `common.dfy` | `Common` | shared shapes of `types/index.ts` |
| `property_resolver.dfy` | `PropertyResolver` | the `while` walk of `components/ProductForm.tsx` and `components/ProductForm.js` |
| `product_form.dfy` | `ProductForm` | the state updates of the two product forms |
| `category_editor.dfy` | `CategoryEditor` | `pages/categories.tsx` and `pages/categories.js` |
| `settings_api.dfy` | `SettingsApi` | `pages/api/settings.ts` |

**The resolver.** The walk is a `method` with the source's `while` loop. It is proved equal to the function `Resolve`. The result type has three outcomes:

- `Resolved(list)`;
- `Throws`: a parent id that matches no category, or matches one without `properties`, makes `properties.push(...parentCategory.properties)` raise a TypeError;
- `Diverges`: a cyclic chain, which the source loops on forever.

The method stops a walk still running after as many steps as there are categories. `DivergesForever` and `ResolveDivergesIffEndless` prove that such a walk never ends, so the bound does not change any outcome.

The JavaScript form (`components/ProductForm.js:92-106`) runs the same loop, so the one model covers both.

**The categories page.** The row handlers change one row of the page's state. They are methods of the class `CategoryForm`. The product counts come from a `forEach` writing into an object, modelled as a method with a loop over a `map`. `pages/categories.js` has the same `saveCategory`, `editCategory`, `addProperty`, change handlers and `removeProperty` as the TypeScript page. The model covers both; each table row cites one of the two files.

**The settings endpoint.**

- The settings collection is a class, `SettingsStore`.
- The payment platform is an abstract store, the class `CouponPlatform`. It holds coupons with platform-assigned ids, promotion codes, and the next id.
- The product catalogue is a parameter.
- The pure function `Reconcile` specifies the handler's two loops. The imperative `HandlePut`, with `UpdateLoop` and `DeleteLoop`, is proved to end in exactly the platform state `Reconcile` gives, or in the state where an uncaught error ended the request.

### Behaviour of the code that the model keeps

- A parent id that matches no category, or matches one without `properties`, makes the spread at `components/ProductForm.tsx:129-132` throw. This happens at any depth of the chain; the model's outcome is `Throws` (`ResolveBrokenChain`).
- A cyclic parent chain makes the loop at `components/ProductForm.tsx:128` run forever. The model's outcome is `Diverges`, proved to be real non-termination.
- The create/update loop has no `try`. A throwing `stripe.coupons.del` (`pages/api/settings.ts:63`) ends the request, and the remaining coupons are not processed. `UpdatePass` then returns `completed == false`.
- Every desired coupon's same-named coupon on the platform is deleted and recreated, whether or not its parameters changed.
- The settings record is written before any platform call (`pages/api/settings.ts:25-35`).
- The handler validates nothing about the coupon table.
- The handler reads only the one page `stripe.coupons.list({})` returns: at most 10 coupons, newest first (`pages/api/settings.ts:40-41`). Coupons past that page are never replaced or deleted (`UnlistedCouponSurvives`). Syncing 11 codes twice therefore leaves two coupons with the first code (`ResyncPastOnePage`).
- The update loop looks coupons up by their `code`, while the leftover filter compares names with the table's keys (`pages/api/settings.ts:47-58`). A key that differs from its coupon's code leaves the fetched coupon named after the key in place (`KeyCodeMismatchKeepsCoupon`).

Some functions serve as specifications and are covered by the rows that state their properties:

- `SettingsApi.Reconcile`, `UpdatePass` and `DeletePass` (`pages/api/settings.ts:38-155`) are covered by `UpdatePassExact`, `DeletePassExact`, `ReconcileExact`, `UnlistedCouponSurvives` and the loop methods proved against them.
- `SettingsApi.AppliesTo` and `ProductsInCategory` are covered by `AppliesToRules` and `ProductsInCategoryMembers`.
- `CategoryEditor.Join` is covered by `JoinSplit` and `SplitJoinIff`.
- `ProductForm.Sources` is covered by `SaveAfterLoad`, `UploadThenSave` and `SaveProduct`.
- `ProductForm.InitialLinks` is covered by `LoadUploadSaveJs`.

## Model

| member | source | states |
|---|---|---|
| `PropertyResolver.FindIndex` | components/ProductForm.tsx:123-125 | `find` gives the first category whose `_id` equals the id, and none when no category has it |
| `PropertyResolver.Resolve` | components/ProductForm.tsx:121-136 | empty when the list is empty, nothing is selected or the `_id` is not found; empty when the selected category has no `properties` field; exactly its own properties when it has no truthy parent id; an error when the parent is missing or has no `properties`; otherwise the own properties are a prefix of the result |
| `PropertyResolver.ResolveProperties` | components/ProductForm.tsx:120-136 | the `push`/`while` loop ends in the outcome `Resolve` specifies |
| `PropertyResolver.CycleDiverges` | components/ProductForm.tsx:128-134 | a category that the parent chain returns to never finishes its walk, whatever the number of steps allowed |
| `PropertyResolver.DivergesForever` | components/ProductForm.tsx:128-134 | a walk still going after as many steps as there are categories never ends |
| `PropertyResolver.ResolveAgrees` | components/ProductForm.tsx:126-134 | whenever the unbounded loop finishes after some number of steps, `Resolve` gives that outcome |
| `PropertyResolver.ResolveDivergesIffEndless` | components/ProductForm.tsx:128 | `Resolve` reports a cycle exactly when the source loop would run forever |
| `PropertyResolver.ResolveChain` | components/ProductForm.js:94-104 | on an acyclic chain whose parents all resolve, the result is own, parent's, grandparent's … properties in declared order, and its length is the sum of the counts along the chain |
| `PropertyResolver.ResolveBrokenChain` | components/ProductForm.tsx:128-132 | when the ancestors resolve up to one whose parent is missing or has no `properties`, at any depth, the result is an error |
| `PropertyResolver.MissingGrandparentThrows` | components/ProductForm.js:98-103 | a child whose parent points to a missing grandparent throws |
| `PropertyResolver.TwoLevelKeepsDuplicates` | components/ProductForm.tsx:127-132 | a property name declared at two levels appears twice, child first |
| `ProductForm.InitialPropertiesTs` | components/ProductForm.tsx:40-42 | the product's own map when it has one; otherwise a new product's map is exactly `name` ↦ `''` and `values` ↦ `[]` |
| `ProductForm.InitialPropertiesJs` | components/ProductForm.js:30-32 | the product's own map when it has one; otherwise a new product's map starts empty |
| `ProductForm.SetProductProps` | components/ProductForm.tsx:112-118 | the copy maps `propName` to the value, has the old keys plus `propName`, and keeps every other key's value |
| `ProductForm.SetAllKeeps` | components/ProductForm.js:83-90 | successive selections only add the selected keys; a key never selected keeps its starting value |
| `ProductForm.NewProductKeys` | components/ProductForm.tsx:40-42 | a new product's map holds `name`, `values` and the selected keys (TypeScript), or only the selected keys (JavaScript) |
| `ProductForm.InitialImages` | components/ProductForm.tsx:32-34 | loaded images get their positions as ids; no images gives `[]` |
| `ProductForm.SaveAfterLoad` | components/ProductForm.tsx:56 | loading a product and saving it sends back the same image list |
| `ProductForm.DeleteImage` | components/ProductForm.tsx:106-110 | no image with the id remains, every other image is kept, nothing new appears, and the length drops by the number of matches |
| `ProductForm.DeleteImageSplits` | components/ProductForm.tsx:108 | deletion keeps the survivors in their order |
| `ProductForm.DeleteAbsentId` | components/ProductForm.tsx:106-110 | deleting an id no image has changes nothing |
| `ProductForm.UploadImages` | components/ProductForm.tsx:78-98 | no file leaves the list untouched; otherwise the old list is kept as a prefix and link `i` follows with id `oldLength + i` |
| `ProductForm.UploadThenSave` | components/ProductForm.tsx:90-98 | after an upload, saving sends the old sources followed by the links |
| `ProductForm.UploadKeepsIndexIds` | components/ProductForm.tsx:93-96 | without deletions, ids stay equal to positions |
| `ProductForm.IdsCollideAfterDelete` | components/ProductForm.tsx:90-110 | after a deletion an upload can reuse a live id, and a later delete removes both images |
| `ProductForm.SaveProduct` | components/ProductForm.tsx:55-74 | PUT with the id exactly when `_id` is truthy, else POST; the payload carries title, description and price as typed, the image sources in order, the category, the property map and `hidden` unchanged |
| `ProductForm.UploadLinks` | components/ProductForm.js:64-75 | no file leaves the list untouched; otherwise old links then new links, both in order |
| `ProductForm.SaveProductJs` | components/ProductForm.js:44-60 | PUT exactly when `_id` is truthy, to that id; title, description, price, images, category and property map go out unchanged; no `hidden` field |
| `ProductForm.LoadUploadSaveJs` | components/ProductForm.js:73-75 | load, upload, save sends the stored links then the uploaded ones |
| `CategoryEditor.Split` | pages/categories.tsx:78 | `split(',')` never gives an empty list and no part contains ',' |
| `CategoryEditor.JoinSplit` | pages/categories.tsx:76-102 | joining what was split gives back the string, for every string |
| `CategoryEditor.SplitJoinIff` | pages/categories.js:36-62 | splitting what was joined restores the list exactly when it is non-empty and no value contains ',' |
| `CategoryEditor.SaveRows` | pages/categories.tsx:76-79 | one property per row, same order, same names |
| `CategoryEditor.EditRows` | pages/categories.js:58-63 | one row per stored property, same order, same names |
| `CategoryEditor.EditAfterSave` | pages/categories.tsx:73-103 | saving rows and editing the category again shows the same rows |
| `CategoryEditor.SaveAfterEditIff` | pages/categories.tsx:94-104 | opening a category and saving it unchanged stores the same properties exactly when every value list is non-empty and free of ',' |
| `CategoryEditor.AddRow` | pages/categories.tsx:128-132 | one `{'', ''}` row after the unchanged old rows |
| `CategoryEditor.SaveAfterAdd` | pages/categories.js:88-92 | a blank added row is saved as a property named '' with the single value '' |
| `CategoryEditor.RemoveRow` | pages/categories.tsx:149-155 | an in-range index drops exactly that row and keeps the rest in order; an out-of-range index changes nothing |
| `CategoryEditor.RemoveAfterAdd` | pages/categories.js:109-115 | removing the row just added restores the list |
| `CategoryEditor.CategoryForm.constructor` | pages/categories.tsx:17-26 | the page starts with an empty name, parent '', no edited category and no rows |
| `CategoryEditor.CategoryForm.SaveCategory` | pages/categories.tsx:71-92 | sends name, parent and the split rows; PUT with the edited category's id exactly when one is being edited; after a delivered request name and parent are '', rows `[]` and nothing is being edited; a failed request resets nothing |
| `CategoryEditor.CategoryForm.EditCategory` | pages/categories.tsx:94-104 | sets the edited category, name and parent; the rows become the joined properties, or stay as they were when `properties` is absent and the `map` throws |
| `CategoryEditor.CategoryForm.Cancel` | pages/categories.tsx:241-246 | back to the empty form |
| `CategoryEditor.CategoryForm.AddProperty` | pages/categories.js:88-92 | the rows gain one blank row; nothing else changes |
| `CategoryEditor.CategoryForm.HandlePropertyNameChange` | pages/categories.tsx:134-140 | only row `index`'s name changes; a missing row makes the assignment throw and nothing changes |
| `CategoryEditor.CategoryForm.HandlePropertyValuesChange` | pages/categories.js:101-107 | only row `index`'s values change; a missing row makes the assignment throw and nothing changes |
| `CategoryEditor.CategoryForm.RemoveProperty` | pages/categories.js:109-115 | the rows lose exactly the indexed row; nothing else changes |
| `CategoryEditor.ProductCounts` | pages/categories.tsx:58-66 | the map holds the seed keys plus every counted category id; each id's last write is its response's length; an id without a response displays 0 |
| `SettingsApi.FindSetting` | pages/api/settings.ts:25 | `findOne({ name })` gives the first record with the name, or none |
| `SettingsApi.UpsertLookup` | pages/api/settings.ts:25-35 | after the upsert the name reads back the new value and every other name reads what it read before |
| `SettingsApi.UpsertRecords` | pages/api/settings.ts:25-35 | the collection grows by one record exactly when no record has the name |
| `SettingsApi.SettingsStore.Put` | pages/api/settings.ts:28-35 | the collection becomes the upsert of the old one |
| `SettingsApi.Page` | pages/api/settings.ts:40-41 | the listing is the newest coupons, newest first, at most 10 |
| `SettingsApi.PageHoldsAll` | pages/api/settings.ts:40-41 | with at most 10 coupons on the platform the page lists every one of them, the newest first |
| `SettingsApi.PageMissesOldest` | pages/api/settings.ts:40-41 | with more than 10 coupons, the oldest ones are not listed |
| `SettingsApi.CouponPlatform.List` | pages/api/settings.ts:40-41 | returns at most 10 coupons, the newest first, and every coupon when there are at most 10 |
| `SettingsApi.CouponPlatform.Delete` | pages/api/settings.ts:63 | succeeds exactly when a coupon has the id, and then removes it; a failed call changes nothing |
| `SettingsApi.CouponPlatform.Create` | pages/api/settings.ts:127-129 | appends a coupon with the next id and the given parameters |
| `SettingsApi.CouponPlatform.CreatePromotionCode` | pages/api/settings.ts:133-137 | appends one promotion code for the coupon and code |
| `SettingsApi.Params` | pages/api/settings.ts:68-77 | name is the code; percent passed through; amount × 100 and currency "usd" exactly when the amount is truthy (0 counts as absent); `applies_to` by the scope rule |
| `SettingsApi.AppliesToRules` | pages/api/settings.ts:80-124 | `all`: every product id in catalogue order; `product`: the one product; `category`: exactly the products whose category or category parent is the id; anything else leaves it unset |
| `SettingsApi.ProductsInCategoryMembers` | pages/api/settings.ts:105-118 | a product is in the category query's result exactly when its category id or its category's parent is the id |
| `SettingsApi.CategoryScopeIsTwoLevels` | pages/api/settings.ts:103-123 | a category scope reaches its products and its children's, not a grandchild's |
| `SettingsApi.FirstNamed` | pages/api/settings.ts:56-58 | `find` gives the first fetched coupon with that name, or none |
| `SettingsApi.NamesToDelete` | pages/api/settings.ts:47-49 | no name to delete is a key of the table, so the delete and update sets are disjoint |
| `SettingsApi.NamesToDeleteMembers` | pages/api/settings.ts:42-49 | the names to delete are fetched names, and every fetched name that is not a key is among them |
| `SettingsApi.NamesToDeleteDistinct` | pages/api/settings.ts:42-49 | with unique fetched names, no name is deleted twice |
| `SettingsApi.SnapshotCovered` | pages/api/settings.ts:42-58 | for a table whose keys are its coupons' codes and fetched coupons with unique names, every fetched coupon is either replaced by the update loop or listed for deletion |
| `SettingsApi.KeyCodeMismatchKeepsCoupon` | pages/api/settings.ts:47-58 | a key that differs from its coupon's code leaves the fetched coupon named after the key next to the new one |
| `SettingsApi.UpdatePassExact` | pages/api/settings.ts:53-139 | with distinct codes, the update loop deletes each code's fetched coupon and appends one new coupon and one promotion code per entry, in key order |
| `SettingsApi.UpdatePassAborts` | pages/api/settings.ts:61-63 | a delete that throws ends the loop where it stands |
| `SettingsApi.DeletePassExact` | pages/api/settings.ts:141-155 | with distinct names whose coupons are present, the leftover loop removes exactly those coupons and nothing else |
| `SettingsApi.ReconcileExact` | pages/api/settings.ts:38-155 | from a valid platform holding at most 10 coupons with unique names, and a table keyed by code, the platform ends with exactly the desired coupons, in key order with new ids, plus one promotion code each; no coupon there before remains |
| `SettingsApi.ResyncIsIdempotent` | pages/api/settings.ts:53-137 | with at most 10 codes, re-running with the same table leaves one coupon per code with the same parameters, not duplicates |
| `SettingsApi.DeletePassKeepsUnlisted` | pages/api/settings.ts:141-155 | the leftover loop never deletes a coupon the fetched page does not show |
| `SettingsApi.UnlistedCouponSurvives` | pages/api/settings.ts:40-155 | with distinct codes, a coupon older than the fetched page survives the run, next to every coupon the run creates |
| `SettingsApi.ResyncPastOnePage` | pages/api/settings.ts:40-139 | syncing 11 codes twice on a fresh platform leaves two coupons with the same name |
| `SettingsApi.DuplicateCodeAborts` | pages/api/settings.ts:53-65 | two keys with one code and a matching fetched coupon: the second delete throws and the request ends after the first replacement |
| `SettingsApi.LeftoverDuplicateSurvives` | pages/api/settings.ts:141-155 | of two fetched coupons sharing an unwanted name only the first listed, the newest, is deleted; the second lookup's failing delete is caught |
| `SettingsApi.UpdateLoop` | pages/api/settings.ts:53-139 | the loop of calls ends in the state the update pass specifies, and reports whether it ran to the end |
| `SettingsApi.DeleteLoop` | pages/api/settings.ts:141-155 | the loop of calls ends in the state the leftover pass specifies |
| `SettingsApi.HandlePut` | pages/api/settings.ts:21-156 | the record is upserted whatever the platform does; for `coupons` the platform ends as `Reconcile` specifies, otherwise it is untouched |
| `SettingsApi.GetCoupons` | pages/api/settings.ts:164-171 | with no record it returns `[{}]`; with a stored table it returns its coupons in key order |
| `SettingsApi.GetAfterPut` | pages/api/settings.ts:162-171 | after a PUT of a coupon table, GET returns that table's coupons, whatever the platform calls did |

## Left out

- Rendering and React plumbing are left out: JSX, `useEffect`, loading flags, `router.push`, sweetalert dialogs (`deleteCategory`) and the network calls behind axios. A request's success or failure enters as a parameter (`SaveCategory`'s `delivered`, `ProductCounts`'s `responses`).
- `updateImagesOrder` (drag-to-reorder) is left out. It replaces the list with whatever the sortable widget produces, which the model cannot see.
- Concurrency is left out: `Promise.all` in `fetchCategories` and React's batching of state updates. A rejected `Promise.all` is an empty response list.
- The change handlers write into the row object shared with the previous state (`[...prev]` is a shallow copy). The model treats rows as values. The aliasing is visible only through React's previous state, which is not modelled.
- An out-of-range index in the change handlers makes the updater throw. The model reports this as `ok == false` with the state unchanged. What React does with the exception is not modelled.
- Image ids are `${n}` strings in the source; the model uses the number `n`. The rendering is injective, so equality is the same.
- Payment platform behaviour:
  - `SettingsApi.CouponPlatform.List` returns the default page of at most 10 coupons, newest first. The platform stores coupons in creation order, since every create appends; a platform whose stored order differs from creation order is not modelled.
  - Network, rate-limit and validation errors are not modelled: creates always succeed, and a delete fails only for an unknown id.
  - Coupons without a name are not modelled.
- `amountOff * 100` is exact `real` arithmetic: no floating-point rounding, and no rejection of fractional cents.
- `new mongoose.Types.ObjectId(couponData.category)` throws on a malformed id; the model compares category ids as strings. Missing `product`/`category` fields are empty strings rather than `undefined`.
- The coupon table is an ordered list of (key, coupon) entries. `Object.keys` puts integer-like keys first in ascending order, and that reordering is not modelled.
- `settingsDoc.save()` is not awaited. The model applies the write at once, and write failures are not modelled.
- The JSON responses and the GET branch for other names are left out. That branch returns `findOne`'s record, which `FindSetting` and `UpsertLookup` describe.
- Authentication (`isAdminRequest`) and the database connection are left out.
- `SettingsApi.UpdatePassExact`, `SettingsApi.ReconcileExact` and `SettingsApi.ResyncIsIdempotent` need distinct codes, unique fetched names and coupons still present. Without these, the update loop can stop early; `DuplicateCodeAborts` and `LeftoverDuplicateSurvives` show the two ways this happens.
- `SettingsApi.ReconcileExact` and `SettingsApi.ResyncIsIdempotent` also assume a table keyed by code (`KeyedByCode`: every key equals its coupon's code). The handler does not check this; `KeyCodeMismatchKeepsCoupon` shows the case it excludes. They also assume at most 10 coupons on the platform, and `ResyncIsIdempotent` at most 10 codes; `UnlistedCouponSurvives` and `ResyncPastOnePage` show what happens past one page.
- `CategoryEditor.ProductCounts` stores the seed object's `_id: ''` as the number 0. The table shows both through `|| 0`, so the displayed counts are the same.
- `SettingsApi.HandlePut` requires a coupon table as the value when the name is `coupons`. A string or number body would make `Object.keys` walk its characters or nothing; that path is not modelled.
