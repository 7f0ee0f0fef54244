# bakejoy in Dafny

bakejoy is the back end (Django REST Framework) and front end (React) of an
online shop for cakes and party supplies. This project models the shop's
rules and proves what they promise.

The back end is modelled as in-memory tables. Each request handler is a method
of a class that owns its tables:

- `Users.Accounts` and `Users.AddressBook` for users and addresses;
- `Locations.LocationTables` for the province and city migrations;
- `Catalog.Store` for tags, cakes, variants, gallery images, wishlists and
  reviews;
- `Orders.Shop` for carts, orders, transactions, status logs and notifications.

The pure parts are functions:

- line and order prices (`Pricing`);
- the serializers' checks (`OrderSerializers`, `CatalogRequests`, `Users`);
- the SMS template rendering and dispatch decision (`SmsService`);
- the Zarinpal payment decisions (`Zarinpal`);
- the Solar Hijri month arithmetic of the admin date filters (`Shamsi`).

On the front end, each page or component keeps its own state. The model
follows its handlers:

- the product, party-supply and admin order list pages;
- the pagers and the payment badges;
- the product and category forms, with their zod schemas;
- the tag field, the quantity picker, the home slider and the password meter;
- the SMS template editor;
- the route guard;
- the address, sign-up and profile schemas.

Runtime semantics are written out where they matter. These include Python's
`str.strip`, `int()`, `split` and `replace`, and ECMAScript's `trim`,
`parseInt`, `Set` and `join`. DRF's stripping of `CharField` input, with its
blank and null rules, is modelled too (order and cart-line notes, review
comments, SMS templates).

Gateway replies are inputs to the model. So are failing database writes, the
clock, and library checks such as Django's `validate_password` or zod's
`.email()`.

Money and weights are exact `real`s, as Python's `Decimal` keeps them. A unit price stored on an order line is rounded to whole cents, as its `decimal_places=2` column holds it (Pricing.RoundCents).

## Model

| member | source | states |
|---|---|---|
| Users.ErrorKeys | online-cake-shop/users/serializers.py:58-66 | each of the form's error keys is reported exactly when its field fails, in the serializer's field order; no key at all exactly when no field fails |
| Users.RegistrationErrors | online-cake-shop/users/serializers.py:42-66 | `password` fails exactly when blank or refused by the password validators, `password2` exactly when blank, `username` exactly when blank, longer than 150, malformed or already taken |
| Users.CheckRegistration | online-cake-shop/users/serializers.py:68-95 | a form is accepted exactly when no field fails and the two passwords agree; with clean fields and differing passwords the one error is under `password`; the created user has the stripped username and password, the stripped e-mail with its domain lower-cased, no points, no staff flag, "" for missing e-mail and names and no phone exactly when none was sent |
| Users.Accounts.Register | online-cake-shop/users/views.py:18-25 | a refused form returns exactly the serializer's errors and leaves the table alone; a user is created under the next id exactly when the form is accepted and its phone is not already stored by another user (the unique column); the stored e-mail is the sent one stripped, with its domain lower-cased |
| Users.NormalizeEmail | online-cake-shop/users/serializers.py:86-89 | The e-mail create_user stores keeps its length and its local part. The domain after the last '@' is lower-cased, and an address without '@' is kept as it is. |
| Users.NormalizeEmailIdempotent | online-cake-shop/users/serializers.py:86-89 | Normalising a stored e-mail again changes nothing. |
| Users.ProfileErrors | online-cake-shop/users/serializers.py:27-31 | only `first_name`, `last_name` and `phone` can ever be reported |
| Users.ApplyProfile | online-cake-shop/users/serializers.py:27-31 | only the three writable fields can change; a sent field takes its stripped value, an unsent one keeps the stored value, a null phone clears it |
| Users.ProfileUpdateKeepsRest | online-cake-shop/users/serializers.py:27-31 | a profile update never touches username, e-mail, points, staff flag or password |
| Users.Accounts.UpdateProfile | online-cake-shop/users/views.py:26-43 | field errors are returned as they are, and only they; with none, a new phone that is another user's fails on the unique column (a 500, its own reply) with nothing changed, and otherwise the update is saved, the user row being the applied update and nothing else changing |
| Users.SerializerFor | online-cake-shop/users/views.py:38-43 | the update serializer is chosen exactly for PUT and PATCH |
| Users.CheckPasswordChange | online-cake-shop/users/serializers.py:140-158 | a change is accepted exactly when all three fields are non-blank, the current password matches, the new passwords agree and the validators pass; a wrong current password is reported under `current_password`; differing new passwords give exactly the `confirm_password` error |
| Users.MismatchBeforeStrength | online-cake-shop/users/serializers.py:151-156 | a mismatch is reported whatever the password validators would say, since it is checked first |
| Users.Accounts.ChangePassword | online-cake-shop/users/views.py:110-125 | the reply is the serializer's verdict; on success only the user's password changes, on refusal nothing changes |
| Users.CitiesOf | online-cake-shop/users/views.py:50-58 | no `province_id` or an empty one gives no cities; a non-integer one makes the lookup fail; otherwise exactly the cities of that province |
| Users.Undefaulted | online-cake-shop/users/views.py:103 | clearing a user's flags keeps every row's id and every other column, leaves none of that user's rows default, does not touch other users' rows and keeps at most one default per user |
| Users.SetDefaultTable | online-cake-shop/users/views.py:96-109 | after clearing and saving, the chosen address is its user's only default, rows differ from before only in the flag, and other users' rows are untouched |
| Users.SaveAddressSound | online-cake-shop/users/models.py:84-97 | saving keeps at most one default address per user; a saved default is its user's only default; a non-default save changes no other row; other users' rows are never touched |
| Users.ResaveDefaultKeepsIt | online-cake-shop/users/models.py:84-97 | re-saving the current default address leaves the table as it was |
| Users.AddressBook.Save | online-cake-shop/users/models.py:84-97 | a new row gets the next unused id, an existing row keeps its id; the table afterwards is the one `Address.save` produces |
| Users.AddressBook.Create | online-cake-shop/users/views.py:87-92 | the new address gets a fresh id and belongs to the requester |
| Users.AddressBook.SetDefault | online-cake-shop/users/views.py:96-109 | it answers found exactly for the requester's own address (404 otherwise, nothing changed); then that address is the requester's only default, rows change only in the flag and other users' rows are untouched |
| Users.AddressBook.List | online-cake-shop/users/views.py:80-85 | exactly the requester's addresses, each once, defaults first and then by descending id |
| Users.AddressBook.NewestFirst | online-cake-shop/users/views.py:85 | exactly the requester's addresses with the given flag, in strictly descending id order |
| Locations.LocationTables.ProvinceNamed | online-cake-shop/users/migrations/0007_populate_locations.py:30-32 | the returned id names a province of that name; an existing name leaves the table alone, a new one is appended; names stay unique |
| Locations.LocationTables.CityNamed | online-cake-shop/users/migrations/0005_city_province_alter_address_city_city_province.py:29-32 | the lookup is by name alone: an existing city of that name is returned with the table unchanged, otherwise one is appended under the default province; city names stay distinct |
| Locations.LocationTables.CityIn | online-cake-shop/users/migrations/0007_populate_locations.py:35-38 | the lookup is by name and province: the returned row has both; an existing row leaves the table alone, otherwise exactly that row is appended |
| Locations.LocationTables.ForwardsFunc | online-cake-shop/users/migrations/0005_city_province_alter_address_city_city_province.py:7-35 | the "unknown" province exists afterwards (created at most once); existing cities are kept and every new city is filed under it; every address with a non-empty old city text points at a city of that name, every other address is untouched |
| Locations.LocationTables.LinkAddress | online-cake-shop/users/migrations/0005_city_province_alter_address_city_city_province.py:22-35 | one pass: only this address may change; with an old city text it is linked to a city of that name, without one it is untouched; new cities go under the default province |
| Locations.LinkedGrows | online-cake-shop/users/migrations/0005_city_province_alter_address_city_city_province.py:22-35 | a link made earlier still holds after later passes add cities |
| Locations.LocationTables.PopulateItem | online-cake-shop/users/migrations/0007_populate_locations.py:19-38 | one pass: both tables only grow, and after item i every stored item among the first i+1 has its province and its city under it, while every added row is named by one of those items |
| Locations.PopulateStep | online-cake-shop/users/migrations/0007_populate_locations.py:19-38 | storing or skipping item i carries coverage and provenance of the rows from the first i items to the first i+1 |
| Locations.ProvinceFromItemsGrows | online-cake-shop/users/migrations/0007_populate_locations.py:19-38 | a province named by one of the first n items is named by one of the first n+1 |
| Locations.CityFromItemsGrows | online-cake-shop/users/migrations/0007_populate_locations.py:19-38 | the same for cities |
| Locations.LocationTables.PopulateLocations | online-cake-shop/users/migrations/0007_populate_locations.py:19-38 | existing rows are kept; every item with a county code and both names has its stripped province and, under exactly that province, its stripped city; every added row comes from such an item |
| Catalog.EntryRow | online-cake-shop/products/serializers.py:221-223 | the created variant belongs to the cake and has the entry's size; a price modifier not sent defaults to 0 and the active flag to true |
| Catalog.CascadeKeepsUnique | online-cake-shop/products/models.py:217-219 | deleting cakes with their rows never breaks the (cake, size), (user, product) and (product, user) uniqueness constraints |
| Catalog.Matching | online-cake-shop/products/views.py:403 | exactly the stored cakes whose id is in the list |
| Catalog.ReviewCountAfterAdd | online-cake-shop/products/views.py:198-208 | a new review adds one to its cake's count and leaves every other cake's count as it was |
| Catalog.AddWishSound | online-cake-shop/products/views.py:292 | `get_or_create` puts exactly that product on exactly that user's list, keeps (user, product) unique, and adding the same pair again changes nothing |
| Catalog.RemoveWishSound | online-cake-shop/products/views.py:316-319 | removing takes exactly that product off exactly that user's list and keeps the table unique |
| Catalog.RemoveUndoesAdd | online-cake-shop/products/views.py:281-327 | removing a pair that was just added gives back the table as it was |
| Catalog.Pool | online-cake-shop/products/views.py:348-351 | the candidates are exactly the other active cakes of the same category |
| Catalog.VariantRowsShape | online-cake-shop/products/serializers.py:221-223 | the rows made from the entries take exactly the consecutive ids from the first free one, each built from the entry at its offset |
| Catalog.ImageRowsShape | online-cake-shop/products/serializers.py:254-256 | the same for gallery images, one per uploaded file |
| Catalog.NextImageRow | online-cake-shop/products/serializers.py:255-256 | storing the image of one more file extends the rows of the files before it |
| Catalog.AddVariantKeepsUnique | online-cake-shop/products/models.py:249-250 | a row whose cake does not yet offer its size keeps (cake, size) unique |
| Catalog.VariantRowsExtend | online-cake-shop/products/serializers.py:221-223 | storing one more entry extends the rows of the entries before it |
| Catalog.SizeNotYetOffered | online-cake-shop/products/models.py:249-250 | while storing distinct sizes for a cake, the next entry's size is not yet offered by that cake and its id is free |
| Catalog.NextVariantRow | online-cake-shop/products/serializers.py:275-278 | one more entry's row extends the stored rows and keeps (cake, size) unique |
| Catalog.NewCake | online-cake-shop/products/models.py:195-199 | a created cake's slug is derived from its name and it has no reviews yet |
| Catalog.CreateEntries | online-cake-shop/products/serializers.py:206-223 | the variant text fails exactly when it is sent and is not a JSON array of objects; the stored entries are those sent (an absent or blank text stores none) |
| Catalog.RemovalIds | online-cake-shop/products/serializers.py:241-242 | the removal list fails exactly when one of its non-empty ids is not an integer; otherwise every non-empty id's value is kept |
| Catalog.GalleryRemovalOnlyOwn | online-cake-shop/products/serializers.py:249-250 | removal deletes exactly the listed images of this cake: other cakes' images and this cake's unlisted images stay as they are |
| Catalog.Relinked | online-cake-shop/products/serializers.py:262-269 | tags and flavors are replaced exactly when sent and nothing else of the cake changes |
| Catalog.WithActive | online-cake-shop/products/views.py:448-450 | exactly the matched cakes get the new flag, with nothing else changed; no cake is added or removed |
| Catalog.Store.GetOrCreateTag | online-cake-shop/products/views.py:89 | the id returned names a tag of that name; an existing name leaves the tags alone, a new one is appended; names stay distinct |
| Catalog.Store.TagIds | online-cake-shop/products/views.py:79-97 | one id per name in order, naming a tag of that name; two ids are equal exactly when the names are; existing tags are kept and only these names are added |
| Catalog.Store.FindOrCreateTags | online-cake-shop/products/views.py:72-99 | accepted exactly when the names pass validation (otherwise the `names` error and no change); then one id per stripped name, naming that tag, equal exactly for equal names; old tags kept, only these names added |
| Catalog.Store.AddReview | online-cake-shop/products/views.py:184-208 | a rating outside 1..5 is a 400, a missing cake a 404, a second review by the same user a 400 (nothing changes); a valid rating for an existing cake the user has not reviewed is always created; then the review is stored under the next id with its comment stripped (null when left out), its cake's count goes up by one and stays equal to its number of reviews |
| Catalog.StoredComment | online-cake-shop/products/serializers.py:291-311 | A review comment left out is stored as null, a null one stays null, and text is stored stripped and never longer. |
| Catalog.Store.SetReviewCount | online-cake-shop/products/views.py:207-208 | only this cake's review count changes |
| Catalog.Store.CreateReview | online-cake-shop/products/views.py:198 | the review is stored under the next free id |
| Catalog.Store.AddToWishlist | online-cake-shop/products/views.py:281-302 | a missing or inactive cake answers 500 with no change; otherwise the pair is on the list afterwards, answering "exists" exactly when it already was and "created" exactly when it was not |
| Catalog.Store.RemoveFromWishlist | online-cake-shop/products/views.py:306-327 | a missing or inactive cake answers 500; otherwise the pair is removed, answering 204 exactly when it was there and 404 exactly when it was not |
| Catalog.Store.CreateWishlistItem | online-cake-shop/products/serializers.py:325-351 | a 400 exactly when the product does not exist; otherwise the pair is fetched or created, never duplicated, and its id returned |
| Catalog.Store.Suggested | online-cake-shop/products/views.py:330-359 | a 404 exactly unless the cake is active; [] without a category; otherwise min(4, pool) distinct cakes of the pool, newest first, and no unchosen candidate is newer than a chosen one |
| Catalog.Store.AddVariants | online-cake-shop/products/serializers.py:219-223 | one row per entry is stored, under consecutive new ids |
| Catalog.Store.StoreEntry | online-cake-shop/products/serializers.py:221-223 | one pass of the loop: the stored rows become those of one more entry |
| Catalog.Store.CreateVariant | online-cake-shop/products/serializers.py:223 | the row is stored under the next free id |
| Catalog.Store.CreateImage | online-cake-shop/products/serializers.py:256 | the row is stored under the next free id |
| Catalog.Store.AddImages | online-cake-shop/products/serializers.py:254-256 | one image row per uploaded file, under consecutive new ids |
| Catalog.Store.CreateCake | online-cake-shop/products/serializers.py:201-225 | the corrected create, with the non-column inputs popped: a 500 exactly when the variant text is malformed or an entry cannot be stored, and then nothing changes (atomic); otherwise the cake is stored under a new id with one variant per entry |
| Catalog.CreateValidatedKeys | online-cake-shop/products/serializers.py:170 | On a create, validated_data holds every sent field and also `remove_main_image`, whose default fills it in. |
| Catalog.CreateKwargsAsWritten | online-cake-shop/products/serializers.py:201-210 | The keywords reaching `Cake.objects.create` leave out the popped tags, flavors and variant text, and always include `remove_main_image`. |
| Catalog.CreateCakeAsWritten | online-cake-shop/products/serializers.py:201-210 | As written, every create ends in a 500, because a keyword that names no Cake column reaches the model. |
| Catalog.CreateKwargs | online-cake-shop/products/serializers.py:201-210 | The intended keywords: every sent column and nothing else, with no popped field and no non-column input. |
| Catalog.CreateCakeCrashes | online-cake-shop/products/serializers.py:170-210 | A create that sends only the name and category already fails as written. The intended keywords are exactly those two columns. |
| Catalog.Store.UpdateCake | online-cake-shop/products/serializers.py:227-282 | a missing cake is a 404; a 500 exactly when a removal id or the variant text is unreadable or unstorable, or when variants are sent and an order line holds one of the cake's variants (PROTECT), and then the atomic block leaves nothing changed; otherwise the listed images of this cake go, the uploaded ones come, tags and flavors are set when sent, and sent variants replace all the cake's variants |
| Catalog.Store.ReplaceGallery | online-cake-shop/products/serializers.py:248-256 | the listed images of the cake go and one image per new file comes |
| Catalog.Store.ReplaceVariants | online-cake-shop/products/serializers.py:271-278 | the delete refuses, changing nothing, exactly when an order line holds one of the cake's variants; otherwise the cake's variants are replaced by one row per entry |
| Catalog.Store.RollBack | online-cake-shop/products/serializers.py:227 | leaving the `transaction.atomic` block by an exception restores the cakes and images it changed, keeping the tables consistent |
| Catalog.Store.BulkDelete | online-cake-shop/products/views.py:378-416 | a missing or empty id list is a 400, an id that is not an integer a 400 or 500; a 500 with nothing deleted exactly when an order line holds a variant of a matched cake (PROTECT); otherwise the matched cakes go with all their variants, images, wishlist entries and reviews, answering 404 exactly when none matched |
| Catalog.Store.DeleteCakes | online-cake-shop/products/views.py:402-404 | the delete fails with nothing deleted exactly when an order line holds a variant of one of the cakes; otherwise the cakes and, by cascade, every row that belongs to one of them are deleted, and nothing else |
| Catalog.Store.DropOwned | online-cake-shop/products/views.py:402-404 | the images, wishlist entries and reviews of the deleted cakes go, and the cakes themselves |
| Catalog.Store.DropVariants | online-cake-shop/orders/models.py:243-250 | the cascade refuses, changing nothing, exactly when an order line holds one of the variants (on_delete=PROTECT); otherwise exactly the variants of the deleted cakes go, and the rest still belong to stored cakes |
| Catalog.Store.DropImages | online-cake-shop/products/models.py:348 | exactly the images of the deleted cakes go |
| Catalog.Store.DropWishes | online-cake-shop/products/models.py:209-214 | exactly the wishlist entries of the deleted cakes go |
| Catalog.Store.DropReviews | online-cake-shop/products/models.py:360 | exactly the reviews of the deleted cakes go |
| Catalog.Store.BulkSetActive | online-cake-shop/products/views.py:419-462 | a missing id list or a non-boolean `is_active` is a 400 with no change; unconvertible ids a 400 or 500; otherwise exactly the matched cakes get the flag, answering 404 exactly when none matched |
| CatalogRequests.RelaxedPk | online-cake-shop/products/serializers.py:43-50 | `incorrect_type` exactly when int() refuses the value; otherwise the row when that id exists, `does_not_exist` when it does not |
| CatalogRequests.RelaxedPkAcceptsText | online-cake-shop/products/serializers.py:43-50 | an existing id is accepted whether sent as a number or as its decimal text |
| CatalogRequests.AllFoundExactly | online-cake-shop/products/serializers.py:117-122 | the count check passes exactly when no id repeats and every id exists, and then yields exactly those ids |
| CatalogRequests.CommaSeparatedPksExactly | online-cake-shop/products/serializers.py:105-122 | a non-empty string is accepted exactly when every comma-separated token is an integer, no id repeats and every id exists; the result is then the set of those ids |
| CatalogRequests.CommaSeparatedPksRejectsRepeats | online-cake-shop/products/serializers.py:118-120 | a repeated id rejects the whole field, even though its row exists |
| CatalogRequests.Decimals | online-cake-shop/products/serializers.py:113 | one decimal token per id, in order |
| CatalogRequests.AsInts | online-cake-shop/products/serializers.py:113 | the same ids, as integers, in order |
| CatalogRequests.IntTokenDecimal | online-cake-shop/products/serializers.py:113 | `int(item.strip())` reads a decimal token back as its number |
| CatalogRequests.ParseDecimals | online-cake-shop/products/serializers.py:113 | every decimal token of a list reads back as its number |
| CatalogRequests.SplitDecimals | online-cake-shop/products/serializers.py:113 | splitting comma-joined decimal tokens gives the tokens back, and the joined text is never empty |
| CatalogRequests.CommaSeparatedPksAccepts | online-cake-shop/products/serializers.py:105-122 | tokens that parse to distinct existing ids are accepted as a whole |
| CatalogRequests.CommaSeparatedPksRoundTrip | online-cake-shop/products/serializers.py:105-122 | writing distinct existing ids as "1,2,3" and reading them back names exactly those rows |
| CatalogRequests.AsIntsKeeps | online-cake-shop/products/serializers.py:113 | converting keeps the ids distinct, existing and the same set |
| CatalogRequests.IntsOf | online-cake-shop/products/views.py:391-399 | all ids convert exactly when int() accepts each element, and then they are those values in order; otherwise the first refused element decides between the ValueError (400) and the uncaught TypeError |
| CatalogRequests.IdsPayload | online-cake-shop/products/views.py:383-389 | the payload is usable exactly when `ids` is sent as a non-empty list, and then it is that list |
| CatalogRequests.BulkIds | online-cake-shop/products/views.py:383-399 | a missing, empty or non-list `ids` is a 400; converted ids are as many as the list's elements |
| CatalogRequests.BulkIdsReadsNumbers | online-cake-shop/products/views.py:394 | an id list of numbers and numeric strings is read as those numbers |
| CatalogRequests.ValidateTagNames | online-cake-shop/products/serializers.py:133-138 | accepted exactly when every stripped name is non-blank and at most 100 characters, giving the stripped names in order; otherwise the error is keyed `names` |
| CatalogRequests.ValidatedTagNamesAreClean | online-cake-shop/products/views.py:82-86 | an accepted name is already stripped and non-blank, so the view's own skip never drops one |
| CatalogRequests.TopSellingLimit | online-cake-shop/products/views.py:108-112 | the limit is the parameter when it is a positive integer and 5 otherwise |
| CatalogRequests.SoldInOutside | online-cake-shop/products/views.py:129-136 | a cake not in the grouping has sold nothing |
| CatalogRequests.SoldInIgnoresOthers | online-cake-shop/products/views.py:121-131 | lines of other products, and lines of orders that are not processing, shipped or delivered, never change a cake's total |
| CatalogRequests.SumPerCake | online-cake-shop/products/views.py:129-136 | each cake with a counted line appears once, with the sum of the quantities of its counted lines |
| CatalogRequests.EarlierChoice | online-cake-shop/products/views.py:136-139 | in the chosen order, a cake chosen earlier is another cake with at least the same total |
| CatalogRequests.ExistingSellers | online-cake-shop/products/views.py:142-151 | exactly the chosen cakes that still exist, each with its total, once each, largest total first |
| CatalogRequests.TopSelling | online-cake-shop/products/views.py:106-157 | min(limit, sold cakes) distinct sold cakes are chosen and no unchosen cake sold more than a chosen one; the answer is exactly the chosen cakes that still exist, with their totals, largest first |
| Orders.CartsOf | online-cake-shop/orders/views.py:726-729 | The cart lookup finds exactly the requester's live orders in CART status: every id returned is such an order, and every such order is returned. |
| Orders.MatchingItems | online-cake-shop/orders/views.py:739-745 | The line lookup finds exactly the rows of this cart with the same product, flavor and size variant. |
| Orders.ItemIndex | online-cake-shop/orders/views.py:1440-1445 | Looking up a row by primary key gives a position holding that id, or none when no row has it. |
| Orders.Stored | online-cake-shop/orders/models.py:519-524 | A dispatch stores at most one Notification, and stores one exactly when it has a record with a user, since the user column is not nullable. |
| Orders.StatusAfter | online-cake-shop/orders/models.py:180-181 | Saving the status column changes only that order's status; every other order and every other column stay as they were. |
| Orders.SmsAfter | online-cake-shop/orders/models.py:169-204 | A change to the current status stores no notification. Otherwise at most one SMS notification is stored, for this order and with a user. |
| Orders.ChangeStatusIdempotent | online-cake-shop/orders/models.py:169-204 | Repeating a status change leaves the orders as they are and writes no log row and no notification. |
| Orders.ApplyCheckout | online-cake-shop/orders/serializers.py:332-368 | Checkout writes the address and delivery time. It writes the notes only when they were sent, and leaves every other column unchanged. |
| Orders.PayAnswer | online-cake-shop/orders/views.py:883-925 | A pay request answers with the payment URL exactly when the gateway accepted it; that URL is the start-pay URL followed by the authority. A refusal gives 400, a network error 503 and anything unexpected 500. |
| Orders.BulkSavedExactly | online-cake-shop/orders/views.py:380-386 | The bulk update saves and counts exactly the requested orders whose status differs and whose save goes through, each once. |
| Orders.BulkFailedExactly | online-cake-shop/orders/views.py:409-411 | `failed_ids` holds exactly the requested orders whose status differs and whose save raised, each once. |
| Orders.BulkOrders | online-cake-shop/orders/views.py:380-411 | The bulk update's pass keeps the number of orders. |
| Orders.BulkOrdersAt | online-cake-shop/orders/views.py:380-411 | After the bulk update, exactly the saved orders have the new status, and nothing else about any order changes. |
| Orders.BulkStep | online-cake-shop/orders/views.py:380-411 | Handling one more order adds it to the saved or the failed list as its save goes, sets its status only when saved, and adds only its own log rows. |
| Orders.BulkLogsAboutSaved | online-cake-shop/orders/views.py:388-394 | Every log row the bulk update leaves is about an order it saved, and records the new status. |
| Orders.BulkRepeatSavesOnlyFailures | online-cake-shop/orders/views.py:380-386 | Repeating a bulk update on its outcome saves only orders whose save failed the first time. |
| Orders.BulkRun | online-cake-shop/orders/views.py:361-411 | The loop's counter, failure list, orders and log rows are exactly those the pass defines. |
| Orders.Shop.UpdateTotalPrice | online-cake-shop/orders/models.py:120-141 | The order's total becomes the sum of quantity times unit price over its rows, and the shop invariant (every total equals its lines' sum) holds again. |
| Orders.UnitPriceInCents | online-cake-shop/orders/models.py:255-290 | The unit price a save stores is priced exactly when calculate_price returns, and is then in whole cents within half a cent of calculate_price. |
| Orders.MergeOutcome | online-cake-shop/orders/views.py:753-756 | With exactly one matching row, the addition's outcome is that row with the quantity added, saved in place at the catalog price, or a failure when it cannot be stored. |
| Orders.Shop.SaveItem | online-cake-shop/orders/models.py:252-290 | Saving a row stores the unit price recomputed from the catalog, never the caller's, rounded to whole cents, and recomputes its order's total. A per-kg cake without a usable weight raises, and so does the database for a quantity beyond the column's range; then nothing is stored. |
| Orders.Shop.CreateItem | online-cake-shop/orders/models.py:252-290 | A created row gets a fresh id and a catalog price, and its order's total follows. When pricing raises or the quantity is beyond the column's range, no row is created. |
| Orders.Shop.GetOrCreateCart | online-cake-shop/orders/views.py:726-729 | Finding the cart reuses the user's only cart. With none it creates one CART order, numbered `#BAKE-` and 2000 plus its id, and logged by the receiver. With two or more the lookup fails and nothing changes. It finds a cart exactly when the user has at most one, and that cart is `CartFor`'s. |
| Orders.Shop.MergeInto | online-cake-shop/orders/views.py:753-756 | A repeated addition adds the requested quantity to the existing row and saves it again at the catalog price, leaving every other row as it was; a row that cannot be stored gives a 500 with nothing changed. Only totals change on the orders. |
| Orders.Shop.NewLine | online-cake-shop/orders/views.py:739-750 | A first addition appends exactly one row holding the requested quantity, flavor, variant and notes at the catalog price; a row that cannot be stored gives a 500 with nothing changed. |
| Orders.Shop.AddItem | online-cake-shop/orders/views.py:739-756 | The reply and the item table are get_or_create's outcome (AddOutcome): with at most one matching row and a storable row the line is added, otherwise a 500 with nothing changed. The added line sits in the cart, which stays a live cart of the same user. |
| Orders.Shop.AddToUserCart | online-cake-shop/orders/views.py:726-756 | Two carts fail the request and change nothing. With at most one cart, the reply and item table are the addition's outcome on that cart or on the new one, so an addition whose row can be stored succeeds. An added line sits in one of the user's carts at a catalog price. |
| Orders.Shop.AddToCart | online-cake-shop/orders/views.py:716-760 | An invalid addition is refused with the serializer's error keys and changes nothing. A valid one, for a user with at most one cart, ends exactly as the addition's outcome says: the line in the user's cart at a catalog price with the other rows kept, or a 500 with nothing changed when the row cannot be priced or its quantity exceeds the column. |
| Orders.AddOutcomeSound | online-cake-shop/orders/views.py:739-756 | An addition goes through exactly when at most one row matches and the row to save can be stored. Then the line holds the requested quantity on top of what it held at a catalog price, exactly one row is appended when none matched and none otherwise, and every other row stays in place unchanged. |
| Orders.CartFor | online-cake-shop/orders/views.py:725-728 | For a user with at most one live cart, get_or_create settles on that cart, or on the next order id when there is none. |
| Orders.Shop.ChangeStatus | online-cake-shop/orders/models.py:169-204 | The corrected change_status. A change to the current status does nothing. Otherwise only the order's status changes, exactly one log row is written (the receiver's duplicate is dropped) and at most one notification is stored, and SMS failures never reach the caller. |
| Orders.Shop.CheckoutCart | online-cake-shop/orders/views.py:667-713 | The checkout with the corrected validation, which requires the address and the delivery time. Another user's order or a deleted one gives 404, and a non-cart gives 400; the serializer's errors give 400. In all three cases nothing changes. Success stores the checkout fields with stripped notes, sets PENDING_PAYMENT and logs one row through the receiver. |
| Orders.Shop.Pay | online-cake-shop/orders/views.py:799-925 | The checks run in the handler's order. A transaction exists exactly when all of them pass; it carries int(total × 10) rials and is settled by the gateway's answer. The order is never written. |
| Orders.Shop.Callback | online-cake-shop/orders/views.py:1229-1409 | Missing parameters redirect to the failure page and change nothing. A callback with no single pending transaction changes nothing and gets the corrected replay answer: the success page of an order that already paid, else the failure page. Otherwise that transaction is settled, and the order follows through the corrected change_status, except on the configuration error, which does a bare save. |
| Orders.Shop.ApplySettlement | online-cake-shop/orders/views.py:1288-1406 | After a gateway answer the order moves to the settled status through the corrected change_status, with one log row and its SMS. After the configuration error only the status is saved, with no log row and no SMS. |
| Orders.Shop.BulkPass | online-cake-shop/orders/views.py:380-411 | The pass leaves exactly the saved orders with the new status, the count and failure list the pass defines, and one log row set per saved order. |
| Orders.Shop.BulkUpdateStatus | online-cake-shop/orders/views.py:336-426 | A non-list or empty `order_ids`, a missing or unknown status, or any id that is not a live order gives 400 with nothing changed. Otherwise only the requested orders whose status differs are saved and counted, and failed saves go to `failed_ids`, which makes the reply 207. |
| Orders.Shop.UpdateCartItem | online-cake-shop/orders/views.py:1429-1463 | A row outside the requester's cart gives 404, and a quantity of 0 or less or beyond the column's range gives 400, both with nothing changed. A valid edit of a cart row succeeds exactly when the edited row can be priced, and a 500 changes nothing. On success the row takes the sent quantity and stripped notes at the catalog price, and its order's total follows. |
| Orders.Shop.EditedItem | online-cake-shop/orders/serializers.py:370-374 | The edited cart row keeps its identity and product. A positive sent quantity replaces the old one, and sent notes replace the old ones stripped; a field left out keeps its value. |
| Orders.Shop.DestroyCartItem | online-cake-shop/orders/views.py:1465-1477 | A row outside the requester's cart gives 404. Otherwise the row is deleted and its order's total drops by exactly that line's quantity times price. |
| Orders.Shop.RemoveItem | online-cake-shop/orders/views.py:1469-1471 | Deleting a row removes only it, and its order's sum of lines drops by exactly that line. |
| Orders.Shop.UpdateSmsTemplate | online-cake-shop/orders/serializers.py:479-516 | An unknown template gives 404. The update succeeds exactly when a sent `event_trigger` is valid and the sent fields pass. Otherwise it gives 400 with every failing key, `event_trigger` first, and nothing changes. On success the template takes the stripped sent fields and keeps the rest. |
| OrderModel.ParseStatus | online-cake-shop/orders/models.py:24-31 | A key is read as a status only when it is that status's stored value. |
| OrderModel.ParseStatusKey | online-cake-shop/orders/models.py:24-31 | Every status's key reads back as that status, so the seven keys are pairwise distinct. |
| OrderModel.StatusDisplay | online-cake-shop/orders/serializers.py:246-249 | The status-log display is the choice label for a known key and the raw key otherwise. |
| OrderModel.NewCart | online-cake-shop/orders/views.py:726-729 | A cart made by get_or_create belongs to the user, is in CART status with a zero total and no number, and is not deleted. |
| OrderModel.OrderNumbersDistinct | online-cake-shop/orders/models.py:160-165 | Orders with different ids get different `#BAKE-` numbers. |
| OrderModel.NumberAfterSave | online-cake-shop/orders/models.py:147-168 | A new order without a number gets `#BAKE-` followed by 2000 plus its id. An existing order, or one that already has a number, keeps what it has. |
| OrderModel.NumberAssignedOnce | online-cake-shop/orders/models.py:147-168 | After its first save assigns a number, no later save renumbers an order. |
| OrderModel.LinesOf | online-cake-shop/orders/models.py:124 | An order has no more lines than the table has rows. |
| OrderModel.LinesOfAppendOther | online-cake-shop/orders/models.py:124-132 | A new row adds a line to its own order's total only. |
| OrderModel.LinesOfOtherRows | online-cake-shop/orders/models.py:124-132 | Rows of other orders do not affect an order's total. |
| OrderModel.LinesOfConcat | online-cake-shop/orders/models.py:124-132 | The lines of two tables together are the lines of each, in order. |
| OrderModel.LinesOfNone | online-cake-shop/orders/models.py:127-132 | An order with no rows has no lines, so its total is 0. |
| OrderModel.LinesOfRemoveOther | online-cake-shop/orders/models.py:124-132 | Deleting a row of another order leaves this order's lines as they were. |
| OrderModel.RemoveLineTotal | online-cake-shop/orders/models.py:127-132 | Deleting one row takes exactly its quantity times unit price off its order's sum. |
| OrderModel.SignalLogs | online-cake-shop/orders/signals.py:11-50 | Fixture loads never log. A creation, or a save whose `update_fields` contain 'status', logs one row with the instance's status and no author. Any other save, including a full save that hits the missing tracker, logs nothing. |
| OrderModel.ChangeStatusLogsTwice | online-cake-shop/orders/models.py:180-193 | With the receiver connected, one real status change writes two log rows; the first has no author and no note. |
| OrderModel.ChangeStatusLogsAsWritten | online-cake-shop/orders/models.py:174-193 | As written, a same-status call writes no row. A real change writes two rows with the receiver connected and one without. The last row carries the caller's author and note, and the receiver's first row has neither. |
| OrderModel.ChangeStatusLogs | online-cake-shop/orders/models.py:174-193 | A same-status call writes no row. A real change writes one row with the new status and the caller's author, noted with the caller's notes or, when they are empty, the default "from … to …" note. |
| OrderModel.ChangeStatusLogsDropDuplicate | online-cake-shop/orders/models.py:180-193 | The intended rows are the as-written rows without the receiver's extra one, and the two agree when the receiver is not connected. |
| OrderSerializers.AddFieldErrors | online-cake-shop/orders/serializers.py:155-173 | The add-to-cart fields pass exactly when the product type is 'cake' or 'partysupply', the quantity is at least 1, and any flavor or size variant sent exists. |
| OrderSerializers.ValidateAddToCart | online-cake-shop/orders/serializers.py:173-215 | An addition is accepted exactly when the fields pass and the product exists and is active; for a cake, a chosen flavor must be one it offers and a chosen variant must be its own. The accepted addition carries the requested product, quantity and options, and the notes stripped (null stays null). |
| Text.StripNullable | online-cake-shop/orders/serializers.py:173 | A nullable CharField keeps null as null. Text is stripped: it is never longer, has no white space at either end, and is empty exactly when it was all white space. |
| Text.StripNullableIdempotent | online-cake-shop/orders/serializers.py:173 | Stripping text that was already stripped changes nothing. |
| Text.StripNullableField | online-cake-shop/orders/serializers.py:343 | In a partial payload, a field left out stays left out, and a sent one is stripped. |
| OrderSerializers.SupplyOptionsUnchecked | online-cake-shop/orders/serializers.py:199-214 | For a party supply only the field checks and the product row decide; its flavor and variant are not checked against it. |
| OrderSerializers.ForeignVariantRefused | online-cake-shop/orders/serializers.py:210-214 | A cake with another cake's size variant is refused with the single error key "size_variant". |
| OrderSerializers.ValidateCartQuantity | online-cake-shop/orders/serializers.py:370-383 | A cart quantity passes exactly when it is positive and at most 2147483647, the range the `PositiveIntegerField` column gives the ModelSerializer field; otherwise the error is keyed "quantity". |
| OrderSerializers.OrderAddressCheck | online-cake-shop/orders/serializers.py:315-326 | The address is accepted exactly when the request comes from its owner. An anonymous request gets "Authentication required.", and a missing request context raises. |
| OrderSerializers.CheckoutAddressCheck | online-cake-shop/orders/serializers.py:351-360 | The address is accepted exactly when the request comes from its owner. A missing context is a validation error, never a raise. |
| OrderSerializers.AddressChecksAgree | online-cake-shop/orders/serializers.py:315-360 | The two ownership checks accept exactly the same requests. |
| OrderSerializers.CheckoutAsWritten | online-cake-shop/orders/views.py:689-694 | With partial=True the checkout passes exactly when no field that was sent is wrong. The patch then sets an address, always the requester's own, exactly when one was sent, sets a delivery time exactly when one was sent, and carries the sent notes stripped. |
| OrderSerializers.EmptyCheckoutAccepted | online-cake-shop/orders/views.py:689-707 | An empty checkout body passes as written, with no address and no delivery time. |
| OrderSerializers.Checkout | online-cake-shop/orders/serializers.py:332-360 | The checkout passes exactly when `address_id` names an address of the requester and `delivery_datetime` is given. The patch then carries those values and the sent notes stripped. |
| OrderSerializers.CheckoutRefinesAsWritten | online-cake-shop/orders/serializers.py:332-360 | Whatever the required-field check accepts, the as-written check accepts with the same patch. |
| OrderSerializers.ValidateEventTrigger | online-cake-shop/orders/serializers.py:495-507 | `event_trigger` passes exactly when it is one of the event keys and no other template holds it. |
| OrderSerializers.ApplyTemplatePatch | online-cake-shop/orders/serializers.py:508-516 | Each of is_active, message_template and description takes the sent value, or keeps its old one when absent. |
| OrderSerializers.TemplatePatchIdempotent | online-cake-shop/orders/serializers.py:508-516 | An empty patch changes nothing, and applying a patch twice is applying it once. |
| OrderSerializers.ValidateTemplatePatch | online-cake-shop/orders/models.py:591-596 | A template patch passes exactly when a sent message is not all white space and a sent description has at most 255 characters once stripped. An all-white-space message is reported under `message_template`. An accepted patch carries the sent fields stripped, with a non-empty message and null kept as null. |
| OrderSerializers.ValidatedPatchStable | online-cake-shop/orders/models.py:591-596 | A validated patch validates again to itself. |
| Pricing.Max0 | online-cake-shop/orders/models.py:276 | `max(price, 0)` is never negative, never below the price, and is either the price or 0. |
| Pricing.LineWeight | online-cake-shop/orders/models.py:268 | The weight used for pricing is the variant's override when it is set and non-zero, since `or` skips a zero, and the size's weight otherwise. |
| Pricing.CalculatePrice | online-cake-shop/orders/models.py:258-283 | calculate_price raises, naming the size, exactly for a per-kg cake with a variant whose weight is missing or not positive. Otherwise a cake's price is never negative, a party supply's is its price, and any other product prices at 0. |
| Pricing.RoundCents | online-cake-shop/orders/models.py:255 | The amount a two-decimal column stores is a whole number of cents within half a cent of the exact amount, never negative for a non-negative amount. |
| Pricing.RoundCentsKeepsCents | online-cake-shop/orders/models.py:255 | An amount already in whole cents is stored unchanged. |
| Pricing.InCents | online-cake-shop/orders/models.py:255 | Storing a price keeps whether calculate_price returned or raised, and a stored price is in whole cents. |
| Pricing.FixedCakeCostsFinalPrice | online-cake-shop/orders/models.py:264-276 | A cake not priced per kg costs its variant's final_price, floored at zero. |
| Pricing.CakeWithoutVariant | online-cake-shop/orders/models.py:264-276 | A cake without a size variant costs its base price, floored at zero, whatever its price type. |
| Pricing.PerKgCakeCost | online-cake-shop/orders/models.py:266-276 | A per-kg cake with a non-zero override costs base price times final_weight plus the modifier, floored at zero. Without a usable weight it gets no price at all. |
| Pricing.ZeroOverrideReadings | online-cake-shop/orders/models.py:268 | With an override of 0 kg, final_weight reports 0 while the line is priced with the size's weight. |
| Pricing.PerKgMonotone | online-cake-shop/orders/models.py:266-276 | With a non-negative base price, a heavier per-kg cake never costs less. |
| Pricing.TotalAppend | online-cake-shop/orders/models.py:127-132 | A new line adds exactly its quantity times unit price to the sum. |
| Pricing.TotalConcat | online-cake-shop/orders/models.py:127-132 | The sum of two groups of lines is the sum of the two sums. |
| Pricing.TotalSwap | online-cake-shop/orders/models.py:127-132 | The stored total does not depend on the order in which the rows are read. |
| Pricing.TotalNonNegative | online-cake-shop/orders/models.py:127-132 | Lines priced at zero or more never sum to a negative total. |
| ProductsModel.NewSize | online-cake-shop/products/models.py:51-66 | A new size has no weight, a price modifier of 0 and is active. |
| ProductsModel.NewVariant | online-cake-shop/products/models.py:226-245 | A new variant has a price modifier of 0, no weight override and is active for its cake. |
| ProductsModel.FinalWeight | online-cake-shop/products/models.py:265-267 | final_weight is the override whenever it is set, zero included, and the size's estimated weight otherwise. |
| ProductsModel.FinalPriceAboveBase | online-cake-shop/products/models.py:258-263 | A variant costs more than its cake's base price exactly when its modifier is positive, and the same exactly when the modifier is 0. |
| ProductsModel.SlugOnSave | online-cake-shop/products/models.py:195-199 | A save keeps a slug that is already set and fills an empty one from the slugified name. Category.save at lines 31-35 does the same. |
| ProductsModel.SlugOnSaveStable | online-cake-shop/products/models.py:195-199 | Once a save has settled a non-empty slug, later saves keep it even after the name changes. |
| SmsService.ParseTrigger | online-cake-shop/orders/models.py:574-582 | A key is read as an event trigger only when it is that trigger's stored value. |
| SmsService.ParseTriggerKey | online-cake-shop/orders/models.py:574-582 | Every trigger's key reads back as that trigger, so the choice values are distinct. |
| SmsService.CustomerName | online-cake-shop/orders/sms_service.py:19-21 | `customer_name` is the user's full name, else the username, else "مشتری گرامی" for an order without a user. |
| SmsService.TrackingText | online-cake-shop/orders/sms_service.py:24 | `tracking_number` is the tracking code, or "ثبت نشده" when there is none. |
| SmsService.ReplaceEachPlain | online-cake-shop/orders/sms_service.py:38-41 | The replacement loop leaves text without a `{{` exactly as written. |
| SmsService.FormatPlainTemplate | online-cake-shop/orders/sms_service.py:15-41 | A template without placeholders is sent unchanged. |
| SmsService.FormatOrderId | online-cake-shop/orders/sms_service.py:25-41 | `{{order_id}}` renders as the order's id in decimal, and no later placeholder disturbs it. |
| SmsService.ActiveTemplate | online-cake-shop/orders/sms_service.py:51-56 | A template is found exactly when the key is an event trigger whose template exists and is active. |
| SmsService.StripLeadingZeros | online-cake-shop/orders/sms_service.py:109 | The posted number is the recipient's phone with every leading '0' removed and nothing else changed. |
| SmsService.SendOrderStatusSms | online-cake-shop/orders/sms_service.py:44-179 | Without an active template nothing is recorded or sent. Every other exit records one SMS Notification with the rendered text. No phone, or an incomplete configuration, gives a FAILED row and no send. Otherwise the number is posted without leading zeros, and the row is SENT and the call succeeds exactly when the gateway's status is '1'. |
| Zarinpal.ToRial | online-cake-shop/orders/views.py:836 | `int(total * 10)` is the largest whole number of rials not above ten times the toman total. |
| Zarinpal.ToRialMonotone | online-cake-shop/orders/views.py:836 | A larger total never converts to fewer rials. |
| Zarinpal.ToRialWhole | online-cake-shop/orders/views.py:836 | A whole-toman total converts to exactly ten rials per toman. |
| Zarinpal.PayFailureResponse | online-cake-shop/orders/views.py:901-925 | A failure text is left on the transaction exactly when the gateway did not accept the payment. |
| Zarinpal.AfterPayReply | online-cake-shop/orders/views.py:891-925 | On code 100 the transaction stores the authority. Any other code, network error or parse error marks it FAILED with a gateway response. Its order, amount and ref_id never change. |
| Zarinpal.Settle | online-cake-shop/orders/views.py:1280-1409 | A callback pays the order exactly when Status is 'OK', verification is configured and the gateway answers 100 or 101. Then the transaction is SUCCESS and the order PROCESSING; otherwise they are FAILED and PAYMENT_FAILED. Only the configuration error bypasses change_status. |
| Zarinpal.AlreadyVerifiedSettlesLikeVerified | online-cake-shop/orders/views.py:1339-1355 | Because the transaction found is still PENDING, code 101 settles it exactly as 100 does, and keeps the stored ref_id when the gateway sends none. |
| Zarinpal.SettledIsFinal | online-cake-shop/orders/views.py:1250-1254 | A settled transaction is never left PENDING, so a second callback finds nothing to settle. |
| Zarinpal.SuccessAndFailureDiffer | online-cake-shop/orders/views.py:1256-1267 | The success page and the failure page of any two orders are different addresses. |
| Zarinpal.PendingWith | online-cake-shop/orders/views.py:1250-1254 | The lookup finds exactly the PENDING transactions carrying the authority. |
| Zarinpal.LookupPending | online-cake-shop/orders/views.py:1250-1254 | A single result is a PENDING transaction with the authority, and "none" means there is no such transaction. |
| Zarinpal.SucceededWith | online-cake-shop/orders/views.py:1264 | It finds a SUCCESS transaction with the authority, or reports that there is none. |
| Zarinpal.ReplayCrashes | online-cake-shop/orders/views.py:1260-1271 | A replayed callback for a payment that already succeeded reads `order` and the failure address before either is assigned, and ends in an error. |
| Zarinpal.ReplayRedirect | online-cake-shop/orders/views.py:1260-1271 | The intended replay answer: the success page of the order that already paid, else the generic failure page. |
| Zarinpal.ReplayRedirectAsWritten | online-cake-shop/orders/views.py:1260-1276 | As written, no failed lookup ever redirects: with several pending rows, with an earlier success and without one, the code reads a name that was never assigned. |
| Shamsi.MonthLength | online-cake-shop/orders/views.py:185-190 | A month has 31 days for months 1–6 and 30 for months 7–11. Esfand has 30 in a leap year and 29 otherwise. |
| Shamsi.YearLength | online-cake-shop/orders/views.py:185-190 | The twelve month lengths make a year of 365 days, or 366 in a leap year. |
| Shamsi.PreviousMonth | online-cake-shop/orders/views.py:200-205 | The month before month 1 is month 12 of the previous year; otherwise it is the previous month of the same year. |
| Shamsi.PreviousNextInverse | online-cake-shop/orders/views.py:200-205 | Stepping a month back and forward again returns to the same month, and so does the reverse. |
| Shamsi.MonthBounds | online-cake-shop/orders/views.py:182-192 | The filter's bounds run from day 1 to the month's last day. |
| Shamsi.WithinBoundsIffSameMonth | online-cake-shop/orders/views.py:194-195 | A valid date passes the month filter exactly when it lies in that month. |
| Shamsi.ThisMonthRange | online-cake-shop/orders/views.py:180-195 | The "this month" filter covers the current Shamsi month. |
| Shamsi.LastMonthRange | online-cake-shop/orders/views.py:197-221 | The "last month" filter covers Esfand of the previous year in Farvardin, and otherwise the previous month of this year. |
| Shamsi.LastMonthAdjoinsThisMonth | online-cake-shop/orders/views.py:197-221 | The last-month range ends on the last day of the previous month, the day before this month's range starts. |
| Slugs.Keep | frontend-cake-shop/src/components/admin/products/form/ProductGeneralInfoSection.tsx:32 | Removing the disallowed characters keeps only allowed characters of the input, and leaves text that is all allowed unchanged. |
| Slugs.CollapseRuns | frontend-cake-shop/src/components/admin/products/form/ProductGeneralInfoSection.tsx:31-33 | Each maximal run becomes one separator and every other character is kept. The result is empty exactly when the input is, and never holds two separators side by side. |
| Slugs.CollapseNoRun | frontend-cake-shop/src/components/admin/products/form/ProductGeneralInfoSection.tsx:31 | Text with no white space comes out of the white-space replacement unchanged. |
| Slugs.CollapseSingles | frontend-cake-shop/src/components/admin/products/form/ProductGeneralInfoSection.tsx:33 | Text with no two dashes side by side comes out of the dash-run replacement unchanged. |
| Slugs.StripDashes | frontend-cake-shop/src/components/admin/products/form/ProductGeneralInfoSection.tsx:34 | Removing the edge dashes leaves no dash at either edge, and keeps a string that has none. |
| Slugs.ProductSlugShaped | frontend-cake-shop/src/components/admin/products/form/ProductGeneralInfoSection.tsx:29-34 | A generated product slug is empty or matches `^[a-z0-9]+(?:-[a-z0-9]+)*$`: only [a-z0-9-], no "--" and no edge dash. |
| Slugs.CategorySlugShaped | frontend-cake-shop/src/pages/admin/products/AdminCategoryForm.tsx:163-181 | A generated category slug is empty or matches the form's slug pattern. |
| Slugs.ProductSlugFixed | frontend-cake-shop/src/components/admin/products/form/ProductGeneralInfoSection.tsx:29-34 | A string that already has the slug shape is its own product slug. |
| Slugs.ProductSlugIdempotent | frontend-cake-shop/src/components/admin/products/form/ProductGeneralInfoSection.tsx:29-34 | Generating the product slug from a generated slug gives the same slug. |
| Slugs.CategorySlugEmptyWithoutLatin | frontend-cake-shop/src/pages/admin/products/AdminCategoryForm.tsx:163-176 | A name without Latin letters or digits gives the empty category slug. |
| Slugs.CategorySlugField | frontend-cake-shop/src/pages/admin/products/AdminCategoryForm.tsx:161-186 | Without a name the slug field keeps its value. With one it is overwritten by the generated slug, which is empty or well shaped. |
| Slugs.ProductSlugField | frontend-cake-shop/src/components/admin/products/form/ProductGeneralInfoSection.tsx:27-37 | An empty name leaves the slug field unchanged. Otherwise the field gets a slug that is empty or well shaped and is its own slug. |
| Slugs.PersianCategoryNameGivesEmptySlug | frontend-cake-shop/src/pages/admin/products/AdminCategoryForm.tsx:161-186 | The category name "کیک" overwrites the slug field with the empty string. |
| Text.TrimEdges | online-cake-shop/products/views.py:82 | `strip()` leaves no white space at either edge and never lengthens the text. |
| Text.TrimEmptyIff | online-cake-shop/products/views.py:82-86 | A name strips to nothing exactly when it is all white space, which is when the tag loop skips it. |
| Text.TrimFixed | online-cake-shop/products/views.py:82 | Text with no white space at its edges is its own stripped form. |
| Text.ToLower | frontend-cake-shop/src/components/admin/products/form/ProductGeneralInfoSection.tsx:30 | Lower-casing keeps the length and maps each character on its own. |
| Text.NatToString | online-cake-shop/orders/sms_service.py:25 | `str(n)` is a non-empty run of ASCII digits without a leading zero, except for 0 itself. |
| Text.NatToStringRoundTrip | online-cake-shop/orders/sms_service.py:25 | Reading the decimal text of a number back gives the number. |
| Text.NatToStringInjective | online-cake-shop/orders/sms_service.py:25 | Different numbers print differently. |
| Text.PyIntNatToString | online-cake-shop/products/serializers.py:113 | `int()` reads back what `str()` wrote for a non-negative number. |
| Text.TruncToInt | online-cake-shop/orders/sms_service.py:26 | `int()` of a decimal truncates toward zero. |
| Text.Split | online-cake-shop/products/serializers.py:113 | `split(',')` gives at least one piece, and no piece contains a comma. |
| Text.JoinSplit | online-cake-shop/products/serializers.py:113 | Joining the pieces of a split with the separator gives back the original text. |
| Text.SplitJoin | online-cake-shop/products/serializers.py:113 | Splitting a join of comma-free pieces gives back those pieces. |
| Text.ReplaceIsSplitJoin | online-cake-shop/orders/sms_service.py:39-40 | `replace` substitutes every non-overlapping occurrence and keeps the text between occurrences. |
| Text.ReplaceBySelf | online-cake-shop/orders/sms_service.py:39-40 | Replacing a pattern by itself changes nothing. |
| Text.SplitOnJoin | online-cake-shop/orders/sms_service.py:39-40 | The pieces between occurrences, glued back with the pattern, give the original text. |
| Text.ReplaceAbsent | online-cake-shop/orders/sms_service.py:39-40 | Text that does not contain the pattern is left exactly as it is. |
| Text.ReplaceAtStart | online-cake-shop/orders/sms_service.py:39-40 | An occurrence at the very start is replaced. |
| RouteGuard.SessionOf | frontend-cake-shop/src/contexts/AuthContext.tsx:33-37 | A visitor is signed in exactly when both the user and the access token are known, and is an admin exactly when that user is staff. |
| RouteGuard.Decide | frontend-cake-shop/src/router/ProtectedRoute.tsx:11-57 | While loading the guard always shows the spinner. A visitor without a session goes to /admin/login on admin routes and to /login otherwise, carrying the current location. A signed-in non-admin on an admin route goes to "/". The page renders exactly in the remaining cases. |
| RouteGuard.AdminPagesNeedStaff | frontend-cake-shop/src/router/ProtectedRoute.tsx:37-56 | An admin page renders only for a loaded session of a staff user with a token, and its redirects go only to /admin/login or "/". |
| RouteGuard.CustomerPageAfterLogin | frontend-cake-shop/src/router/ProtectedRoute.tsx:37-56 | Once loaded, a customer page renders exactly for a signed-in visitor, whatever the staff flag; any other visitor goes to /login with the page to return to. |
| RouteGuard.AdminOnlyIsStricter | frontend-cake-shop/src/router/ProtectedRoute.tsx:26-56 | Marking a route admin-only never lets more visitors in, and never changes when the spinner shows. |
| AddressSchema.FieldsListed | frontend-cake-shop/src/schemas/addressSchema.ts:3-13 | Every ruled field of the schema is checked, and each once. |
| AddressSchema.AddressIssues | frontend-cake-shop/src/schemas/addressSchema.ts:5-11 | The reported paths are exactly the fields whose rule fails, each once. |
| AddressSchema.NoIssuesIff | frontend-cake-shop/src/schemas/addressSchema.ts:5-11 | No path is reported exactly when the title has at least 2 characters, the recipient at least 3, province and city are non-empty, the street has at least 5, the postal code is 10 digits and the phone matches `^09\d{9}$`. |
| AddressSchema.ParseAddress | frontend-cake-shop/src/schemas/addressSchema.ts:3-13 | The form parses exactly when every rule holds. The data then keeps every typed value, province and city included, and sets `is_default` to false unless it was checked; otherwise the failing paths are reported. |
| AddressSchema.MobileShape | frontend-cake-shop/src/schemas/addressSchema.ts:11 | `^09\d{9}$` accepts exactly the eleven-digit strings that start "09". |
| AddressSchema.AcceptedAddressFitsColumns | frontend-cake-shop/src/schemas/addressSchema.ts:6-11 | An accepted address has digit-only postal code and phone that fit the back end's 20-character columns, and a non-empty recipient. |
| RegisterSchema.FailingFields | frontend-cake-shop/src/schemas/registerSchema.ts:3-13 | The failing fields are exactly those whose rule refuses their value. |
| RegisterSchema.NoFailingIff | frontend-cake-shop/src/schemas/registerSchema.ts:3-13 | No field fails exactly when the username has at least 3 characters, both names at least 2, the e-mail is well formed, the password has at least 8 and terms is true. |
| RegisterSchema.RegisterIssues | frontend-cake-shop/src/schemas/registerSchema.ts:3-17 | No issue is reported exactly when every field rule holds and the two passwords agree. A mismatch is reported under the refinement's path. |
| RegisterSchema.RegisterIssuesAsWritten | frontend-cake-shop/src/schemas/registerSchema.ts:14-17 | As written, the form is accepted exactly when all rules hold, and a mismatch is reported under `confirm_password`. |
| RegisterSchema.RegisterIssuesCorrected | frontend-cake-shop/src/schemas/registerSchema.ts:14-17 | Corrected, the mismatch is reported under `password2`, and every reported path is one the form shows. |
| RegisterSchema.MismatchMessageHidden | frontend-cake-shop/src/components/auth/RegisterForm.tsx:53-57 | A form whose only fault is a mistyped confirmation is refused, with its single issue under a path the form never shows. |
| RegisterSchema.Submitted | frontend-cake-shop/src/services/api.ts:444-447 | The sign-up request carries the typed username and both passwords, and carries a phone exactly when one was entered. |
| RegisterSchema.AcceptedFormPassesMismatchCheck | online-cake-shop/users/serializers.py:68-75 | A form the schema accepts is registered exactly when the serializer's field checks pass; the back end's mismatch refusal never fires. |
| ProfileSchemas.ProfileIssues | frontend-cake-shop/src/schemas/userProfileSchemas.ts:4-9 | A name field is reported exactly when it has fewer than 2 characters. |
| ProfileSchemas.OptionalFieldsNeverRefused | frontend-cake-shop/src/schemas/userProfileSchemas.ts:7-8 | Whatever is typed as phone or birth date, the verdict does not change. |
| ProfileSchemas.PasswordIssues | frontend-cake-shop/src/schemas/userProfileSchemas.ts:12-19 | The current password is reported exactly when empty, the new one exactly when shorter than 8, and `confirm_password` exactly when the two new passwords differ. |
| ProfileSchemas.AcceptedChangeMeetsBackEnd | online-cake-shop/users/serializers.py:140-158 | For a form the schema accepts, with non-blank passwords, the change goes through exactly when the current password is right and the new one passes the rules, and never fails on a mismatch. |
| HeroSlider.Next | frontend-cake-shop/src/components/Home/HeroSlider.tsx:62-66 | Next wraps from the last slide to 0, and keeps a valid index within the slides. |
| HeroSlider.Prev | frontend-cake-shop/src/components/Home/HeroSlider.tsx:68-72 | Previous wraps from 0 to the last slide, and keeps a valid index within the slides. |
| HeroSlider.GoTo | frontend-cake-shop/src/components/Home/HeroSlider.tsx:74-76 | A dot makes its own index the current slide. |
| HeroSlider.PrevNextInverse | frontend-cake-shop/src/components/Home/HeroSlider.tsx:62-72 | Previous undoes next and next undoes previous, on every slide. |
| HeroSlider.NextTimesIsRotation | frontend-cake-shop/src/components/Home/HeroSlider.tsx:62-66 | Pressing next k times, up to a full turn, moves k slides on and wraps past the last one. |
| HeroSlider.FullTurn | frontend-cake-shop/src/components/Home/HeroSlider.tsx:62-66 | As many presses of next as there are slides return to the same slide. |
| JsSets.Dedup | frontend-cake-shop/src/pages/PartySuppliesPage.tsx:92-94 | `Array.from(new Set(xs))` holds each element of the list once, and gives back a list that has no repeats. |
| JsSets.Without | frontend-cake-shop/src/components/admin/products/TagInput.tsx:32 | Deleting an element drops every copy of it and nothing else, and keeps a repeat-free list repeat-free. |
| JsSets.WithoutKeepsOrder | frontend-cake-shop/src/components/admin/products/TagInput.tsx:32 | What is left is the list with exactly the copies of the element taken out: a subsequence of it, with every other element as often as before. |
| JsSets.WithoutLast | frontend-cake-shop/src/components/admin/products/TagInput.tsx:24-32 | Removing an element that was just appended gives back the list before it. |
| JsSets.Toggle | frontend-cake-shop/src/pages/PartySuppliesPage.tsx:91-99 | Toggling adds an absent element at the end or removes a present one, and leaves every other element's membership unchanged. |
| JsSets.ToggleTwice | frontend-cake-shop/src/pages/PartySuppliesPage.tsx:91-99 | Toggling the same element twice restores the set. For an absent element and a list without repeats, it restores the list exactly. |
| QuantityInput.LeadingDigits | frontend-cake-shop/src/components/Products/QuantityInput.tsx:24 | parseInt reads exactly the run of digits at the start of the text. |
| QuantityInput.DecimalValueOfNatToString | frontend-cake-shop/src/components/Products/QuantityInput.tsx:24 | The digits of a number read back as that number. |
| QuantityInput.Decrement | frontend-cake-shop/src/components/Products/QuantityInput.tsx:13-17 | The minus button emits one less exactly when the quantity is above 1, so it never emits less than 1. |
| QuantityInput.Increment | frontend-cake-shop/src/components/Products/QuantityInput.tsx:19-21 | The plus button emits a larger quantity, and the minus button then brings it back (QuantityStaysPositive), so the step is exactly one. |
| QuantityInput.Typed | frontend-cake-shop/src/components/Products/QuantityInput.tsx:23-30 | Typed text is emitted exactly when it parses to an integer of at least 1, and empty text emits 1; anything else is ignored. |
| QuantityInput.TypedRoundTrip | frontend-cake-shop/src/components/Products/QuantityInput.tsx:23-30 | Typing the digits of a positive quantity selects that quantity. |
| QuantityInput.QuantityStaysPositive | frontend-cake-shop/src/components/Products/QuantityInput.tsx:12-39 | No handler emits a quantity below 1, an enabled minus button always emits, and plus then minus returns to the start. |
| TagInput.TagsArray | frontend-cake-shop/src/components/admin/products/TagInput.tsx:15 | A value that is not an array is treated as no tags, and an array is used as it is. |
| TagInput.KeyDown | frontend-cake-shop/src/components/admin/products/TagInput.tsx:17-28 | Enter on non-blank input emits the list with the trimmed tag appended exactly when it is not already there, so a list without repeats stays so. The input is cleared after Enter even for a duplicate, and any other key changes nothing. |
| TagInput.RemoveTag | frontend-cake-shop/src/components/admin/products/TagInput.tsx:30-33 | The cross removes every copy of that tag and keeps the others, in their order and number. |
| TagInput.EnteredTagClean | frontend-cake-shop/src/components/admin/products/TagInput.tsx:17-33 | An entered tag is never blank and has no edge white space, and removing it again restores the list. |
| PasswordStrength.Measure | frontend-cake-shop/src/components/auth/PasswordStrengthMeter.tsx:8-20 | hasLength holds exactly when the password has at least 8 characters, hasUppercase when it has an A–Z letter, and hasNumber when it has a digit. The strength is 33, 33 and 34 for these checks; the bar is red at 60 or below, green at 100 and amber between. |
| PasswordStrength.ScoreLevels | frontend-cake-shop/src/components/auth/PasswordStrengthMeter.tsx:13-20 | The strength is one of 0, 33, 34, 66, 67 and 100, and is 100 exactly when all three checks pass. The colour is green for three passing checks, amber for two and red for fewer. |
| PasswordStrength.StrongPasswordIsGreen | frontend-cake-shop/src/components/auth/PasswordStrengthMeter.tsx:9-16 | A password of 8 or more characters with an upper-case letter and a digit gets the full score. |
| Pager.Range | frontend-cake-shop/src/components/admin/common/PaginationControls.tsx:52-54 | The pages a..b-1, one after another, as a counting loop pushes them. |
| Pager.PushPages | frontend-cake-shop/src/components/admin/common/PaginationControls.tsx:42-44 | The for-loop appends exactly the pages from..to, in order, to what was pushed before. |
| Pager.PageNumbers | frontend-cake-shop/src/components/admin/common/PaginationControls.tsx:24-55 | The page-number builder, with its pushes and loops, yields exactly the page list: nothing for one page or none, every page when they fit in the blocks, otherwise the clipped list. |
| Pager.ClippedListBounds | frontend-cake-shop/src/components/admin/common/PaginationControls.tsx:32-50 | A clipped list starts at page 1, ends at the last page, and holds only pages in range and -1 markers. |
| Pager.ClippedListConsecutive | frontend-cake-shop/src/components/admin/common/PaginationControls.tsx:33-50 | Two pages side by side in a clipped list are consecutive page numbers. |
| Pager.ClippedListGaps | frontend-cake-shop/src/components/admin/common/PaginationControls.tsx:38-48 | Every -1 marker sits between two pages, and pages are skipped exactly there. |
| Pager.ClippedListAround | frontend-cake-shop/src/components/admin/common/PaginationControls.tsx:29-50 | The clipped list shows the current page and takes at most 2*neighbours+5 blocks. |
| Pager.ClippedListSound | frontend-cake-shop/src/components/admin/common/PaginationControls.tsx:32-50 | When the pages do not fit, the list runs from 1 to the last page with pages in range, consecutive pages side by side, a marker exactly where pages are skipped, the current page shown, and no more blocks than allowed. |
| Pager.FullListSound | frontend-cake-shop/src/components/admin/common/PaginationControls.tsx:51-55 | When the pages fit, listing them all meets the same promises. |
| Pager.PageListSound | frontend-cake-shop/src/components/admin/common/PaginationControls.tsx:24-55 | The control draws nothing exactly when there is at most one page, and otherwise a list meeting all those promises. |
| Pager.InlinePageWindow | frontend-cake-shop/src/pages/admin/orders/AdminOrderListPage.tsx:110-118 | The order list's own pager loop pushes exactly the pages current-2..current+2, clipped to 1..total. |
| Pager.InlineWindowSound | frontend-cake-shop/src/pages/admin/orders/AdminOrderListPage.tsx:110-118 | That window holds at most five pages, all in range and increasing, and holds the current page when it exists. |
| OrderListPage.SelectOne | frontend-cake-shop/src/pages/admin/orders/AdminOrderListPage.tsx:350-360 | Ticking a row's box selects its id and unticking deselects it, and no other id changes. |
| OrderListPage.SelectAllClick | frontend-cake-shop/src/pages/admin/orders/AdminOrderListPage.tsx:369-392 | The header box adds every id on the page when ticked, and when unticked removes only this page's ids, so selections on other pages survive. |
| OrderListPage.AllSelected | frontend-cake-shop/src/pages/admin/orders/AdminOrderListPage.tsx:363-366 | The header box shows ticked exactly when the page has rows and every row has an id that is selected. |
| OrderListPage.EverySelected | frontend-cake-shop/src/pages/admin/orders/AdminOrderListPage.tsx:365 | Every row of the page has an id and that id is selected. |
| OrderListPage.SelectAllRoundTrip | frontend-cake-shop/src/pages/admin/orders/AdminOrderListPage.tsx:363-392 | On a non-empty page whose rows all have ids, the header box shows ticked after ticking it and unticked after unticking it. |
| Seqs.CeilDiv | frontend-cake-shop/src/pages/admin/orders/AdminOrderListPage.tsx:566 | `Math.ceil(n / size)` is the least number of blocks of `size` that hold `n`, and 0 exactly when `n` is 0. The order list pages by 10, the products page by 8 (ProductsPage.tsx:110), the party-supplies page by 12 (PartySuppliesPage.tsx:82) and the SMS counter by 70 characters (EditTemplateModal.tsx:68-69). |
| OrderListPage.ShownRange | frontend-cake-shop/src/pages/admin/orders/AdminOrderListPage.tsx:655-656 | The first shown number is 0 when there are no orders, and otherwise the number of the page's first order. The last is the end of the page or the order count, whichever is less. |
| OrderListPage.ShownRangeSound | frontend-cake-shop/src/pages/admin/orders/AdminOrderListPage.tsx:444-448 | On every page that the page handler accepts, "showing x to y" names a non-empty run of at most 10 orders, all of which exist. |
| PaymentStatus.Upper | frontend-cake-shop/src/pages/admin/orders/AdminOrderListPage.tsx:74 | toUpperCase keeps the length and upper-cases each character. |
| PaymentStatus.OrElse | frontend-cake-shop/src/components/admin/orders/OrderInfoCard.tsx:12 | `a or b` is the fallback unless a is present and non-empty, in which case it is a. |
| PaymentStatus.FirstWith | frontend-cake-shop/src/components/admin/orders/OrderInfoCard.tsx:10 | find gives the first transaction whose upper-cased status is one of the keys, and nothing exactly when no transaction has one. |
| PaymentStatus.OrderOnlyBadge | frontend-cake-shop/src/pages/admin/orders/AdminOrderListPage.tsx:90-106 | Without transactions the badge is orange for PENDING_PAYMENT, red for CANCELLED or PAYMENT_FAILED, green for DELIVERED, PROCESSING or SHIPPED, and grey for anything else. |
| PaymentStatus.ListBadge | frontend-cake-shop/src/pages/admin/orders/AdminOrderListPage.tsx:69-107 | With transactions, the list shows paid exactly when one succeeded, gateway-pending exactly when none succeeded and one is pending, and failed otherwise. Without transactions it shows the order-status badge. |
| PaymentStatus.CardBadge | frontend-cake-shop/src/components/admin/orders/OrderInfoCard.tsx:8-31 | With transactions, the card is green exactly when one is SUCCESS or COMPLETED, and yellow exactly when none is and one is PENDING. A red card shows the last transaction's label or "failed". Without transactions it shows the same order-status badge. |
| PaymentStatus.ListAndCardAgree | frontend-cake-shop/src/components/admin/orders/OrderInfoCard.tsx:8-31 | An order the list shows as paid is paid on the card. While no transaction is COMPLETED, both screens show the same colour, and without transactions the same badge. |
| PaymentStatus.PaymentMethodText | frontend-cake-shop/src/components/admin/orders/OrderInfoCard.tsx:41-54 | Without transactions the card shows "online (awaiting payment)" exactly for an order awaiting payment, and "unknown" otherwise. With transactions it shows "unknown", a transaction's method label or the first transaction's method key. It shows the first transaction's label when no transaction succeeded and that label is non-empty. |
| ProductForm.CheckGallery | frontend-cake-shop/src/pages/admin/products/AdminProductForm.tsx:85-88 | The gallery's three checks, with their loops, accept at most five files, each at most 10 MB, each of an accepted image type; no files at all always pass. Together they hold exactly when the gallery rule holds. |
| ProductForm.PriceTypeOf | frontend-cake-shop/src/pages/admin/products/AdminProductForm.tsx:91 | A missing price type becomes FIXED, each of the three keys maps to its own type, and any other text is refused. |
| ProductForm.VariantSizes | frontend-cake-shop/src/pages/admin/products/AdminProductForm.tsx:112 | The list of sizes has one entry per variant row, that row's size. |
| ProductForm.SizesUniqueIffDistinct | frontend-cake-shop/src/pages/admin/products/AdminProductForm.tsx:110-114 | Comparing the Set's size with the list's length accepts exactly the variant lists in which no two rows share a size. |
| ProductForm.AcceptedProductConsistent | frontend-cake-shop/src/pages/admin/products/AdminProductForm.tsx:63-131 | In an accepted form every variant has a size and no size repeats. The base price is positive, and a sale price is positive and below it. With scheduling on, either both dates are given with start before end, or neither is. |
| ProductForm.GeneratedSlugPasses | frontend-cake-shop/src/components/admin/products/form/ProductGeneralInfoSection.tsx:27-36 | A slug made by the generate button from a non-empty name passes the schema's slug pattern whenever its length is within 3..220. |
| ProductOptions.Toggled | frontend-cake-shop/src/components/admin/products/form/ProductOptionsSection.tsx:38-53 | A flavour or add-on check box flips that id's membership, keeps every other id's, and never leaves a repeat; on an unset list it selects just that id. |
| ProductOptions.AddNewSizeVariant | frontend-cake-shop/src/components/admin/products/form/ProductOptionsSection.tsx:61-70 | The add-size button appends one row with no size chosen and active for the product, keeping the rows before it. |
| ProductOptions.NewVariantBlocksSave | frontend-cake-shop/src/components/admin/products/form/ProductOptionsSection.tsx:61-70 | A form whose last row is a fresh one is refused until a size is picked. |
| ProductOptions.Offered | frontend-cake-shop/src/components/admin/products/form/ProductOptionsSection.tsx:79-82 | The drop-down lists exactly the active sizes that are the row's own choice or are not taken. |
| ProductOptions.AvailableSizes | frontend-cake-shop/src/components/admin/products/form/ProductOptionsSection.tsx:72-83 | Corrected drop-down: it offers only active catalogue sizes, and never a size that another row holds unless this row holds it too. |
| ProductOptions.TakenAsWritten | frontend-cake-shop/src/components/admin/products/form/ProductOptionsSection.tsx:74-77 | As written, the sizes treated as taken are exactly those chosen in rows 0 to n-2, whichever row asks. For the last row this is every other row. |
| ProductOptions.TakenByOthers | frontend-cake-shop/src/components/admin/products/form/ProductOptionsSection.tsx:74-77 | The intended taken sizes are exactly those chosen in every row but the asking one. |
| ProductOptions.AvailableSizesAsWritten | frontend-cake-shop/src/components/admin/products/form/ProductOptionsSection.tsx:72-83 | As written, the drop-down offers exactly the active sizes that are the row's own or that no row from 0 to n-2 holds. For the last row it agrees with the corrected drop-down. |
| ProductOptions.DropdownOffersTakenSize | frontend-cake-shop/src/components/admin/products/form/ProductOptionsSection.tsx:74-77 | As written, with sizes 1 and 2 in two rows, row 0 is still offered size 2; the corrected drop-down does not offer it. |
| ProductOptions.PickKeepsSizesUnique | frontend-cake-shop/src/components/admin/products/form/ProductOptionsSection.tsx:72-83 | Picking any size the corrected drop-down offers keeps the sizes distinct, so the schema's size rule stays satisfied. |
| ProductsPage.HandleFilterChange | frontend-cake-shop/src/pages/ProductsPage.tsx:86-93 | A category or flavour click flips that id in its own set only, keeps every other id and the other set, price bounds and ordering, leaves no repeats, and returns to page 1. |
| ProductsPage.HandlePriceChange | frontend-cake-shop/src/pages/ProductsPage.tsx:95-98 | Typing a price bound sets that bound to the text and changes nothing else, the page included. |
| ProductsPage.HandleSortChange | frontend-cake-shop/src/pages/ProductsPage.tsx:100-103 | A new ordering keeps the filters and returns to page 1. |
| ProductsPage.HandleClearFilters | frontend-cake-shop/src/pages/ProductsPage.tsx:105-108 | Clearing empties both sets and both bounds, returns to page 1 and keeps the ordering. |
| ProductsPage.QueryParams | frontend-cake-shop/src/pages/ProductsPage.tsx:36-45 | The query always carries page, page size and ordering. It carries each id set, comma-joined, exactly when that set is non-empty, and each price bound, as typed, exactly when its text is non-empty. |
| ProductsPage.FilterToggleTwice | frontend-cake-shop/src/pages/ProductsPage.tsx:86-93 | Clicking an unticked category or flavour twice restores the filters exactly, on page 1. |
| ProductsPage.ClearIsFreshStart | frontend-cake-shop/src/pages/ProductsPage.tsx:21-29 | After clearing, the page is in its first-load state apart from the chosen ordering. |
| PartySupplies.ChangedFilters | frontend-cake-shop/src/pages/PartySuppliesPage.tsx:84-102 | A type click selects that type, or clears it when it was already selected. A colour or theme click flips that value in its own list only, keeps every other value and the other filters, and leaves no repeats. |
| PartySupplies.HandleFilterChangeAsWritten | frontend-cake-shop/src/pages/PartySuppliesPage.tsx:84-106 | As written, a filter change updates the filters and resets the unused `page`, leaving the page the query asks for where it was. |
| PartySupplies.HandleFilterChange | frontend-cake-shop/src/pages/PartySuppliesPage.tsx:84-106 | Corrected: a filter change updates the filters and sends the query back to page 1. |
| PartySupplies.HandleClearFilters | frontend-cake-shop/src/pages/PartySuppliesPage.tsx:108-110 | Clearing removes every filter and touches neither page number. |
| PartySupplies.FilterChangeKeepsStalePage | frontend-cake-shop/src/pages/PartySuppliesPage.tsx:105 | As written, narrowing the filters on page 3 to five supplies keeps asking for page 3, a page past the last one. |
| PartySupplies.FilterChangeAsksForFirstPage | frontend-cake-shop/src/pages/PartySuppliesPage.tsx:105 | With the corrected reset, the page asked for after any filter change exists whenever there are results. |
| PartySupplies.QueryParams | frontend-cake-shop/src/pages/PartySuppliesPage.tsx:46-50 | The query always carries the page and page size 12. It carries the type exactly when one is set and non-empty, and each list, comma-joined, exactly when it is non-empty. |
| PartySupplies.ListParamsSplitBack | frontend-cake-shop/src/pages/PartySuppliesPage.tsx:49-50 | Splitting the colour parameter at commas gives back the ids in decimal, and splitting the theme parameter gives back the themes, when no theme contains a comma. |
| SmsEditor.ContentOnTemplateChange | frontend-cake-shop/src/components/admin/sms/EditTemplateModal.tsx:60-65 | Opening a template loads its message into the editor, and with no template the content is kept. |
| SmsEditor.Splice | frontend-cake-shop/src/components/admin/sms/EditTemplateModal.tsx:79 | The new text keeps what precedes the selection, then holds the piece, then what followed the selection, and its length adds up. |
| SmsEditor.InsertVariable | frontend-cake-shop/src/components/admin/sms/EditTemplateModal.tsx:72-87 | Without a text area nothing happens. Otherwise the variable lands at the selection start and the caret just after it. |
| SmsEditor.InsertThenRestore | frontend-cake-shop/src/components/admin/sms/EditTemplateModal.tsx:76-79 | Inserting only replaces the selection: putting the selected text back over the variable restores the text. |
| SmsEditor.SavePayload | frontend-cake-shop/src/components/admin/sms/EditTemplateModal.tsx:89-96 | Save sends something exactly when a template is open, and then only its id and the edited content. |
| SmsEditor.SaveChangesOnlyMessage | online-cake-shop/orders/serializers.py:479-516 | Saving from the editor is refused under `message_template` exactly when the content is all white space. Otherwise the stored message becomes the stripped content, and the active flag and description are kept. Saving an unedited template whose message is already stripped stores it unchanged. |
| SmsEditor.AbsentPlaceholder | online-cake-shop/orders/sms_service.py:39-40 | A placeholder that does not start the text occurs nowhere in it when the text has braces only at its start. |
| SmsEditor.ReplaceEachAbsent | online-cake-shop/orders/sms_service.py:39-40 | Replacing placeholders, none of which occurs in the text, leaves the text as it is. |
| SmsEditor.NotAFilledPlaceholder | online-cake-shop/orders/sms_service.py:29-36 | Each of the three unfilled variables differs from every placeholder the sender fills. |
| SmsEditor.UnfilledVariableShape | frontend-cake-shop/src/components/admin/sms/EditTemplateModal.tsx:48-57 | The editor offers {{courier_name}}, {{preparation_time}} and {{store_phone}}, and each has braces only at its start. |
| SmsEditor.UnfilledVariable | online-cake-shop/orders/sms_service.py:15-41 | A template made of {{courier_name}}, {{preparation_time}} or {{store_phone}}, each offered by the editor, is sent with the placeholder text itself, since the sender fills none of them. |
| CategoryForm.HandleImageChange | frontend-cake-shop/src/pages/admin/products/AdminCategoryForm.tsx:113-148 | The handler reads the first file exactly when one is picked that is at most 2 MB and of an accepted type. It cancels exactly when nothing is picked, and otherwise keeps the current preview. |
| CategoryForm.HandlerMatchesSchema | frontend-cake-shop/src/pages/admin/products/AdminCategoryForm.tsx:32-34 | A file the schema accepts is read by the handler, and a non-empty file the handler reads passes the schema. A refused file never passes it. |

## Left out

- HTTP and DRF machinery is not modelled. This covers routing, permissions, pagination classes, filter backends, response and redirect construction, and serialization to JSON. Each handler's reply is a datatype value.
- The calls to Zarinpal and sms.ir are not modelled: HTTP, time-outs and JSON parsing. Their replies, or the transport failure, are enumerated inputs.
- The SMS credit-balance view is not modelled, since it is an external call behind a time-limited cache.
- `AdminOrderViewSet.update_status` (orders/views.py:428) is not modelled. It is the admin's single-order status change. Status changes are modelled through `change_status` and `bulk_update_status`.
- The `reorder` action (orders/views.py:943) is not modelled. It asks `OrderItem` for a `cake` field it does not have, so it cannot run as written.
- Concurrent requests are not modelled: requests are sequential, so the `get_or_create` races (the cart, tags) do not arise.
- CSV and PDF export, the dashboard and sales aggregates, and the review average (`Avg` over floats) are not modelled.
- Django's `slugify`, `validate_password`, `check_password`/`set_password` and zod's `.email()` are not modelled. Each enters as a boolean or a given string.
- Browser file and MIME detection is not modelled either. A picked file is its size and the MIME type the browser reports.
- Shamsi: whether a Solar Hijri year is a leap year is an input, because the leap-year rule of `jdatetime` is not part of this model. Only the month lengths and the month stepping are modelled.
- The JSON file read of migration 0007 is not modelled. The loop over the parsed items is.
- `CakeSerializer.create` and `update` assign the cake's plain columns; the model takes them as a given record. What is modelled is the variant, gallery, tag and flavor handling.
- A `size_variants_json` entry with keys other than a variant's columns is not modelled. `CakeSizeVariant.objects.create(**data)` raises on such keys. The entries are parsed into the known keys.
- Catalog.EntryRow: an entry's `id` is parsed but not used. `update` pops it; `create` passes it on to `CakeSizeVariant.objects.create` as the primary key, which can reuse or clash with another row's id. Here every created row takes the next id.
- Catalog.EntryRow: an entry with `"price_modifier": null` is treated like one without the key and gets the default. The column is NOT NULL, so such an entry makes the insert fail (a 500).
- Catalog.Store.UpdateCake and Catalog.Store.BulkDelete: the order lines' variant ids enter as the input `ordered`, because the order tables belong to the orders module. The PROTECT on an order line's flavor and add-on is not modelled, because these handlers never delete flavors or add-ons.
- The `IntegrityError` raised by a clashing cake or category slug is not modelled. The slugified name is an input.
- `services/api.ts` and `AuthContext.tsx` (axios, local storage, token refresh) and the pages' fetch effects are not modelled. The route guard reads only the session flags these produce.
- The route guard's console logging is not modelled.
- `FileReader` previews, `alert` boxes, focus and caret timers, and all JSX and styling are not modelled. The category form's handler result names what it would read or cancel.
- String lengths count Unicode code points, where JavaScript counts UTF-16 units. Upper-casing and lower-casing cover ASCII letters only.
- `parseFloat` and number display on the front end are not modelled. The product form receives its number fields already parsed (`Blank`, `NaN` or a number).
- Pricing.CalculatePrice: the `base_price is None` and `price_modifier is None` branches are not modelled, because both columns are NOT NULL and a stored row cannot reach them.
- Orders.Shop.ChangeStatus: models the corrected `change_status`, which writes one log row per change. As written, with the `post_save` receiver connected, it writes two rows (see Findings).
- Orders.Shop.ApplySettlement: settles through the corrected `change_status`, so it writes one log row. As written, it writes two rows when the receiver is connected.
- Orders.Shop.CheckoutCart: validates with the corrected checkout, which requires `address_id` and `delivery_datetime`. As written, an empty PATCH is accepted and the cart moves to PENDING_PAYMENT without an address (see Findings).
- Orders.Shop.Callback: a callback that finds no single pending transaction gets the corrected replay answer. As written, that request ends in an `UnboundLocalError` (a 500). A settled callback also writes one log row, where the code as written writes two with the receiver connected.
- Catalog.Store.CreateCake: models the corrected create, which pops the write-only inputs that are not columns. As written, every create fails with a `TypeError` (a 500) (see Findings).
- Pricing.RoundCents: rounds a half cent away from zero, as a PostgreSQL or MySQL numeric column does. Where Django quantizes the value before the write, its decimal context rounds a half cent to even, so an amount ending in exactly half a cent can be stored one cent lower. The backend is configuration outside this model.
- Zarinpal.Settle: the input `VerifyInvalidJson` stands for a `json.JSONDecodeError` reaching the handler's third test. Since requests 2.27 the decode error of `response.json()` is also a `RequestException`, so the second test catches it first and the network-error note is written (`VerifyNetworkError`). The installed requests version is configuration outside this model.
- Text.IsDigit: covers the ASCII, Arabic-Indic and Persian digits. Python's `int()` accepts every Unicode decimal digit (category Nd).
- QuantityInput.Typed: the parsed quantity is an exact integer, where JavaScript numbers lose precision above 2^53.
- The `DecimalField` digit limits are not modelled: a unit price beyond 10 digits or an order total beyond 12 would fail to save, but totals are unbounded `real`s here.
- The quantity column's range is the one PostgreSQL and MySQL give a `PositiveIntegerField` (up to 2147483647). On SQLite, Django takes the 64-bit range instead; the database in use is configuration outside this model.
- Users.Accounts.Register: the NFKC normalisation that `create_user` applies to the username is not modelled. The e-mail domain is lower-cased for ASCII letters only.

## Findings

| source | as written | input that shows it | evidently intended | confidence | as-written member | corrected member |
|---|---|---|---|---|---|---|
| online-cake-shop/orders/models.py:169-204 | `change_status` writes a log row itself and also saves the order; with the `post_save` receiver of orders/signals.py connected, the receiver writes a second row for the same change | an order in PENDING_PAYMENT changed to PROCESSING by an admin | one log row per status change | not executed | OrderModel.ChangeStatusLogsAsWritten | OrderModel.ChangeStatusLogs |
| online-cake-shop/orders/views.py:1260-1276 | a replayed callback for a payment that already succeeded reads `order` and the failure address before either is assigned | a second callback with the authority of a SUCCESS transaction | send the customer to that order's success page | not executed | Zarinpal.ReplayRedirectAsWritten | Zarinpal.ReplayRedirect |
| online-cake-shop/orders/views.py:689-694 | checkout validates with `partial=True`, so the required `address_id` and `delivery_datetime` are never demanded | an empty PATCH on a cart | refuse a checkout without an address and a delivery time | not executed | OrderSerializers.CheckoutAsWritten | OrderSerializers.Checkout |
| frontend-cake-shop/src/components/admin/products/form/ProductOptionsSection.tsx:74-77 | the drop-down drops the row's own entry and then reads rows by the shortened list's positions, so it inspects rows 0..n-2 whatever row asks | rows with sizes 1 and 2: row 0 is offered size 2 | offer no size another row holds | not executed | ProductOptions.DropdownOffersTakenSize | ProductOptions.AvailableSizes |
| frontend-cake-shop/src/pages/PartySuppliesPage.tsx:105 | a filter change resets `page`, which nothing reads, instead of `currentPage` | narrowing the filters on page 3 to five supplies | go back to the first page | not executed | PartySupplies.HandleFilterChangeAsWritten | PartySupplies.HandleFilterChange |
| frontend-cake-shop/src/schemas/registerSchema.ts:14-17 | the password mismatch is reported under `confirm_password`, a path the sign-up form has no field for | valid fields with passwords secret123 and secret124 | report it under `password2`, where the form prints it | not executed | RegisterSchema.RegisterIssuesAsWritten | RegisterSchema.RegisterIssuesCorrected |
| online-cake-shop/products/serializers.py:170-210 | `remove_main_image` has a default, so it is in validated_data on every create; `create` does not pop it, and `super().create` passes it to `Cake.objects.create`, which raises a `TypeError` | any create, for example one sending only a name and a category | pop the write-only inputs that are not columns before creating the cake | not executed | Catalog.CreateCakeAsWritten | Catalog.CreateKwargs |
