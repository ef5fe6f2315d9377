# HomeStorage core, modelled in Dafny

HomeStorage is a web app for keeping track of things stored in numbered boxes.
Its core has two parts:

- **Server handlers.** These list and create boxes, items and categories, report
  counts, upload images and delete an account with all of its data. Every
  handler first checks that a user is signed in. It then touches only rows whose
  `user_id` is that user.
- **Client views.** Each view keeps React state, asks those handlers for data and
  updates its own state from the reply. They cover searching and filtering items,
  the contents of one box, the recently added items, the grid of boxes with its QR
  button, the add-box and add-item forms, the category editor and the
  password-reset form.

The model has these layers:

- **Database.** The hosted database is a `Store.Database` object. It has one
  sequence per table, a set of keys for the image bucket and a set of accounts.
  Ids come from a counter and grow with each insert, and `Valid()` keeps that
  invariant.
- **Handlers.** Each handler is a method on that object, or a function when it only
  reads. Its `ensures` gives the reply for each branch of the source: 401, 400,
  409, 500 and success. It also gives the new contents of every table it
  writes.
- **Views.** Each client view is a class whose fields are the view's state. Its
  handlers are methods that take the server's reply as a parameter.
- **Pure helpers.** These are functions with lemmas:
  - page arithmetic;
  - the row flattening of the item list;
  - the filters and the page-number window of the search view;
  - the first-gap box-number suggestion;
  - storage paths and their round trip;
  - QR file names and the names of saved images;
  - what the views store from the item list's reply.

Ordering by a column is modelled as a stable insertion sort. It is proved sorted
and a permutation of the selected rows.

## Model

| member | source | states |
|---|---|---|
| Store.OwnedBoxes | app/api/boxes/route.ts:17-20 | a box is selected exactly when it is in the table and its `user_id` is the caller |
| Store.OwnedItems | app/api/stats/route.ts:31-34 | an item is selected exactly when it is in the table and belongs to the caller |
| Store.OwnedCategories | app/api/categories/route.ts:32-35 | a category is selected exactly when it is in the table and belongs to the caller |
| Store.Database.constructor | lib/types.ts:1-32 | an empty database with no stored images, which satisfies the id invariant |
| Store.Database.InsertBox | app/api/boxes/route.ts:75-86 | the row is appended with a fresh id larger than every stored id; nothing else changes and the invariant is kept |
| Store.Database.InsertItem | app/api/items/route.ts:141-153 | the item is appended with a fresh id larger than every stored id; the invariant is kept |
| Store.Database.InsertCategory | app/api/categories/route.ts:90-98 | the category is appended with a fresh id larger than every stored id; the invariant is kept |
| Store.Database.DeleteUser | app/api/account/delete/route.ts:86 | the caller's account is removed, no table changes, and the invariant is kept |
| Store.BoxFoundIffOwned | app/api/items/route.ts:110-122 | the single-row lookup of a box by id and owner succeeds exactly when the caller owns a box with that id |
| Store.CategoryFoundIffOwned | app/api/items/route.ts:124-139 | the single-row lookup of a category by id and owner succeeds exactly when the caller owns that category |
| BoxesRoute.NumberOrderIsTotal | app/api/boxes/route.ts:21 | ordering by box number is a total preorder |
| BoxesRoute.List | app/api/boxes/route.ts:4-35 | the listing is refused with 401 exactly when nobody is signed in |
| BoxesRoute.ListIsOwnedAndOrdered | app/api/boxes/route.ts:17-27 | a signed-in caller gets their own boxes, all of them, sorted by number, each exactly as often as stored |
| BoxesRoute.NumberTakenIffUsed | app/api/boxes/route.ts:60-73 | the duplicate check finds a row exactly when the caller already has a box with that number |
| BoxesRoute.OtherOwnersDoNotBlock | app/api/boxes/route.ts:63-65 | adding any rows of other owners to the table never changes whether the caller's number is taken, and such rows alone never take it |
| BoxesRoute.Create | app/api/boxes/route.ts:37-92 | 401 when signed out; 400 when the number is missing or 0; 409 when the caller has it; otherwise 201 with the appended row (label, description and image default to null, location to "Garage"); a refused request changes nothing and box numbers stay unique per owner |
| CategoriesRoute.NameOrderIsTotal | app/api/categories/route.ts:36 | ordering by name is a total preorder |
| CategoriesRoute.ListingIsOwnedAndOrdered | app/api/categories/route.ts:31-36 | the listing is the caller's categories, all of them, sorted by name |
| CategoriesRoute.SeedingKeepsNamesUnique | app/api/categories/route.ts:17-29 | seeding distinct preset names for a caller with no categories keeps names unique per owner |
| CategoriesRoute.SeedPresets | app/api/categories/route.ts:24-29 | one row per preset is appended, in the presets' order, owned by the caller; the stored rows are kept, and names stay unique per owner when the caller had none |
| CategoriesRoute.List | app/api/categories/route.ts:4-42 | 401 when signed out; a caller with no categories gets the presets appended, one seeded row each; a caller with some gets no change; the reply is the caller's sorted listing |
| CategoriesRoute.NameTakenIffUsed | app/api/categories/route.ts:75-88 | the duplicate check finds a row exactly when the caller has a category with that name |
| CategoriesRoute.AppendKeepsNamesUnique | app/api/categories/route.ts:75-98 | inserting a name its owner does not use yet keeps names unique per owner |
| CategoriesRoute.Create | app/api/categories/route.ts:44-104 | 401 when signed out; 400 when the name is missing or blank, and 400 when the trimmed name exists; otherwise 201 with the trimmed name and the color defaulting to blue; names stay unique per owner |
| ItemsRoute.NumberReadBack | app/api/items/route.ts:18-19 | a query parameter holding a printed integer is read back as that integer |
| ItemsRoute.QueryNumber | app/api/items/route.ts:18-19 | the parameter, or its fallback when missing or empty, through `parseInt`; ItemsRoute.NumberReadBack, ItemsRoute.DefaultLimit and ItemsRoute.DefaultPage state what it reads |
| ItemsRoute.FallbackTexts | app/api/items/route.ts:18-19 | the texts read when `limit` and `page` are missing are "20" and "1" |
| ItemsRoute.DefaultLimit | app/api/items/route.ts:18 | with no `limit` parameter the page size is 20 |
| ItemsRoute.DefaultPage | app/api/items/route.ts:19 | with no `page` parameter the page is 1 |
| ItemsRoute.Offset | app/api/items/route.ts:20 | `(page - 1) * limit`; ItemsRoute.OffsetNonNegative and ItemsRoute.PagesAreConsecutive are its partners |
| ItemsRoute.TotalPages | app/api/items/route.ts:73 | `Math.ceil(total / limit)`; ItemsRoute.TotalPagesIsCeiling proves it the ceiling |
| ItemsRoute.HasMore | app/api/items/route.ts:74 | `offset + limit < total`; ItemsRoute.HasMoreIffNotLastPage relates it to the page count |
| ItemsRoute.TotalPagesIsCeiling | app/api/items/route.ts:73 | the page count is the least n with total <= n * limit |
| ItemsRoute.HasMoreIffNotLastPage | app/api/items/route.ts:74 | `hasMore` holds exactly when the page is before the last page |
| ItemsRoute.OffsetNonNegative | app/api/items/route.ts:20 | the row offset of a page >= 1 is never negative |
| ItemsRoute.Window | app/api/items/route.ts:49 | the range request returns at most `limit` rows, namely the rows from `offset` onward, in order |
| ItemsRoute.PagesAreConsecutive | app/api/items/route.ts:20-49 | page p followed by page p+1 is one contiguous run of 2 * limit rows |
| ItemsRoute.NonEmpty | app/api/items/route.ts:34-40 | a search or box filter applies exactly when its parameter is present and not empty |
| ItemsRoute.FindBox | app/api/items/route.ts:28 | the joined box is one with the item's box id, or no box has that id |
| ItemsRoute.FindCategory | app/api/items/route.ts:29 | the joined category is one with the item's category id, or there is none |
| ItemsRoute.Flatten | app/api/items/route.ts:58-65 | the row keeps the item and carries the number, label and location of its box, and the name and color of its category, each present exactly when the join found one |
| ItemsRoute.FlattenAll | app/api/items/route.ts:58-65 | every row is flattened, in order |
| ItemsRoute.PageRows | app/api/items/route.ts:24-65 | the caller's rows matching the filters, newest first, the page's window of them, flattened; ItemsRoute.PageRowsSelected states its properties |
| ItemsRoute.PageRowsSelected | app/api/items/route.ts:24-49 | a page holds at most `limit` rows, each the caller's, matching the search and box filters, flattened |
| ItemsRoute.List | app/api/items/route.ts:4-83 | 401 exactly when signed out; 500 for a box filter that is not a number; otherwise 200 with the page of selected newest-first rows and its pagination figures |
| ItemsRoute.Create | app/api/items/route.ts:86-175 | 401; 400 without a name or box; 400 "Invalid box ID" unless the caller owns the box; 400 "Invalid category ID" for a category the caller does not own; otherwise 201 with the appended row (status "in_box" and quantity 1 by default) flattened with its box and category |
| SearchInterface.FiltersOffKeepAll | components/SearchInterface.tsx:105-121 | with every filter set to "all" the filtered list is the whole list |
| SearchInterface.FilteredIsSubsequence | components/SearchInterface.tsx:105-121 | the filtered list is the fetched list with some rows dropped, the rest in order |
| SearchInterface.Passes | components/SearchInterface.tsx:108-118 | a row passes when each filter that is on matches its status, its category id as text and its box location; SearchInterface.FiltersOffKeepAll is its partner |
| SearchInterface.SearchQuery | components/SearchInterface.tsx:81-92 | the page, limit and, when not blank, the search text; SearchInterface.SearchQueryReadBack is its round trip |
| SearchInterface.PageWindow | components/SearchInterface.tsx:474-476 | the page buttons shown; SearchInterface.PageWindowShape states their shape |
| SearchInterface.Rooms | components/SearchInterface.tsx:130 | the distinct non-empty box locations; SearchInterface.RoomsAreLocations states it exactly |
| SearchInterface.SearchView.HasActiveFilters | components/SearchInterface.tsx:161 | some text typed or some filter not "all"; the constructor and ClearFilters ensure it is off |
| SearchInterface.SearchQueryReadBack | components/SearchInterface.tsx:81-92 | the list handler reads back the page and limit the view sends, and searches exactly when the typed text is not blank |
| SearchInterface.PageWindowShape | components/SearchInterface.tsx:474-476 | the page buttons are min(5, totalPages) consecutive real page numbers and include the current page when that is a real page |
| SearchInterface.RoomsAreLocations | components/SearchInterface.tsx:130 | the rooms offered are exactly the non-empty box locations, each once |
| SearchInterface.SearchView.constructor | components/SearchInterface.tsx:27-43 | no text, every filter "all", page 1 of 20, no active filters |
| SearchInterface.SearchView.FilterItems | components/SearchInterface.tsx:105-121 | the shown rows are the fetched rows passing the status, category and room filters that are on |
| SearchInterface.SearchView.SearchItems | components/SearchInterface.tsx:81-103 | sends the page, limit and non-blank text; an OK reply replaces rows and pagination, anything else keeps them |
| SearchInterface.SearchView.HandlePageChange | components/SearchInterface.tsx:123-127 | a request goes out exactly when the new page is between 1 and the last page |
| SearchInterface.SearchView.ToggleItemStatus | components/SearchInterface.tsx:132-152 | after an OK reply the row with that id gets the toggled status; otherwise nothing changes |
| SearchInterface.SearchView.ClearFilters | components/SearchInterface.tsx:154-161 | text cleared and every filter "all", so no filter is active |
| ItemLists.Toggled | components/SearchInterface.tsx:134 | the requested status is one of the two statuses, and is "out_of_box" exactly when the item is in its box |
| ItemLists.ToggleInvolution | components/BoxContents.tsx:61 | toggling a legal status twice gives it back |
| ItemLists.WithStatus | components/SearchInterface.tsx:144-146 | the updated list is as long as the old one |
| ItemLists.WithStatusOnlyTarget | components/RecentItems.tsx:45-48 | rows with that id get the new status; every other row and field is unchanged, and so is the order |
| ItemLists.WithStatusOfAbsentId | components/BoxContents.tsx:70-73 | a list without that id is unchanged |
| ItemLists.WithQrPath | components/BoxesGrid.tsx:46-50 | the updated list is as long as the old one |
| ItemLists.WithQrPathOnlyTarget | components/BoxesGrid.tsx:46-50 | only boxes with that id get the new QR path; others and the order are kept |
| ItemsReply.AsWrittenListsNothing | components/RecentItems.tsx:24-25 | as written, the stored reply is the `{ items, pagination }` object, so no list of rows is stored, whatever the reply held |
| ItemsReply.StoredRows | components/RecentItems.tsx:24-25 | corrected: storing `data.items` gives exactly the reply's rows as the list |
| BoxContents.ItemsInBox | components/BoxContents.tsx:151 | exactly the rows whose status is "in_box" |
| BoxContents.ItemsOutOfBox | components/BoxContents.tsx:152 | exactly the rows whose status is "out_of_box" |
| BoxContents.PartitionBound | components/BoxContents.tsx:151-152 | the two headings together list at most all rows, and exactly all when every status is legal |
| BoxContents.ToggledItemMoves | components/BoxContents.tsx:70-73 | after a toggle the item shows under the heading of its new status only |
| BoxContents.BoxView.constructor | components/BoxContents.tsx:23-26 | no box, no rows, loading, no error |
| BoxContents.BoxView.FetchBoxData | components/BoxContents.tsx:32-57 | a failed box request sets the load error and keeps the rest; otherwise the box is set, then an OK item reply replaces the rows, a refused one keeps them, and a thrown one keeps them and sets the load error; loading ends |
| BoxContents.BoxView.ToggleItemStatus | components/BoxContents.tsx:59-78 | after an OK reply the row with that id gets the toggled status |
| BoxContents.BoxView.GenerateQrCode | components/BoxContents.tsx:80-93 | a returned path is stored on the shown box; a missing box stays missing |
| RecentItems.RecentQueryAsksFirstFive | components/RecentItems.tsx:22 | the request reads back as page 1 with 5 rows |
| RecentItems.RecentList.constructor | components/RecentItems.tsx:13-14 | no rows, loading |
| RecentItems.RecentList.FetchRecentItems | components/RecentItems.tsx:20-32 | asks for the first five; an OK reply replaces the rows with the reply's rows, a refused or thrown one keeps them; loading ends |
| RecentItems.RecentList.ToggleItemStatus | components/RecentItems.tsx:34-53 | after an OK reply the row with that id gets the toggled status |
| BoxesGrid.GeneratedBoxLosesButton | components/BoxesGrid.tsx:166-173 | once a non-empty path is recorded, that box no longer offers the QR button and the others keep their offer |
| BoxesGrid.Grid.constructor | components/BoxesGrid.tsx:17-19 | no boxes, no generation running, loading |
| BoxesGrid.Grid.FetchBoxes | components/BoxesGrid.tsx:25-37 | an OK reply replaces the boxes; loading ends |
| BoxesGrid.Grid.BeginQr | components/BoxesGrid.tsx:41 | the box being generated is marked |
| BoxesGrid.Grid.FinishQr | components/BoxesGrid.tsx:46-56 | a returned path is recorded on that box; the mark is cleared in every case |
| BoxesGrid.Grid.GenerateQrCode | components/BoxesGrid.tsx:39-57 | the net effect: path recorded when returned, mark cleared |
| AddBoxPage.NumLeIsTotal | app/boxes/add/page.tsx:35 | numeric order is a total preorder |
| AddBoxPage.NextNumber | app/boxes/add/page.tsx:36-44 | the loop stops at the first gap of the sorted numbers 1, 2, 3, … |
| AddBoxPage.FirstGapUnique | app/boxes/add/page.tsx:36-44 | a sorted list has one first gap |
| AddBoxPage.LeastMissing | app/boxes/add/page.tsx:35-44 | for distinct positive numbers the suggestion is the least positive number not in use |
| AddBoxPage.NoBoxesSuggestOne | app/boxes/add/page.tsx:36-44 | with no boxes the suggestion is 1 |
| AddBoxPage.InitialForm | app/boxes/add/page.tsx:14-20 | empty number, location "Garage", no image |
| AddBoxPage.Payload | app/boxes/add/page.tsx:91-96 | the number through `parseInt`, a failed parse sent as null, the texts as typed; AddBoxPage.SuggestionIsSent is its partner |
| AddBoxPage.SuggestionIsSent | app/boxes/add/page.tsx:91-96 | a suggested number left in the form reaches the handler as that number and passes its required-field check |
| AddBoxPage.AddBoxView.constructor | app/boxes/add/page.tsx:14-24 | the initial form, with the suggestion loading |
| AddBoxPage.AddBoxView.FetchNextBoxNumber | app/boxes/add/page.tsx:28-55 | only the number field changes; a listing gives the first gap of the sorted numbers, a thrown request gives "1", a refused one leaves the field; loading ends |
| AddItemForm.InitialForm | components/AddItemForm.tsx:12-20 | status "in_box", quantity 1, every text field empty |
| AddItemForm.WithField | components/AddItemForm.tsx:84-90 | the named field takes the typed text and every other field keeps its value |
| AddItemForm.CanSubmit | components/AddItemForm.tsx:50 | the trimmed name is not empty and a box is chosen; AddItemForm.SubmittedFormHasRequiredFields is its partner |
| AddItemForm.QuantityField | components/AddItemForm.tsx:67 | a number as it is, typed text through `parseInt` |
| AddItemForm.Payload | components/AddItemForm.tsx:60-67 | the form with the box id parsed and the category parsed or null; AddItemForm.SubmittedFormHasRequiredFields and AddItemForm.CategorySent are its partners |
| AddItemForm.SubmittedFormHasRequiredFields | components/AddItemForm.tsx:50-67 | a form the guard lets through reaches the handler with a name and box id that pass its required-field check |
| AddItemForm.CategorySent | components/AddItemForm.tsx:66 | no category selected is sent as null; a selected one as its id |
| AddItemForm.AddItemView.constructor | components/AddItemForm.tsx:9-20 | the initial form, not loading |
| AddItemForm.AddItemView.HandleChange | components/AddItemForm.tsx:84-90 | the form becomes the old form with that field set |
| AddItemForm.AddItemView.HandleSubmit | components/AddItemForm.tsx:47-67 | a request is sent exactly when the trimmed name and the box are filled, and it carries the form's payload |
| CategoryManager.SaveTarget | components/CategoryManager.tsx:52-53 | PUT to the category's URL exactly when editing, POST to the collection otherwise, with the form as body |
| CategoryManager.SaveError | components/CategoryManager.tsx:63-66 | the server's message when it sent a non-empty one, "Failed to save category" when it sent none or an empty one; never empty |
| CategoryManager.CategoryEditor.constructor | components/CategoryManager.tsx:18-24 | blank form, not editing, add form hidden, no error, not submitting |
| CategoryManager.CategoryEditor.StartEdit | components/CategoryManager.tsx:100-104 | form filled from the category, editing it, form shown |
| CategoryManager.CategoryEditor.ResetForm | components/CategoryManager.tsx:106-111 | blank form, not editing, add form hidden, no error |
| CategoryManager.CategoryEditor.HandleSubmit | components/CategoryManager.tsx:44-76 | a blank name sends nothing and changes nothing; otherwise the save request goes out, success resets the form, a refusal or throw sets the error, and submitting ends |
| CategoryManager.CategoryEditor.Submit | components/CategoryManager.tsx:48-75 | the request goes to the save target of the form as it was; success resets the form, a refusal or throw keeps it and shows the error; submitting ends false |
| CategoryManager.CategoryEditor.ApplyOutcome | components/CategoryManager.tsx:63-72 | success gives the blank hidden form with no error; a refusal shows the server's message or "Failed to save category"; a throw shows its message; a failure leaves the form |
| ResetPassword.CheckProblem | app/auth/reset-password/page.tsx:47-63 | mismatch first, then fewer than 6 characters, otherwise no problem, each exactly when it applies |
| ResetPassword.RedirectTarget | app/auth/reset-password/page.tsx:79 | the requested page when one is given and not empty, "/account" when it is missing or empty |
| ResetPassword.ResetForm.SubmitDisabled | app/auth/reset-password/page.tsx:176 | the button is disabled while loading or while either field is empty; the constructor shows it starts disabled |
| ResetPassword.ResetForm.constructor | app/auth/reset-password/page.tsx:16-19 | empty fields, no message, and the submit button starts disabled |
| ResetPassword.ResetForm.HandlePasswordReset | app/auth/reset-password/page.tsx:42-91 | the update is sent exactly when the check finds no problem; otherwise that problem is the error message; success and failure messages as the page shows them |
| StatsRoute.Get | app/api/stats/route.ts:5-56 | 401 signed out; 500 when a query fails; success otherwise |
| StatsRoute.StatsAddUp | app/api/stats/route.ts:20-43 | the counts are the caller's boxes and items; in-box plus out-of-box is at most all items, and equals it when every status is legal |
| StatsRoute.StatsIgnoreOthers | app/api/stats/route.ts:20-38 | adding any boxes and items of other owners to the tables leaves the caller's reply unchanged |
| Storage.IsValidImageType | lib/storage.ts:51-54 | accepted exactly for the five image MIME types |
| Storage.ValidateImageSize | lib/storage.ts:56-59 | accepted exactly up to 10 MiB |
| Storage.Extension | lib/storage.ts:10 | the text after the last dot, without a dot; the whole name when there is none |
| Storage.FileName | lib/storage.ts:11 | `${type}-${id}-${now}.${ext}`; Storage.FileNameHasNoSlash shows it is one path segment |
| Storage.ObjectKey | lib/storage.ts:12 | the file name under the `${type}s/` folder; Storage.KeyRoundTrip reads it back |
| Storage.KeyOfPath | lib/storage.ts:38-40 | the last two "/"-segments of the path, joined; Storage.LastTwoSegments and Storage.KeyRoundTrip state what it returns |
| Storage.FileNameHasNoSlash | lib/storage.ts:11 | the generated file name is a single path segment |
| Storage.LastTwoSegments | lib/storage.ts:38-40 | the key read from a URL is its last two segments |
| Storage.KeyRoundTrip | lib/storage.ts:10-40 | the key read back from an uploaded image's URL is the key it was stored under |
| Storage.UploadImage | lib/storage.ts:3-32 | succeeds exactly when the service accepts a new key, adding it and returning its public URL; otherwise an "Failed to upload image: " error and no change |
| Storage.DeleteImage | lib/storage.ts:34-49 | an empty path does nothing; text that is not an absolute URL throws "Invalid URL" and removes nothing; a refused removal only warns; otherwise the key of the path is removed and nothing else |
| Storage.UploadThenDelete | lib/storage.ts:3-49 | deleting an uploaded image's URL restores the bucket |
| QrUtils.QrPayload | lib/qr-utils.ts:26 | the code encodes the box page under the configured base URL, or localhost:3000 |
| QrUtils.QrPayloadNamesBox | lib/qr-utils.ts:26 | the id read back from the payload is the box's id |
| QrUtils.QrFileName | lib/qr-utils.ts:29 | `box-${boxNumber}-qr.png`; QrUtils.QrFileCollision shows two owners' boxes can share it |
| QrUtils.QrCodePath | lib/qr-utils.ts:29-44 | the path lies under /uploads/qr-codes/ |
| QrUtils.GenerateQrCode | lib/qr-utils.ts:22-45 | as written: the payload goes into the file named by the box number; other files are kept |
| QrUtils.QrFileCollision | lib/qr-utils.ts:29-32 | two boxes with the same number share one file, and the second overwrites the first's code |
| QrUtils.QrCodePathById | lib/qr-utils.ts:29-44 | corrected name keyed by box id, under /uploads/qr-codes/ |
| QrUtils.QrCodePathByIdInjective | lib/qr-utils.ts:29 | different box ids give different paths |
| QrUtils.GenerateQrCodeById | lib/qr-utils.ts:22-45 | corrected: the payload goes into the file named by the box id |
| QrUtils.QrFilesStayApart | lib/qr-utils.ts:29-32 | with the corrected name, generating another box's code never changes this box's file |
| QrUtils.TrimTrailingSlashes | lib/qr-utils.ts:50 | no trailing slash remains |
| QrUtils.BaseName | lib/qr-utils.ts:50 | the last path segment, without a slash |
| QrUtils.BaseNameIsLastSegment | lib/qr-utils.ts:50 | the base name is the suffix of the path (trailing slashes stripped) that follows its last slash, or the whole path when it has none |
| QrUtils.SegmentExt | lib/qr-utils.ts:50 | the suffix of the segment from its last dot: empty exactly when the segment is ".." or has no dot after its first character |
| QrUtils.ExtName | lib/qr-utils.ts:50 | a suffix of the base name that starts at its last dot and holds no other dot or slash; non-empty exactly when the base name is not ".." and has a dot after its first character |
| QrUtils.SavedImageName | lib/qr-utils.ts:51 | `${type}-${id}-${now}` followed by the lower-cased extension; QrUtils.SavedImageNameHasNoSlash and QrUtils.SavedImageKeepsExtension state its properties |
| QrUtils.SavedImagePath | lib/qr-utils.ts:47-57 | the saved image's path lies under /uploads/images/ |
| QrUtils.SavedImageNameHasNoSlash | lib/qr-utils.ts:51 | for a type without a slash the file name is a single path segment |
| QrUtils.SavedImageNameIsBaseName | lib/qr-utils.ts:51-56 | the returned path's last segment is exactly the file name that was written |
| QrUtils.SavedImageKeepsExtension | lib/qr-utils.ts:50-56 | for a type such as "box" or "item" (non-empty, no dot, no slash) the extension of the returned path is the lower-cased extension of the uploaded name |
| QrUtils.DeletesFile | lib/qr-utils.ts:60 | deleteImage acts exactly on a non-empty path starting with "/uploads/"; QrUtils.OwnPathsAreDeletable is its partner |
| QrUtils.OwnPathsAreDeletable | lib/qr-utils.ts:59-66 | every path this module hands out passes the guard of its delete |
| QrUtils.IsValidImageType | lib/qr-utils.ts:68-71 | accepted exactly for the same five image MIME types |
| QrUtils.ValidateImageSize | lib/qr-utils.ts:73-76 | accepted exactly up to 10 MiB |
| UploadRoute.Problem | app/api/upload/route.ts:23-58 | each validation message exactly when the earlier checks pass and this one fails, in the source's order |
| UploadRoute.WithBoxImage | app/api/upload/route.ts:64-73 | only the caller's box with that id gets the image path |
| UploadRoute.WithItemImage | app/api/upload/route.ts:74-84 | only the caller's item with that id gets the image path |
| UploadRoute.UnownedBoxUntouched | app/api/upload/route.ts:64-73 | an id the caller does not own changes nothing |
| UploadRoute.RecordImage | app/api/upload/route.ts:63-84 | the box or item table is updated by kind; a failed update leaves it |
| UploadRoute.StoreAndRecord | app/api/upload/route.ts:60-97 | 200 with the URL exactly when the service accepts a new key, which is added and recorded on the caller's box or item; otherwise 500 and nothing changes |
| UploadRoute.Upload | app/api/upload/route.ts:5-97 | 401; 400 with the first failing check; 500 when storage refuses; otherwise 200 with the URL, key added and the row's image path set |
| AccountDeleteRoute.ImagePaths | app/api/account/delete/route.ts:18-42 | at most one path per row, none empty |
| AccountDeleteRoute.ImagePathsMembers | app/api/account/delete/route.ts:18-42 | a path is collected exactly when some row has it as a non-empty image path |
| AccountDeleteRoute.CollectImagePaths | app/api/account/delete/route.ts:18-42 | box image paths followed by item image paths |
| AccountDeleteRoute.ReadRows | app/api/account/delete/route.ts:19-27 | a failed read gives no rows (`data` is null), a successful one all of them |
| AccountDeleteRoute.CollectedPathsOfReads | app/api/account/delete/route.ts:18-42 | with both reads failed nothing is collected; otherwise a path is collected exactly when it is the non-empty image path of a box or item of the caller whose read succeeded |
| AccountDeleteRoute.PushImagePaths | app/api/account/delete/route.ts:32-42 | the paths pushed are the rows' non-empty image paths, after those already collected, in row order |
| AccountDeleteRoute.RemoveImages | app/api/account/delete/route.ts:44-51 | every collected key is removed except those of paths that are not absolute URLs or whose removal is refused; the bucket changes in no other way |
| AccountDeleteRoute.WipeLeavesOthers | app/api/account/delete/route.ts:66-73 | the caller keeps no box and every other owner keeps theirs |
| AccountDeleteRoute.WipeTables | app/api/account/delete/route.ts:53-83 | each table loses the caller's rows unless its delete fails |
| AccountDeleteRoute.WipeCategories | app/api/account/delete/route.ts:55-58 | the category table keeps exactly the other owners' rows, in order; the invariant is kept |
| AccountDeleteRoute.WipeBoxes | app/api/account/delete/route.ts:66-69 | the box table keeps exactly the other owners' rows, in order; the invariant is kept |
| AccountDeleteRoute.WipeItems | app/api/account/delete/route.ts:76-79 | the item table keeps exactly the other owners' rows, in order; the invariant is kept |
| AccountDeleteRoute.DeleteEverything | app/api/account/delete/route.ts:18-97 | the images collected from the reads that succeeded are removed, then categories, boxes, items and the account, each unless it fails |
| AccountDeleteRoute.DeleteAccount | app/api/account/delete/route.ts:5-101 | 401 changes nothing; otherwise 200, warning when the account itself could not be deleted |
| Sequences.Distinct | components/SearchInterface.tsx:130 | the same values, each once |
| Sequences.SortByCorrect | app/api/boxes/route.ts:21 | ordering returns the rows sorted and as a permutation |
| Sequences.SortByKeepsNoDuplicates | app/boxes/add/page.tsx:35 | sorting distinct numbers keeps them distinct |
| Sequences.CountDisjoint | app/api/stats/route.ts:42-43 | two exclusive counts add up to at most all rows, and to all when every row is one or the other |
| Strings.ParseInt | app/api/items/route.ts:18-19 | `parseInt`: no number exactly when, after whitespace, a sign and a hex prefix, no digit follows; Strings.ParseIntOfIntToString is its round trip |
| Strings.Trim | app/api/categories/route.ts:68 | `trim()`: leading whitespace dropped, then trailing whitespace; Strings.TrimEmptyIffBlank is its partner |
| Strings.ParseIntOfIntToString | app/boxes/add/page.tsx:46 | a printed integer parses back to itself |
| Strings.TrimEmptyIffBlank | app/api/categories/route.ts:68 | trimming gives "" exactly for blank text |
| Strings.JoinSplit | lib/storage.ts:39-40 | splitting on "/" and joining again gives the text back |
| Strings.LexLeTotal | app/api/categories/route.ts:36 | text order compares every pair |
| Strings.LexLeTransitive | app/api/categories/route.ts:36 | text order is transitive |

## Left out

- Authentication, row-level security, the storage service and the account service are not modelled as services. The signed-in user is an `Option<string>` parameter. Each service failure is a boolean parameter, and the bucket is a set of keys.
- The `create_default_categories_for_user` database function is outside this source. Its rows are the `presets` parameter of `CategoriesRoute.List`.
- Errors of the reads and inserts in the box, category and item handlers are not modelled: a database read or insert always succeeds there. The stats, upload and account-delete handlers model their failures, including the two image-path reads of the account-delete handler, whose failure collects no paths from that table.
- Foreign-key cascades are not modelled.
- Requests are handled one at a time. Races between a duplicate check and its insert are not modelled. The image deletions that run in parallel are modelled as a loop in list order.
- `Date.now()` and the row timestamps are an integer parameter `now`.
- The QR image encoding and the file writes in lib/qr-utils.ts (directory creation, `writeFile`, `unlink`) are not modelled. The QR store records only which payload each file holds.
- app/api/boxes/[id]/qr/route.ts is not part of this model. Only the arguments it passes to `generateQRCode` are used.
- Storage.DeleteImage: whether `new URL(path)` accepts the text is the parameter `urlParses`, not a URL parser. The key is then the last two segments of the whole string rather than of its `pathname`; the two agree for the URLs the upload hands out, which carry no query or fragment.
- ItemsRoute.List: the search with `ilike` is modelled as an ASCII case-insensitive substring match, without `%` and `_` wildcards in the search text.
- CategoriesRoute.ListingIsOwnedAndOrdered: names are ordered by code point, not by the database collation.
- ItemsRoute.List requires the page and limit parameters to read as positive integers. A parameter that is not a number, zero or negative is not modelled.
- BoxesRoute.Create, ItemsRoute.Create and CategoriesRoute.Create: a body field sent as an explicit `null` gets the default value. In JavaScript, a destructuring default applies only to a missing field.
- ItemsRoute.Create: a `box_id` that is not a number is read as a failed lookup, not passed to the database as text.
- AddItemForm.QuantityField: typed quantity text is read with `parseInt`. The source sends the text and lets the database cast it.
- AddItemForm.WithField: an unknown field name leaves the form unchanged. JavaScript would add a new key.
- ResetPassword.CheckProblem: the length counts characters, not UTF-16 code units.
- Strings.ToLower and ItemsRoute.List: case folding covers ASCII letters only.
- JavaScript numbers are modelled as unbounded integers. Ids, counts and box numbers never reach 2^53 in the model's reasoning.
- React effects are not modelled. Where the source re-runs a handler because state changed (filtering after new rows arrive, searching after a filter changes), the model calls the method explicitly. Rendering, alerts, navigation and `router.refresh` are also left out.
- Other handlers in the same components are not modelled: the image inputs of the add-box page, `handleDelete` and `fetchCategories` of CategoryManager, and the fetches of boxes and categories in AddItemForm. Each only forwards to a handler outside this core or sets state from its reply.

## Findings

| source | as written | input that shows it | evidently intended | confidence | as-written member | corrected member |
|---|---|---|---|---|---|---|
| lib/qr-utils.ts:29 | the QR file is named after the box number, and app/api/boxes/[id]/qr/route.ts:46 passes the box's number | box numbers are unique only per owner: user A's box id 1 and user B's box id 2 both have number 1; generating B's code overwrites `/uploads/qr-codes/box-1-qr.png`, so A's stored path now shows a code for `/box/2` | one file per box, named after the box id, which is unique across owners | medium; not executed | QrUtils.GenerateQrCode, QrUtils.QrFileCollision | QrUtils.GenerateQrCodeById, QrUtils.QrFilesStayApart |
| components/RecentItems.tsx:24-25 | `setItems(data)` stores the whole reply of the item list, which is `{ items, pagination }`, where the view keeps an array of rows (components/BoxContents.tsx:46-48 does the same) | any OK reply, even one with a single row: the state then holds an object, on which the view's `.map` and `.filter` throw a TypeError instead of listing the row | `setItems(data.items)` | medium; not executed | ItemsReply.StoredAsWritten, ItemsReply.AsWrittenListsNothing | ItemsReply.StoredRows |
