# Storefront product and profile forms, modelled in Dafny

The storefront lets a signed-in user keep a catalogue of products and a profile. The backend
stores the rows and the images. This project models the logic that runs in the browser:

- **The product list view** (`ProductList` in `src/app/dashboard/produto/page.jsx`). It covers
  the case-insensitive search over name and description, the open/closed state of the edit
  modal, and the local patches to the list. A saved row is put at the head when its id is new
  and replaced in place otherwise. A deleted id is filtered out once the delete succeeds.
- **The product modal** (`ProductModal`). It covers the digits-only price mask read as cents,
  `formatToBRL`, the form in edit and create mode, and field edits that never touch the price.
  It also covers the image choice and the storage paths
  (`produtos/<uid>/<last segment of the old URL>` and `produtos/<uid>/<Date.now()>.<ext>`).
  Last, it covers what one save sends: an optional delete and upload, then an update by id or
  an insert.
- **The profile modal** (`ProfileModal`). It covers the form and its `''` defaults, the photo
  preview that falls back to the existing photo, and the photo path `perfil/<uid>-<Date.now()>.<ext>`.
  It also covers the update payload and the merged profile handed back to the navigation bar.

Files: `wrappers.dfy` (Option, Result), `sequences.dfy` (`filter` and subsequences), `text.dfy`
(`toLowerCase`, `includes`, `split(sep).pop()`), `decimal.dfy` (`replace(/\D/g, "")`,
`parseInt`, `String(n)`), `price_mask.dfy`, `entities.dfy` (the product and profile rows),
`product_modal_form.dfy`, `product_list_page.dfy` and `profile_modal_form.dfy`. Each of the last
three holds the pure decisions of one component and a class with that component's state. The
class's methods are its handlers.

Modelling conventions:

- A price is `Blank` (the empty string or null) or `Cents(n)`, which stands for the number `n / 100`
  that the source stores.
- The backend's answers are inputs to the save functions: the session, `Date.now()`, the upload
  and write errors, the public URL, and the id the store gives a new row.
- A product save reads the row back (`.select().single()`); the store is taken to return the
  row it wrote (`StoredRow`).
- A profile save does not read the row back: the profile handed to the navigation bar is merged
  locally from the old profile and the form (`MergedProfile`). `UpdatedRow` describes the stored
  row after the update under the assumption that its other columns (`user_id`, `email`) equal
  the local profile's.
- `window.confirm`, `URL.createObjectURL` and the file picked in a file input are inputs too.
- Each handler is one atomic step.

## Model

| member | source | states |
|---|---|---|
| `Text.LowerStr` | src/app/dashboard/produto/page.jsx:65-66 | lower-casing keeps the length and lowers each character |
| `Text.LowerStrIdempotent` | src/app/dashboard/produto/page.jsx:65-66 | lower-casing an already lower-cased text changes nothing |
| `Text.Includes` | src/app/dashboard/produto/page.jsx:65-66 | `includes` is false when the term is longer than the text, and true when the text starts with the term |
| `Text.IncludesIffOccurs` | src/app/dashboard/produto/page.jsx:65-66 | `includes` is true exactly when the term occurs at some index of the text |
| `Text.IncludesEmpty` | src/app/dashboard/produto/page.jsx:65 | every text includes the empty term |
| `Text.LastIndexOf` | src/app/dashboard/produto/ProductModal.jsx:108-112 | the position `split(sep).pop()` cuts after: -1 or a `sep`, with no `sep` after it |
| `Text.AfterLast` | src/app/dashboard/produto/ProductModal.jsx:108-112 | `split(sep).pop()` as the text after `LastIndexOf`; it has no contract of its own, and `AfterLastIsLastSegment` states what it is |
| `Text.AfterLastIsLastSegment` | src/app/dashboard/produto/ProductModal.jsx:108-112 | `split(sep).pop()` is the longest suffix free of `sep`: it has no `sep` and is preceded by `sep` or is the whole text |
| `Text.AfterLastWithoutSep` | src/app/dashboard/produto/ProductModal.jsx:112 | a name without the separator is its own last segment (a file name with no '.' is its own extension) |
| `Text.LastIndexOfJoin` | src/app/dashboard/produto/ProductModal.jsx:108 | in `a + sep + b` with no `sep` in `b`, the last `sep` is the one after `a` |
| `Text.AfterLastOfJoin` | src/app/dashboard/produto/ProductModal.jsx:108 | the last segment of `a + sep + b` is `b` when `b` has no `sep` |
| `Sequences.Filter` | src/app/dashboard/produto/page.jsx:63-67 | `filter` keeps exactly the accepted elements, as a subsequence in their original order |
| `Sequences.FilterKeepsAll` | src/app/dashboard/produto/page.jsx:63-67 | when every element is accepted the filter returns its input |
| `Sequences.FilterIdempotent` | src/app/dashboard/produto/page.jsx:63-67 | filtering twice with one test equals filtering once |
| `Decimal.KeepDigits` | src/app/dashboard/produto/ProductModal.jsx:48 | `replace(/\D/g, "")` leaves only digits, in order, and keeps every digit of the input |
| `Decimal.KeepDigitsOfDigits` | src/app/dashboard/produto/ProductModal.jsx:48 | a digit string passes unchanged |
| `Decimal.KeepDigitsAppend` | src/app/dashboard/produto/ProductModal.jsx:48 | the digits of a concatenation are the digits of each part |
| `Decimal.KeepDigitsOfNonDigits` | src/app/dashboard/produto/ProductModal.jsx:48 | a text with no digit becomes empty |
| `Decimal.Value` | src/app/dashboard/produto/ProductModal.jsx:50 | `Number.parseInt(s, 10)` on a digit string; no contract of its own, pinned by `ValueAppend`, `ValueBelowPow10` and the `ToDecimal` round trips |
| `Decimal.ValueBelowPow10` | src/app/dashboard/produto/ProductModal.jsx:50 | a digit string of length n parses to less than 10^n |
| `Decimal.ValueAppend` | src/app/dashboard/produto/ProductModal.jsx:50 | appending a digit multiplies the parsed value by ten and adds the digit |
| `Decimal.ValueDropLast` | src/app/dashboard/produto/ProductModal.jsx:50 | dropping the last digit divides the parsed value by ten |
| `Decimal.ValueLeadingZero` | src/app/dashboard/produto/ProductModal.jsx:50 | `parseInt` ignores a leading zero |
| `Decimal.ValuePositive` | src/app/dashboard/produto/ProductModal.jsx:50 | a digit string not starting with '0' parses to a positive number |
| `Decimal.ToDecimal` | src/app/dashboard/produto/ProductModal.jsx:113 | `String(Date.now())` is a non-empty digit string with no leading zero |
| `Decimal.ValueOfToDecimal` | src/app/dashboard/produto/ProductModal.jsx:113 | parsing a rendered number gives the number |
| `Decimal.ToDecimalOfValue` | src/app/dashboard/produto/ProductModal.jsx:50 | rendering the value of a digit string without leading zeros gives the string back |
| `Decimal.PadLeft` | src/app/dashboard/produto/ProductModal.jsx:66-69 | zero padding to a width keeps the value and reaches the width |
| `PriceMask.ParseCents` | src/app/dashboard/produto/ProductModal.jsx:46-54 | the price is `""` exactly when the input has no digit, else the value of its digits in cents |
| `PriceMask.FormatToBRL` | src/app/dashboard/produto/ProductModal.jsx:62-70 | the display is `""` exactly for an empty price |
| `PriceMask.Group` | src/app/dashboard/produto/ProductModal.jsx:66-69 | the thousands grouping of `toLocaleString("pt-BR")`; no contract of its own, `KeepDigitsOfGroup` and `FormatThousands` state what it does |
| `PriceMask.FormatCents` | src/app/dashboard/produto/ProductModal.jsx:66-69 | the pt-BR two-decimal rendering; no contract of its own, its shape and digits are stated by `FormatCentsShape` and `KeepDigitsOfFormat` |
| `PriceMask.FormatCentsShape` | src/app/dashboard/produto/ProductModal.jsx:66-69 | the rendering ends in ',' and exactly two digits, with an integer part before it |
| `PriceMask.KeepDigitsOfGroup` | src/app/dashboard/produto/ProductModal.jsx:66-69 | the thousands separators are the only non-digits grouping adds |
| `PriceMask.KeepDigitsOfFormat` | src/app/dashboard/produto/ProductModal.jsx:66-69 | the digits on display are the cents padded to three digits |
| `PriceMask.PriceRoundTrip` | src/app/dashboard/produto/ProductModal.jsx:46-59 | stripping and parsing the displayed amount gives back the stored price |
| `PriceMask.TypeDigit` | src/app/dashboard/produto/ProductModal.jsx:46-59 | typing a digit after the displayed amount stores ten times the cents plus the digit |
| `PriceMask.KeepDigitsOfBackspace` | src/app/dashboard/produto/ProductModal.jsx:46-48 | after deleting the last displayed character the digits left are the padded cents without their last digit |
| `PriceMask.Backspace` | src/app/dashboard/produto/ProductModal.jsx:46-59 | deleting the last displayed character stores the cents divided by ten, and never empties the price |
| `PriceMask.FormatThousands` | src/app/dashboard/produto/ProductModal.jsx:66-69 | 123450 cents are shown as "1.234,50" |
| `PriceMask.FormatBelowOne` | src/app/dashboard/produto/ProductModal.jsx:66-69 | 5 cents are shown as "0,05" |
| `ProductListPage.FilterProducts` | src/app/dashboard/produto/page.jsx:63-67 | the filtered list is a subsequence of the products, in order, holding exactly those that match |
| `ProductListPage.Matches` | src/app/dashboard/produto/page.jsx:64-66 | the filter's callback; no contract of its own, `MatchesIffOccurs` states what it accepts |
| `ProductListPage.MatchesIffOccurs` | src/app/dashboard/produto/page.jsx:65-66 | a product matches iff the lower-cased term occurs in its lower-cased name, or in its non-empty lower-cased description |
| `ProductListPage.FilterEmptyTermKeepsAll` | src/app/dashboard/produto/page.jsx:63-67 | an empty search keeps every product |
| `ProductListPage.FilterProductsIdempotent` | src/app/dashboard/produto/page.jsx:63-67 | filtering the filtered list with the same term changes nothing |
| `ProductListPage.FilterIgnoresTermCase` | src/app/dashboard/produto/page.jsx:65-66 | searching for the lower-cased term finds the same products |
| `ProductListPage.ReplaceById` | src/app/dashboard/produto/page.jsx:84 | the map keeps the length; entries with the saved id become the saved row, the others stay |
| `ProductListPage.HasId` | src/app/dashboard/produto/page.jsx:80 | `products.some(p => p.id === savedProduct.id)`; `SaveMerge` and `SaveMergeContents` state how it decides between prepending and replacing |
| `ProductListPage.SaveMerge` | src/app/dashboard/produto/page.jsx:79-86 | a new id gives `[saved] + old`; a known id keeps the length and positions, replacing only entries with that id |
| `ProductListPage.SaveMergeIdempotent` | src/app/dashboard/produto/page.jsx:79-86 | saving the same row twice gives the list that saving it once gives |
| `ProductListPage.SaveMergeContents` | src/app/dashboard/produto/page.jsx:79-86 | after a save every entry with the saved id is the saved row, and the ids are the old ids plus the saved one |
| `ProductListPage.SaveMergeKeepsIdsUnique` | src/app/dashboard/produto/page.jsx:79-86 | distinct ids stay distinct, so exactly one entry carries the saved id |
| `ProductListPage.SaveMergeKeepsOwner` | src/app/dashboard/produto/page.jsx:79-86 | a list of one user's products stays that user's after saving a row of that user |
| `ProductListPage.RemoveById` | src/app/dashboard/produto/page.jsx:95 | the delete patch keeps, in order, exactly the entries with another id |
| `ProductListPage.RemoveAbsentId` | src/app/dashboard/produto/page.jsx:95 | deleting an id that is not listed changes nothing |
| `ProductListPage.RemoveExactlyOne` | src/app/dashboard/produto/page.jsx:95 | with distinct ids, deleting a listed id removes exactly one entry |
| `ProductListPage.RemoveKeepsIdsUnique` | src/app/dashboard/produto/page.jsx:95 | deleting keeps the ids distinct |
| `ProductListPage.RemoveKeepsOwner` | src/app/dashboard/produto/page.jsx:95 | deleting keeps the list one user's |
| `ProductListPage.EditedProductStaysInPlace` | src/app/dashboard/produto/page.jsx:79-86 | after editing a listed product the list keeps its length, shows the saved row at the same position and leaves the rest unchanged |
| `ProductListPage.CreatedProductIsPrepended` | src/app/dashboard/produto/page.jsx:80-82 | a created product with a new id appears at the head, followed by the old list |
| `ProductListPage.ProductList.constructor` | src/app/dashboard/produto/page.jsx:10-15 | the view starts with no products, no search, the modal closed, loading and no error |
| `ProductListPage.ProductList.FilteredProducts` | src/app/dashboard/produto/page.jsx:63-67 | the displayed list is an ordered sublist of the products holding exactly those that match the search term |
| `ProductListPage.ProductList.LoadProducts` | src/app/dashboard/produto/page.jsx:17-43 | a successful fetch replaces the list (`data` or `[]`); any failure keeps it and shows the load error; loading ends |
| `ProductListPage.ProductList.SetSearchTerm` | src/app/dashboard/produto/page.jsx:112 | only the search term changes |
| `ProductListPage.ProductList.OpenProductModal` | src/app/dashboard/produto/page.jsx:69-72 | the modal opens on the given product, or in create mode with none |
| `ProductListPage.ProductList.CloseProductModal` | src/app/dashboard/produto/page.jsx:74-77 | the modal closes and the edited product is cleared |
| `ProductListPage.ProductList.HandleProductSaved` | src/app/dashboard/produto/page.jsx:79-86 | the list becomes the save merge of the old list, keeping ids distinct; nothing else changes |
| `ProductListPage.ProductList.ApplySaveOutcome` | src/app/dashboard/produto/ProductModal.jsx:144-147 | a successful save merges the row and closes the modal; a failed one changes nothing |
| `ProductListPage.ProductList.HandleDeleteProduct` | src/app/dashboard/produto/page.jsx:88-101 | a declined confirmation issues nothing and changes nothing; a failed delete keeps the list and sets the error; a successful one removes the id |
| `ProductModalForm.InitialForm` | src/app/dashboard/produto/ProductModal.jsx:21-34 | edit mode copies name, description (or `""`) and price; create mode is the empty form |
| `ProductModalForm.InitialPreview` | src/app/dashboard/produto/ProductModal.jsx:29-33 | the preview is the product's non-empty image, else none |
| `ProductModalForm.WithInput` | src/app/dashboard/produto/ProductModal.jsx:72-80 | only the named text field changes; the price never does |
| `Entities.FileExtension` | src/app/dashboard/produto/ProductModal.jsx:112 | the extension is a '.'-free suffix of the file name |
| `Entities.FileExtensionFollowsLastDot` | src/app/dashboard/produto/ProductModal.jsx:112 | the extension is exactly what follows the name's last '.', or the whole name when there is none |
| `ProductModalForm.OldObjectPath` | src/app/dashboard/produto/ProductModal.jsx:108-109 | the object deleted for an old image; no contract of its own, `RemoveTargetsUploadedObject` states that it is the object uploaded for that image |
| `ProductModalForm.NewObjectPath` | src/app/dashboard/produto/ProductModal.jsx:112-114 | where a new image goes; no contract of its own, `NewPathKeepsExtension` states that it keeps the file's extension |
| `ProductModalForm.NewPathKeepsExtension` | src/app/dashboard/produto/ProductModal.jsx:112-114 | the uploaded object's name ends in the picked file's extension |
| `ProductModalForm.RemoveTargetsUploadedObject` | src/app/dashboard/produto/ProductModal.jsx:107-114 | for an image whose URL ends in its upload path, the delete targets exactly the object that was uploaded |
| `ProductModalForm.KeptImage` | src/app/dashboard/produto/ProductModal.jsx:104 | `productData?.imagem`, the image kept when no file is picked; `SaveKeepsImageWithoutFile` states that the row keeps it |
| `ProductModalForm.ImageCalls` | src/app/dashboard/produto/ProductModal.jsx:106-116 | the remove of the old object when there was an image, then the upload to the new path; `SaveReplacesImage` and `SaveUploadFailure` state these calls |
| `ProductModalForm.RowWrite` | src/app/dashboard/produto/ProductModal.jsx:133-142 | an update by the edited id, or an insert when creating; `SaveWritesOnce` states that it is the save's one final row write |
| `ProductModalForm.SaveProduct` | src/app/dashboard/produto/ProductModal.jsx:93-154 | no session issues no call and fails with the session message; a save succeeds exactly when there is a session, no upload error for a picked file and no write error, and then hands the list the stored row: the edited id or the store's new id, the form's fields, the new public URL or the kept image, and the session's user; no file means no storage call |
| `ProductModalForm.SaveWritesOnce` | src/app/dashboard/produto/ProductModal.jsx:124-142 | a save ends in exactly one row write, an update by id iff a product was being edited, with the form's fields and the session's user |
| `ProductModalForm.SaveKeepsImageWithoutFile` | src/app/dashboard/produto/ProductModal.jsx:104-130 | with no new file only the row is written, with the product's previous image, or none for a new product |
| `ProductModalForm.SaveReplacesImage` | src/app/dashboard/produto/ProductModal.jsx:106-122 | a new file is uploaded to the new path after deleting the old object exactly when there was an image; the row gets the public URL |
| `ProductModalForm.SaveUploadFailure` | src/app/dashboard/produto/ProductModal.jsx:107-118 | a failed upload writes no row and reports the upload error; the upload to the new path is the last call, after the old image was already deleted |
| `ProductModalForm.SaveWriteFailure` | src/app/dashboard/produto/ProductModal.jsx:144-150 | a failed row write fails the save with its message after the write was issued, so no row reaches the list |
| `ProductModalForm.ReopenShowsSavedForm` | src/app/dashboard/produto/ProductModal.jsx:22-28 | opening the modal on a saved row shows the form that was saved |
| `ProductModalForm.ProductModal.constructor` | src/app/dashboard/produto/ProductModal.jsx:8-17 | the form starts empty, with nothing picked, not loading and no error |
| `ProductModalForm.ProductModal.OnOpen` | src/app/dashboard/produto/ProductModal.jsx:20-40 | opening loads the product or resets the form, sets the preview and clears the picked file; the price display matches the price |
| `ProductModalForm.ProductModal.HandlePriceChange` | src/app/dashboard/produto/ProductModal.jsx:46-60 | the price becomes the input's cents and the display reads back as that price; nothing else changes |
| `ProductModalForm.ProductModal.HandleInputChange` | src/app/dashboard/produto/ProductModal.jsx:72-80 | the form becomes `WithInput` of the old form; price and display untouched |
| `ProductModalForm.ProductModal.HandleFileChange` | src/app/dashboard/produto/ProductModal.jsx:82-91 | a picked file is previewed by its object URL; clearing it clears the preview too |
| `ProductModalForm.ProductModal.HandleSaveProduct` | src/app/dashboard/produto/ProductModal.jsx:93-154 | the outcome is `SaveProduct` of the current form and file; its error is shown and loading ends |
| `ProfileModalForm.InitialForm` | src/components/ProfileModal.jsx:19-25 | each of `nome`, `sexo`, `pais`, `estado` is the profile's value or `''` |
| `ProfileModalForm.ExistingPhoto` | src/components/ProfileModal.jsx:26 | the preview without a file is the profile's non-empty photo, else none |
| `ProfileModalForm.WithInput` | src/components/ProfileModal.jsx:34-37 | only the named field changes |
| `ProfileModalForm.PhotoPath` | src/components/ProfileModal.jsx:60-62 | where a new photo goes; no contract of its own, `PhotoPathShape` states its prefix and extension |
| `ProfileModalForm.PhotoPathShape` | src/components/ProfileModal.jsx:60-62 | the photo path starts with `perfil/<uid>-` and keeps the file's extension |
| `ProfileModalForm.MergedProfile` | src/components/ProfileModal.jsx:91 | the merged profile takes the form's fields and the photo URL; `userId` and `email` are unchanged |
| `ProfileModalForm.SaveProfile` | src/components/ProfileModal.jsx:50-98 | no session issues no call and fails; a save succeeds exactly when there is a session, no upload error for a picked file and no update error, and then hands back the profile merged with the form and the new public URL or the old photo; no file means no upload |
| `ProfileModalForm.SaveKeepsPhotoWithoutFile` | src/components/ProfileModal.jsx:57-86 | with no file the only call updates the session user's row with the form and the existing photo, and the result keeps that photo |
| `ProfileModalForm.SaveWithPhoto` | src/components/ProfileModal.jsx:59-86 | a new photo is uploaded to the photo path first; a failed upload stops there, a good one is followed by the update of the session user's row with the form's four fields and the public URL |
| `ProfileModalForm.SaveFailureReportsError` | src/components/ProfileModal.jsx:94-97 | a missing session, upload error or update error fails with that message and hands nothing to the parent |
| `ProfileModalForm.MergedProfileIsStoredRow` | src/components/ProfileModal.jsx:77-91 | the profile handed to the parent equals the row as the five-column update leaves it, with the email unchanged |
| `ProfileModalForm.ReopenShowsSavedForm` | src/components/ProfileModal.jsx:18-26 | opening the modal on the merged profile shows the form that was saved and the photo the save stored (the new public URL, else the old photo) |
| `ProfileModalForm.ProfileModal.constructor` | src/components/ProfileModal.jsx:7-15 | the form starts with `''` fields, no file, no preview and no error |
| `ProfileModalForm.ProfileModal.OnOpen` | src/components/ProfileModal.jsx:18-32 | opening loads the profile's fields, shows its photo and clears the picked file |
| `ProfileModalForm.ProfileModal.HandleInputChange` | src/components/ProfileModal.jsx:34-37 | the form becomes `WithInput` of the old form; nothing else changes |
| `ProfileModalForm.ProfileModal.HandleFileChange` | src/components/ProfileModal.jsx:39-48 | a picked file is previewed by its object URL; clearing it falls back to the existing photo |
| `ProfileModalForm.ProfileModal.HandleProfileUpdate` | src/components/ProfileModal.jsx:50-98 | the outcome is `SaveProfile` of the current profile, form and file; its error, or none, is shown |

## Left out

- Backend calls (auth, row select/insert/update/delete, storage upload/remove/public URL): their answers are inputs. Exceptions the SDK throws count as error answers. The remove call's own result is ignored, as in the source.
- The product save's `.select().single()` is taken to return the row it wrote. The profile update reads nothing back; `UpdatedRow` takes the stored row's `user_id` and `email` to equal the local profile's. Columns the forms never write, such as `created_at`, are not modelled, so the fetch order (by `created_at`, newest first) is whatever the store returns.
- FileExtension: its own contract says only that the extension is a '.'-free suffix of the name; that it starts right after the last '.' is stated by `FileExtensionFollowsLastDot`, kept out of the function's contract because the solver then loses its way in every proof about a save.
- Product names are taken to be non-null (`nome: string`). The filter calls `product.nome.toLowerCase()` (page.jsx:65), which throws on a null name; the modal defaults it with `|| ""` (ProductModal.jsx:24).
- Text.LowerStr: lowers only the ASCII letters A-Z; Unicode case mapping is not modelled.
- PriceMask.FormatToBRL: `toLocaleString("pt-BR")` is modelled by its output for two fraction digits: '.' between thousands and ',' before the cents. The locale data itself is not modelled. The currency-style rendering in the list and share message is not modelled either.
- PriceMask.ParseCents: the source divides by 100 in floating point. The model keeps integer cents, so precision lost on digit strings beyond 2^53 is not modelled. A stored price with more than two decimals, or a negative one, is not modelled either.
- The two `handleShareProduct` handlers (in the list page and in the product detail page) and the rest of the detail page are not part of this model. They compose a message through locale formatting, URL encoding and `window.open`. The list page's handler also reads a `product.image` field that rows do not have (page.jsx:51).
- `Navbar.jsx` is not part of this model: its session guard, profile fetch and open/close state. The profile modal is given the non-null profile the navigation bar mounts it with, and its save returns the merged profile instead of calling `onProfileUpdate` and `onClose`.
- Login, register, the dashboard page and `next.config.mjs` are not part of this model: they are auth wrappers, page composition and configuration.
- The HTML `required` attributes, which stop the browser from submitting an empty name or price, are not modelled. The save functions accept any form.
- `handleInputChange` is modelled for the inputs the forms render. A computed key with any other name would add an unused field to `formData` in the source.
- Rendering, styling, image fallbacks, the disabled buttons while saving, and the reset of the file input element are not modelled.
- React timing and async interleaving are not modelled: each handler is one atomic step. `handleProductSaved` reads `products` for `isNew` and `prev` for the update; here both are the same list.
