# Paint-inventory client: the data logic, in Dafny

This project models the pure data logic of a small web client for a paint-store
inventory. The client lists products, filters them by expiry status, brand and
free text, and edits products through add and edit forms. The model is a set of
immutable records and pure functions, with lemmas stating the properties the
pages rely on.

- `wrappers.dfy`: `Option`, which stands for `undefined`/`null` in results.
- `jsstrings.dfy` (`JsStrings`): the JavaScript string operations the pages use.
  These are `v || ''`, `String(v)`, `trim`, `toLowerCase`, `includes`,
  `slice(0, n)`, `split`/`join` on one character, and `replace` with a
  one-character pattern (which rewrites only the first match).
- `seqs.dfy` (`Seqs`): `filter`, de-duplication through a `Set`, sorting under a
  given ordering, and `reverse`.
- `api.dfy` (`Api`): the `Product` record the server returns, the three
  statuses, and the request paths (`/products`, `/products?status=…`,
  `/products/<id>`).
- `ui.dfy` (`Ui`): the class string of `Button`, the tabs of `Tabs`, and the
  label and class of `StatusChip`.
- `form.dfy` (`ProductForm`): the draft shared by both forms. It holds the field
  keys, the single-field update `set`, and the submit payload.
- `addproduct.dfy` / `editproduct.dfy`: the starting draft of each page and the
  request each page submits. The edit page also turns the fetched product into a
  draft and handles a failed load.
- `list.dfy` (`ProductList`): the parts of the list page:
  - the tab-to-wire status mapping (`mapStatus`);
  - the brand dropdown;
  - the combined search-and-brand filter;
  - the `DD/MM/YYYY` expiry display;
  - the status badge of each row.

Behaviours of the source the model keeps on purpose:

- The brand dropdown lists *trimmed* brands, but the brand filter compares the
  *raw* brand. So a product whose brand has surrounding spaces disappears when
  its own dropdown entry is picked (`ProductList.PaddedBrandHiddenByOwnEntry`).
- `replace(',', '.')` rewrites only the first comma of a typed price, and the
  result is handed to `Number(...)`. `"12,50"` is handed to `Number(...)` as
  `"12.50"` and goes out as the number 12.5. `"1,234,50"` is handed to
  `Number(...)` as `"1.234,50"`, which is NaN, and the JSON body carries NaN as
  `null`. So a price typed with two commas is sent as `null`.
- The list shows `String(p.expiryDate)`. A missing date is therefore shown as the
  text `undefined`.

Further facts about the code that the model keeps:

- Only the empty string becomes `null` for `batch` and `subtype`, through
  `x || null`; no field is trimmed before submission
  (`src/pages/AddProduct.tsx:36-37`).
- Changing the category does not reset the presentation. The presentation
  options are the fixed list Litro, Galón and Caneca
  (`src/pages/AddProduct.tsx:96-98`), so no category-to-presentation logic
  exists to model.
- Submitting sends `Number(form.quantity)` with no fallback to 0
  (`src/pages/AddProduct.tsx:39`). Only the edit page's load step falls back to 0,
  through `Number(x) || 0` (`src/pages/EditProduct.tsx:44-45`).

How JavaScript is modelled:

- A string field of the server record is a `JsString`: `Undefined`, `Null` or
  `Text(s)`.
- A numeric field of the server record is a `JsNumber` (`NaN` or `Finite(x)`).
  It stands for the value after `Number(...)`.
- The numeric fields of a draft are `Value`s. A `Value` is a number until the
  user types into the input. After that it is the typed text, because every
  input calls `set(k, e.target.value)`.

## Model

| member | source | states |
|---|---|---|
| ProductList.MapStatus | src/pages/List.tsx:17-21 | 'todos' sends no status; OK, POR_VENCER and VENCIDO are sent as 'ok', 'por-vencer' and 'vencido' |
| ProductList.MapStatusRoundTrip | src/pages/List.tsx:17-21 | the wire status identifies the tab: distinct tabs are never sent as the same filter |
| ProductList.ListRequestForTab | src/pages/List.tsx:23-26 | the list request for a tab carries that tab's wire status; 'todos' fetches '/products' and "Por vencer" fetches '/products?status=por-vencer' |
| Api.ProductsPath | src/api.ts:32-33 | the list path starts with '/products', carries back exactly the status it was given when that is non-empty and none otherwise, and names no item |
| Api.ItemPath | src/api.ts:35-45 | the item path starts with '/products', the id is read back from it unchanged, and it carries no status filter |
| Api.GetProducts | src/api.ts:32-33 | getProducts is a GET whose path carries the non-empty status given, or none, and names no item |
| Api.GetProduct | src/api.ts:35-36 | getProduct is a GET whose path carries the id given |
| Api.CreateProduct | src/api.ts:38-39 | createProduct is a POST to the unfiltered list path, naming no item and no status |
| Api.UpdateProduct | src/api.ts:41-42 | updateProduct is a PUT whose path carries the id given |
| Api.DeleteProduct | src/api.ts:44-45 | deleteProduct is a DELETE whose path carries the id given |
| Api.ProductsPathRoundTrip | src/api.ts:32-33 | a non-empty status is read back from the list path unchanged; an absent or empty status requests the bare '/products' |
| Api.ItemRequestsShareTarget | src/api.ts:35-45 | getProduct, updateProduct and deleteProduct target one path, '/products/' followed by the unencoded id, which is recovered unchanged; they differ only in the verb |
| Api.ItemPathIsNotListPath | src/api.ts:32-45 | no item path equals a list path, for any id and status |
| ProductList.PresentBrands | src/pages/List.tsx:35 | a string is among the mapped-and-filtered brands iff it is non-empty and is the trimmed brand of some product |
| ProductList.Brands | src/pages/List.tsx:34-37 | the dropdown holds non-empty, trimmed, pairwise distinct brands, sorted by the given order, and exactly the trimmed non-blank brands of the snapshot |
| ProductList.Filtered | src/pages/List.tsx:40-47 | the filtered list is no longer than the snapshot; every shown row is in the snapshot and passes both the search and the brand test; every snapshot row passing both is shown |
| ProductList.FilteredSelection | src/pages/List.tsx:40-47 | the filtered list is an order-preserving subsequence of the snapshot made of exactly the rows passing both tests |
| ProductList.FilteredMembers | src/pages/List.tsx:41-45 | a product is shown iff it is in the snapshot, the trimmed lower-cased query is blank or occurs in its lower-cased code, name or brand, and no brand is selected or its raw brand equals the selection |
| ProductList.EmptyFiltersKeepAll | src/pages/List.tsx:41-45 | a whitespace-only query with no brand selected shows the whole snapshot |
| ProductList.FilteredIdempotent | src/pages/List.tsx:40-47 | filtering the filtered list again with the same query and brand changes nothing |
| ProductList.FiltersCommute | src/pages/List.tsx:42-45 | search alone then brand alone, in either order, equals the combined filter |
| ProductList.PaddedBrandHiddenByOwnEntry | src/pages/List.tsx:34-44 | a product whose brand has surrounding whitespace is listed under its trimmed brand, yet selecting that entry hides it, since the filter compares the raw brand |
| ProductList.IsoDateShownDayFirst | src/pages/List.tsx:113 | a value starting with YYYY-MM-DD, with or without a time part, is shown as DD/MM/YYYY |
| ProductList.DisplayDateRoundTrip | src/pages/List.tsx:143 | if the first ten characters hold no '/', splitting the display at '/', reversing and joining with '-' gives those characters back |
| ProductList.DisplayDate | src/pages/List.tsx:113 | the shown date is exactly as long as the first ten characters of the value and holds no '-': every '-' becomes a '/' |
| ProductList.ExpiryText | src/pages/List.tsx:113 | an ISO date reads DD/MM/YYYY; a product without an expiry date shows the text 'undefined', and a null one shows 'null' (the card view at List.tsx:143 is the same) |
| ProductList.UndashedShownAsIs | src/pages/List.tsx:143 | a value of at most ten characters without '-' is shown unchanged |
| ProductList.Badges | src/pages/List.tsx:115-117 | a row with a status shows exactly one badge, whose label reads back as that status; a row without a status shows none |
| ProductList.OneBadgePerStatus | src/pages/List.tsx:115-117 | a row with a status shows exactly one badge, whose text is the status chip's label for it; a row without a status shows none |
| Ui.ButtonClass | src/components/ui.tsx:7 | the class is 'btn' for the default variant (the trailing space is trimmed), 'btn primary' for primary, 'btn ghost' for ghost |
| Ui.ButtonClassesDistinct | src/components/ui.tsx:7 | distinct variants get distinct classes, and no class ends in whitespace |
| Ui.Tabs | src/components/ui.tsx:29-37 | one tab per item in item order, with the item's value as key and its label; a tab is active iff the selected value equals its value |
| Ui.AtMostOneActiveTab | src/components/ui.tsx:32 | with distinct item values at most one tab is active, and one is active when the selected value is listed |
| Ui.StatusChip | src/components/ui.tsx:43-50 | 'OK' gives 'chip badge-ok'/'OK', 'POR_VENCER' gives 'chip badge-warn'/'Por vencer', every other value gives 'chip badge-bad'/'Vencido' |
| Ui.StatusChipOneToOne | src/components/ui.tsx:42-51 | over the three statuses the chip's label names the status back and two statuses never share a class |
| ProductForm.Set | src/pages/AddProduct.tsx:26-28 | set(k, v) makes field k equal to v and leaves every other field unchanged (the edit page's set at EditProduct.tsx:27-29 is the same) |
| ProductForm.SetLaws | src/pages/EditProduct.tsx:27-29 | a second update of a field overrides the first, and updates of different fields commute |
| ProductForm.ToPayload | src/pages/AddProduct.tsx:34-41 | code, name, brand, category, presentation, expiry date and quantity are copied; batch and subtype are null exactly when empty and otherwise verbatim; a typed price has its first comma, and only that one, replaced by a point |
| ProductForm.PayloadRoundTrip | src/pages/EditProduct.tsx:58-65 | the draft is recovered from its payload whenever its price holds no comma, so the payload loses nothing else |
| ProductForm.PriceCommaExamples | src/pages/AddProduct.tsx:40 | "12,50" is handed to Number(...) as "12.50" and "1,234,50" as "1.234,50", which Number(...) turns into NaN |
| ProductForm.DecimalCommaExample | src/pages/AddProduct.tsx:40 | replace(',', '.') turns "12,50" into "12.50" but "1,234,50" into "1.234,50": the second comma stays |
| JsStrings.ReplaceFirst | src/pages/AddProduct.tsx:40 | replace(',', '.') changes only the first comma, at its first index; a string without a comma is unchanged |
| JsStrings.Trim | src/pages/List.tsx:35 | trim gives a string with no whitespace at either end, which is empty iff the input is all whitespace and equals the input when nothing is to trim; the result is the infix of the input with only whitespace before and after it |
| JsStrings.Lower | src/pages/List.tsx:41-43 | toLowerCase keeps the length, maps each character by the letter table, leaves no A-Z capital, and leaves every non-letter unchanged |
| JsStrings.Take | src/pages/EditProduct.tsx:43 | slice(0, n) is a prefix of the string, of length n or the whole string when shorter |
| JsStrings.Split | src/pages/List.tsx:113 | split on one character gives at least one part, and no part contains the separator |
| JsStrings.Join | src/pages/List.tsx:113 | join of no parts is empty; otherwise it starts with the first part, followed by the separator when a second part follows |
| JsStrings.JoinSplit | src/pages/List.tsx:113 | joining a split with the same separator gives the string back |
| JsStrings.SplitJoin | src/pages/List.tsx:113 | splitting the join of one or more separator-free parts gives the parts back |
| JsStrings.JoinLength | src/pages/List.tsx:113 | a join is as long as its parts together plus one separator between each two |
| JsStrings.Stringify | src/pages/List.tsx:113 | String(v) of a present string is the string; an absent value is spelled 'undefined' and null is 'null', never empty, unlike v \|\| '' |
| JsStrings.OrEmpty | src/pages/List.tsx:43 | v \|\| '' is the string itself when present, and is empty exactly when the value is absent, null or empty |
| JsStrings.Includes | src/pages/List.tsx:43 | includes holds iff the key occurs at some position of the string |
| Seqs.Filter | src/pages/List.tsx:42 | the result keeps exactly the elements satisfying the predicate |
| Seqs.FilterSelects | src/pages/List.tsx:42 | filter selects exactly the positions whose element satisfies the predicate, in increasing order |
| Seqs.Distinct | src/pages/List.tsx:35 | a Set of the values has no duplicates and holds exactly the values of the input |
| Seqs.SortBy | src/pages/List.tsx:36 | sorting gives a permutation of the input that is sorted under the comparator's order |
| AddProduct.Initial | src/pages/AddProduct.tsx:13-24 | the new-product draft has quantity 1, price 0, category 'Pintura', presentation 'Galón' and empty text elsewhere |
| AddProduct.Submit | src/pages/AddProduct.tsx:30-42 | submitting POSTs the normalised draft to '/products' |
| EditProduct.Initial | src/pages/EditProduct.tsx:14-25 | before loading, the draft has quantity 0 and price 0 and the same text defaults as the add form |
| EditProduct.InitialDraftsDifferOnlyInQuantity | src/pages/EditProduct.tsx:14-25 | the two starting drafts agree on every field but the quantity |
| EditProduct.FromServer | src/pages/EditProduct.tsx:35-46 | falsy code, batch, name, brand and subtype become ''; falsy category and presentation become 'Pintura' and 'Galón'; the expiry date becomes the whole value when it has at most 10 characters and its first 10 characters otherwise; NaN quantity and price become 0 |
| EditProduct.NumberOrZero | src/pages/EditProduct.tsx:44-45 | Number(x) \|\| 0 is always a number: the converted value, or 0 in place of NaN |
| EditProduct.OnLoad | src/pages/EditProduct.tsx:31-52 | a fetched product replaces the draft and clears the message; a failed fetch keeps the draft and sets the warning |
| EditProduct.LoadOutcomeLaws | src/pages/EditProduct.tsx:31-52 | a successful load does not depend on the page before it, a repeated failure changes nothing more, and a failed load before another load leaves no trace in the form |
| EditProduct.FailedLoadKeepsDefaults | src/pages/EditProduct.tsx:48-50 | after a failed load the form keeps quantity 0 and price 0, and only the message changes |
| EditProduct.Submit | src/pages/EditProduct.tsx:54-66 | submitting PUTs the normalised draft to '/products/' + id |
| EditProduct.LoadThenSubmit | src/pages/EditProduct.tsx:35-65 | saving a loaded product unedited sends its non-empty batch and subtype verbatim, null for empty or missing ones, and its numbers or 0 |

## Left out

- The barcode scanners (`src/components/BarcodeScanner.tsx`, `src/components/components.tsx`) are not part of this model. They drive the camera through an external decoding library.
- The network is not modelled: the HTTP client, the base URL from the environment, responses and errors. A request is only its verb and path, plus the submitted body. A failed fetch is `None`.
- React state and effect scheduling is not modelled: loading flags, races between responses, the `confirm` dialog, delete followed by reload, `setTimeout` navigation and routing.
- The save messages ('Guardando…', '✅ Guardado', '❌ Error al guardar') are not modelled. The model keeps only the edit page's load-failure message.
- Number conversions are taken as given and not computed: parsing text with `Number(...)` and the `toFixed(2)` price display.
- ProductForm.ToPayload: the payload holds the quantity and price text that the source passes to `Number(...)`, not the parsed number, because number parsing is left out.
- ProductList.Brands: `localeCompare` is replaced by a caller-given total preorder `leq`, because locale collation is outside the model.
- JsStrings.Lower: `toLowerCase` is modelled only for A-Z and the Latin-1 capitals. Other characters are unchanged, because full Unicode case mapping is out of scope.
- Strings are sequences of Unicode characters, not UTF-16 code units. `slice(0, 10)` on characters outside the Basic Multilingual Plane therefore counts differently.
- The report links (`/reports/proforma?brand=…`, `/reports/csv`) and the list page's own tab buttons are not modelled. They are rendering with URL encoding.
- Product fields the core never reads are omitted: color, entry date, location, currency, comment, timestamps and days left.
- The scanner's `onResult` callback is `set('code', code)` and is covered by ProductForm.Set.
